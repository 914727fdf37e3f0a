/** When a plan can be staged. */
module StagingRules {
  import opened Layout
  import opened Naming
  import opened StagedLayout

  /** Neither of the two files lies on the way to a layout directory. */
  predicate FilesClear(paths: AppPaths) {
    forall d | d in FiveDirectories(paths) :: !StartsWith(d, paths.ConfigFile()) && !StartsWith(d, paths.StateFile())
  }

  lemma ChildPrefix(dir: Path, name: string, p: Path)
    ensures StartsWith(dir + [name], p) ==> p == dir + [name] || StartsWith(dir, p)
  {
    if StartsWith(dir + [name], p) && |p| <= |dir| {
      assert dir[..|p|] == (dir + [name])[..|p|];
    }
  }

  lemma ChildrenDiffer(a: Path, x: string, b: Path, y: string)
    requires x != y
    ensures a + [x] != b + [y]
  {
    assert (a + [x])[|a|] == x && (b + [y])[|b|] == y;
  }

  lemma FiveListed(paths: AppPaths)
    ensures var five := FiveDirectories(paths);
      paths.configDir in five && paths.dataDir in five && paths.stateDir in five && VendorRoot(paths) in five
    ensures paths.ConfigFile() != paths.StateFile()
  {
    var five := FiveDirectories(paths);
    assert five[0] == paths.configDir && five[1] == paths.dataDir && five[2] == paths.stateDir;
    assert five[3] == VendorRoot(paths);
    var c, s := paths.ConfigFile(), paths.StateFile();
    assert c[|c| - 1] != s[|s| - 1];
  }

  lemma AnchorAbove(anchors: seq<Path>, p: Path) returns (i: nat)
    requires Covered(anchors, p)
    ensures i < |anchors| && StartsWith(p, anchors[i])
  {
    var a :| a in anchors && StartsWith(p, a);
    i :| i < |anchors| && anchors[i] == a;
  }

  /** The vendor root, split at the anchor that owns it. */
  lemma VendorAnchor(plan: Plan) returns (i: nat, root: Path)
    ensures (i, root) == VendorPlace(plan.target) && i < |plan.Anchors()| && root != []
    ensures plan.Anchors()[i] + root == VendorRoot(plan.target)
  {
    hide AnchorsOf;
    AnchorsApartAndCovering(plan.target);
    i := AnchorAbove(plan.Anchors(), plan.target.dataDir);
    var anchor := plan.Anchors()[i];
    var above := plan.target.dataDir[|anchor|..];
    root := above + ["vendor-state"];
    assert anchor + above == plan.target.dataDir;
    assert anchor + root == VendorRoot(plan.target);
    Relative(plan.Anchors(), i, root);
  }

  lemma Relative(anchors: seq<Path>, i: nat, rel: Path)
    requires PairwiseApart(anchors) && i < |anchors|
    ensures Owner(anchors, anchors[i] + rel) == i && (anchors[i] + rel)[|anchors[i]|..] == rel
  {
    assert (anchors[i] + rel)[..|anchors[i]|] == anchors[i];
    OwnerUnique(anchors, anchors[i] + rel, i);
  }

  lemma PutStays(anchors: seq<Path>, writes: seq<Write>, k: nat, n: nat)
    requires k < n <= |writes| && writes[k].Put? && Owner(anchors, writes[k].path) < |anchors|
    ensures var i := Owner(anchors, writes[k].path);
      writes[k].path[|anchors[i]|..] in Performed(anchors, writes[..n], i)
  {
    hide Performed;
    var i := Owner(anchors, writes[k].path);
    assert writes[..k + 1] == writes[..k] + [writes[k]];
    PerformedSnoc(anchors, writes[..k], writes[k], i);
    assert writes[..n] == writes[..k + 1] + writes[k + 1..n];
    PerformedGrows(anchors, writes[..k + 1], writes[k + 1..n], i, writes[k].path[|anchors[i]|..]);
  }

  /** The second entry put at one path finds its name taken. */
  lemma SecondPutRefused(anchors: seq<Path>, writes: seq<Write>, k: nat, n: nat)
    requires k < n < |writes| && writes[k].Put? && writes[n].Put? && writes[k].path == writes[n].path
    requires Owner(anchors, writes[k].path) < |anchors|
    ensures Refuses(anchors, writes, n)
  {
    hide Performed;
    PutStays(anchors, writes, k, n);
  }

  // ---- The condition ----

  predicate OnTheWay(dirs: seq<Path>, p: Path) {
    exists d | d in dirs :: StartsWith(d, p)
  }

  /** No two entries are put at one path. */
  ghost predicate PutsApart(puts: seq<Write>) {
    forall k, n | 0 <= k < n < |puts| :: puts[k].path != puts[n].path
  }

  /** The directory the `n`-th entry goes into is on the way to a layout directory or put as a directory before it. */
  ghost predicate Housed(dirs: seq<Path>, puts: seq<Write>, n: nat)
    requires n < |puts|
  {
    var parent := Parent(puts[n].path);
    OnTheWay(dirs, parent) || exists k: nat :: k < n && puts[k] == Put(parent, MadeDirectory)
  }

  ghost predicate AllHoused(dirs: seq<Path>, puts: seq<Write>) {
    forall n: nat | n < |puts| :: Housed(dirs, puts, n)
  }

  /** Whatever is staged comes from a layout directory or from the last entry put at its path. */
  lemma {:induction false} PerformedSource(anchors: seq<Path>, dirs: seq<Path>, puts: seq<Write>, i: nat, rel: Path)
    requires PairwiseApart(anchors) && i < |anchors| && forall w | w in puts :: w.Put?
    requires rel in Performed(anchors, Ensures(dirs) + puts, i)
    ensures OnTheWay(dirs, anchors[i] + rel)
            || exists k: nat :: k < |puts| && puts[k] == Put(anchors[i] + rel, Performed(anchors, Ensures(dirs) + puts, i)[rel])
  {
    hide Performed, PairwiseApart, Ensures;
    if puts == [] {
      assert Ensures(dirs) + puts == Ensures(dirs);
      PerformedDirectories(anchors, dirs, i, rel);
    } else {
      var n := |puts| - 1;
      var before := Ensures(dirs) + puts[..n];
      assert Ensures(dirs) + puts == before + [puts[n]];
      PerformedSnoc(anchors, before, puts[n], i);
      var last := puts[n];
      assert last in puts;
      if Owner(anchors, last.path) == i && last.path[|anchors[i]|..] == rel {
        assert last == Put(anchors[i] + rel, last.entry);
      } else {
        PerformedSource(anchors, dirs, puts[..n], i, rel);
        if !OnTheWay(dirs, anchors[i] + rel) {
          var k: nat :| k < n && puts[..n][k] == Put(anchors[i] + rel, Performed(anchors, before, i)[rel]);
          assert puts[k] == puts[..n][k];
        }
      }
    }
  }

  /** An entry put once keeps its value. */
  lemma PutKept(anchors: seq<Path>, dirs: seq<Path>, puts: seq<Write>, k: nat, i: nat, rel: Path)
    requires PairwiseApart(anchors) && i < |anchors| && k < |puts| && PutsApart(puts) && forall w | w in puts :: w.Put?
    requires puts[k].path == anchors[i] + rel
    ensures var p := Performed(anchors, Ensures(dirs) + puts, i); rel in p && p[rel] == puts[k].entry
  {
    hide Performed, PairwiseApart, Ensures, PutsApart, StartsWith;
    var first, rest := Ensures(dirs) + puts[..k + 1], puts[k + 1..];
    assert puts == puts[..k + 1] + rest && puts[..k + 1] == puts[..k] + [puts[k]];
    JoinPuts(Ensures(dirs), puts[..k + 1], rest);
    JoinPuts(Ensures(dirs), puts[..k], [puts[k]]);
    assert puts[k] in puts;
    PerformedSnoc(anchors, Ensures(dirs) + puts[..k], puts[k], i);
    Relative(anchors, i, rel);
    LaterPutsElsewhere(puts, k);
    PutsActAlike(anchors, first, rest, i, rel);
  }

  lemma JoinPuts(a: seq<Write>, b: seq<Write>, c: seq<Write>)
    ensures a + (b + c) == a + b + c
  {
  }

  lemma LaterPutsElsewhere(puts: seq<Write>, k: nat)
    requires k < |puts| && PutsApart(puts) && forall w | w in puts :: w.Put?
    ensures forall w | w in puts[k + 1..] :: w.Put? && w.path != puts[k].path
  {
    forall w | w in puts[k + 1..]
      ensures w.Put? && w.path != puts[k].path
    {
      var l :| 0 <= l < |puts[k + 1..]| && puts[k + 1..][l] == w;
      assert puts[k + 1..][l] == puts[k + 1 + l];
    }
  }

  /** A directory on the way to a layout directory stays one when nothing is put there. */
  lemma DirectoryKept(anchors: seq<Path>, dirs: seq<Path>, puts: seq<Write>, i: nat, rel: Path)
    requires PairwiseApart(anchors) && i < |anchors| && ConflictFree(dirs, puts) && forall w | w in puts :: w.Put?
    requires rel != [] && OnTheWay(dirs, anchors[i] + rel)
    ensures var p := Performed(anchors, Ensures(dirs) + puts, i); rel in p && p[rel] == MadeDirectory
  {
    hide Performed, PairwiseApart, Ensures;
    PerformedDirectories(anchors, dirs, i, rel);
    PutsActAlike(anchors, Ensures(dirs), puts, i, rel);
  }

  lemma FewerPuts(dirs: seq<Path>, puts: seq<Write>, n: nat)
    requires n <= |puts| && ConflictFree(dirs, puts) && PutsApart(puts) && forall w | w in puts :: w.Put?
    ensures ConflictFree(dirs, puts[..n]) && PutsApart(puts[..n]) && forall w | w in puts[..n] :: w.Put?
  {
    forall w | w in puts[..n]
      ensures w in puts
    {
    }
  }

  lemma NameFree(anchors: seq<Path>, dirs: seq<Path>, puts: seq<Write>, n: nat, i: nat, rel: Path)
    requires PairwiseApart(anchors) && i < |anchors| && n < |puts| && puts[n].path == anchors[i] + rel
    requires forall w | w in puts :: w.Put?
    requires PutsApart(puts) && !OnTheWay(dirs, puts[n].path)
    ensures rel !in Performed(anchors, Ensures(dirs) + puts[..n], i)
  {
    hide Performed, PairwiseApart, Ensures, OnTheWay;
    forall k: nat | k < n
      ensures puts[..n][k].path != puts[n].path
    {
      assert puts[..n][k] == puts[k];
    }
    if rel in Performed(anchors, Ensures(dirs) + puts[..n], i) {
      PerformedSource(anchors, dirs, puts[..n], i, rel);
    }
  }

  lemma PutAccepted(anchors: seq<Path>, dirs: seq<Path>, puts: seq<Write>, n: nat, i: nat, rel: Path)
    requires PairwiseApart(anchors) && i < |anchors| && anchors[i] in dirs && n < |puts| && puts[n].path == anchors[i] + rel
    requires forall w | w in puts :: w.Put?
    requires ConflictFree(dirs, puts) && PutsApart(puts) && Housed(dirs, puts, n)
    ensures !Blocked(Performed(anchors, Ensures(dirs) + puts[..n], i), rel)
  {
    hide Performed, PairwiseApart, Ensures, OnTheWay, ConflictFree;
    FewerPuts(dirs, puts, n);
    var before := Performed(anchors, Ensures(dirs) + puts[..n], i);
    assert puts[n] in puts;
    NotOnTheWay(dirs, puts, puts[n]);
    assert rel != [] by {
      if rel == [] {
        assert puts[n].path == anchors[i];
        OwnWay(dirs, anchors[i]);
      }
    }
    NameFree(anchors, dirs, puts, n, i, rel);
    var parent := rel[..|rel| - 1];
    assert Parent(puts[n].path) == anchors[i] + parent;
    if parent != [] {
      if OnTheWay(dirs, anchors[i] + parent) {
        DirectoryKept(anchors, dirs, puts[..n], i, parent);
      } else {
        var k: nat :| k < n && puts[k] == Put(anchors[i] + parent, MadeDirectory);
        assert puts[..n][k] == puts[k];
        PutKept(anchors, dirs, puts[..n], k, i, parent);
      }
    }
  }

  lemma OwnWay(dirs: seq<Path>, p: Path)
    requires p in dirs
    ensures OnTheWay(dirs, p)
  {
    assert StartsWith(p, p);
  }

  lemma NotOnTheWay(dirs: seq<Path>, puts: seq<Write>, w: Write)
    requires ConflictFree(dirs, puts) && w in puts
    ensures !OnTheWay(dirs, w.path)
  {
  }

  /** Conversely, an accepted entry had its directory. */
  lemma AcceptedIsHoused(anchors: seq<Path>, dirs: seq<Path>, puts: seq<Write>, n: nat, i: nat, rel: Path)
    requires PairwiseApart(anchors) && i < |anchors| && anchors[i] in dirs && n < |puts| && puts[n].path == anchors[i] + rel
    requires forall w | w in puts :: w.Put?
    requires !Blocked(Performed(anchors, Ensures(dirs) + puts[..n], i), rel)
    ensures Housed(dirs, puts, n)
  {
    hide Performed, PairwiseApart, Ensures, OnTheWay;
    var parent := rel[..|rel| - 1];
    assert Parent(puts[n].path) == anchors[i] + parent;
    if parent == [] {
      assert anchors[i] + parent == anchors[i];
      OwnWay(dirs, anchors[i]);
    } else {
      PerformedSource(anchors, dirs, puts[..n], i, parent);
      if !OnTheWay(dirs, anchors[i] + parent) {
        var k: nat :| k < n && puts[..n][k] == Put(anchors[i] + parent, MadeDirectory);
        assert puts[k] == puts[..n][k];
      }
    }
  }

  // ---- Markers ----

  lemma ThroughMarker(a: Path, rel: Path)
    requires MarkerInTheWay(rel)
    ensures StartsWith(a + rel, a + [OWNER_MARKER])
  {
    assert (a + rel)[..|a| + 1] == a + [OWNER_MARKER];
  }

  lemma FileAvoidsMarkers(anchors: seq<Path>, dirs: seq<Path>, dir: Path, name: string, i: nat, rel: Path)
    requires MarkersClear(anchors, dirs) && dir in dirs && name != OWNER_MARKER
    requires i < |anchors| && anchors[i] + rel == dir + [name]
    ensures !MarkerInTheWay(rel)
  {
    var a := anchors[i];
    assert a in anchors;
    if MarkerInTheWay(rel) {
      ThroughMarker(a, rel);
      ChildPrefix(dir, name, a + [OWNER_MARKER]);
      ChildrenDiffer(dir, name, a, OWNER_MARKER);
    }
  }

  lemma VendorAvoidsMarkers(anchors: seq<Path>, dirs: seq<Path>, i: nat, root: Path, q: Path)
    requires MarkersClear(anchors, dirs) && i < |anchors| && root != [] && anchors[i] + root in dirs
    ensures !MarkerInTheWay(root + q)
  {
    assert anchors[i] in anchors;
    if MarkerInTheWay(root) {
      ThroughMarker(anchors[i], root);
    }
  }

  // ---- The rule ----

  lemma SeparatelyPut(anchors: seq<Path>, writes: seq<Write>, m: nat, puts: seq<Write>)
    requires m <= |writes| && writes[m..] == puts && forall w | w in puts :: w.Put? && Covered(anchors, w.path)
    requires forall n | 0 <= n < |writes| :: !Refuses(anchors, writes, n)
    ensures PutsApart(puts)
  {
    hide Refuses, Covered;
    forall k, n | 0 <= k < n < |puts|
      ensures puts[k].path != puts[n].path
    {
      assert writes[m + k] == puts[k] && writes[m + n] == puts[n];
      assert puts[k] in puts && puts[n] in puts;
      if puts[k].path == puts[n].path {
        SecondPutRefused(anchors, writes, m + k, m + n);
      }
    }
  }

  /** Staging fails only at a marker, a name taken, or a directory missing: a plan can be staged exactly when no layout
      directory goes through a marker, no entry lies on the way to one, no two entries share a path, and every entry has its
      directory. */
  lemma StageableIff(plan: Plan)
    ensures Stageable(plan) <==>
            MarkersClear(plan.Anchors(), LayoutDirectories(plan.target))
            && ConflictFree(LayoutDirectories(plan.target), Puts(plan))
            && PutsApart(Puts(plan)) && AllHoused(LayoutDirectories(plan.target), Puts(plan))
  {
    hide AnchorsOf, LayoutDirectories, Puts, MarkersClear, ConflictFree, PutsApart, AllHoused, Stageable;
    if Stageable(plan) {
      StageableClearsMarkers(plan);
      StageableHasNoConflicts(plan);
      StageableIsHoused(plan);
    }
    if MarkersClear(plan.Anchors(), LayoutDirectories(plan.target)) && ConflictFree(LayoutDirectories(plan.target), Puts(plan))
       && PutsApart(Puts(plan)) && AllHoused(LayoutDirectories(plan.target), Puts(plan)) {
      HousedIsStageable(plan);
    }
  }

  lemma AnchorsAreListed(paths: AppPaths)
    ensures forall a | a in AnchorsOf(paths) :: a in LayoutDirectories(paths)
  {
    hide AnchorsOf, LayoutDirectories;
    AnchorsApartAndCovering(paths);
    LayoutDirectoryMembers(paths);
    FiveListed(paths);
  }

  lemma StageableIsHoused(plan: Plan)
    requires Stageable(plan)
    ensures PutsApart(Puts(plan)) && AllHoused(LayoutDirectories(plan.target), Puts(plan))
  {
    hide AnchorsOf, LayoutDirectories, Puts, Performed, Blocked, Covered, PairwiseApart, MarkerInTheWay;
    var anchors, dirs, puts, writes := plan.Anchors(), LayoutDirectories(plan.target), Puts(plan), Writes(plan);
    AnchorsApartAndCovering(plan.target);
    AnchorsAreListed(plan.target);
    AllPuts(plan);
    WritesCovered(plan);
    assert writes[|dirs|..] == puts;
    SeparatelyPut(anchors, writes, |dirs|, puts);
    forall n: nat | n < |puts|
      ensures Housed(dirs, puts, n)
    {
      assert writes[|dirs| + n] == puts[n] && writes[..|dirs| + n] == Ensures(dirs) + puts[..n];
      assert puts[n] in writes && puts[n] in puts && !Refuses(anchors, writes, |dirs| + n);
      var i := Owner(anchors, puts[n].path);
      assert anchors[i] in anchors;
      AcceptedIsHoused(anchors, dirs, puts, n, i, puts[n].path[|anchors[i]|..]);
    }
  }

  /** No entry of the plan goes through a marker when no layout directory does. */
  lemma PutsAvoidMarkers(plan: Plan, n: nat, i: nat)
    requires MarkersClear(plan.Anchors(), LayoutDirectories(plan.target))
    requires n < |Puts(plan)| && i == Owner(plan.Anchors(), Puts(plan)[n].path) < |plan.Anchors()|
    ensures !MarkerInTheWay(Puts(plan)[n].path[|plan.Anchors()[i]|..])
  {
    hide AnchorsOf, LayoutDirectories, MarkersClear, PairwiseApart, MarkerInTheWay;
    var t, anchors, dirs := plan.target, plan.Anchors(), LayoutDirectories(plan.target);
    var path := Puts(plan)[n].path;
    var rel := path[|anchors[i]|..];
    assert anchors[i] + rel == path;
    LayoutDirectoryMembers(t);
    FiveListed(t);
    if n == 0 {
      FileAvoidsMarkers(anchors, dirs, t.configDir, "config.toml", i, rel);
    } else if n == 1 {
      FileAvoidsMarkers(anchors, dirs, t.stateDir, "state.toml", i, rel);
    } else {
      AnchorsApartAndCovering(t);
      var place, root := VendorAnchor(plan);
      var q := plan.vendor[n - 2].0;
      assert path == anchors[place] + (root + q);
      Relative(anchors, place, root + q);
      VendorAvoidsMarkers(anchors, dirs, place, root, q);
    }
  }

  lemma HousedIsStageable(plan: Plan)
    requires MarkersClear(plan.Anchors(), LayoutDirectories(plan.target))
    requires ConflictFree(LayoutDirectories(plan.target), Puts(plan))
    requires PutsApart(Puts(plan)) && AllHoused(LayoutDirectories(plan.target), Puts(plan))
    ensures Stageable(plan)
  {
    hide AnchorsOf, LayoutDirectories, Puts, Performed, Blocked, MarkersClear, ConflictFree, PutsApart, Housed, MarkerInTheWay;
    var anchors, dirs, puts, writes := plan.Anchors(), LayoutDirectories(plan.target), Puts(plan), Writes(plan);
    AnchorsApartAndCovering(plan.target);
    AnchorsAreListed(plan.target);
    AllPuts(plan);
    forall n: nat | n < |writes|
      ensures !Refuses(anchors, writes, n)
    {
      var i := Owner(anchors, writes[n].path);
      if i < |anchors| {
        if n < |dirs| {
          DirectoryAvoidsMarkers(anchors, dirs, i, dirs[n]);
        } else {
          var k := n - |dirs|;
          assert writes[n] == puts[k] && writes[..n] == Ensures(dirs) + puts[..k];
          PutsAvoidMarkers(plan, k, i);
          assert anchors[i] in anchors && anchors[i] + puts[k].path[|anchors[i]|..] == puts[k].path;
          PutAccepted(anchors, dirs, puts, k, i, puts[k].path[|anchors[i]|..]);
        }
      }
    }
  }

  lemma DirectoryAvoidsMarkers(anchors: seq<Path>, dirs: seq<Path>, i: nat, d: Path)
    requires MarkersClear(anchors, dirs) && d in dirs && i < |anchors| && StartsWith(d, anchors[i])
    ensures !MarkerInTheWay(d[|anchors[i]|..])
  {
    assert anchors[i] in anchors && anchors[i] + d[|anchors[i]|..] == d;
    if MarkerInTheWay(d[|anchors[i]|..]) {
      ThroughMarker(anchors[i], d[|anchors[i]|..]);
    }
  }

  // ---- What is staged ----

  /** The path is a directory of the layout or on the way to one, or something is put there. */
  ghost predicate Intended(plan: Plan, p: Path, e: Entry) {
    || (OnTheWay(LayoutDirectories(plan.target), p) && e == MadeDirectory)
    || exists k: nat :: k < |Puts(plan)| && Puts(plan)[k] == Put(p, e)
  }

  /** Below an anchor a plan that can be staged stages exactly what it intends. */
  lemma ContentIff(plan: Plan, i: nat, rel: Path, e: Entry)
    requires Stageable(plan) && i < |plan.Anchors()| && rel != []
    ensures rel in Content(plan, i) && Content(plan, i)[rel] == e <==> Intended(plan, plan.Anchors()[i] + rel, e)
  {
    hide AnchorsOf, LayoutDirectories, Puts, Performed, PairwiseApart, Ensures, OnTheWay, ConflictFree, PutsApart, AllHoused,
      MarkersClear, Stageable;
    var anchors, dirs, puts := plan.Anchors(), LayoutDirectories(plan.target), Puts(plan);
    var p := anchors[i] + rel;
    AnchorsApartAndCovering(plan.target);
    StageableIff(plan);
    AllPuts(plan);
    if OnTheWay(dirs, p) {
      DirectoryKept(anchors, dirs, puts, i, rel);
      forall k: nat | k < |puts| && puts[k] == Put(p, e)
        ensures false
      {
        NotOnTheWay(dirs, puts, puts[k]);
      }
    } else if rel in Content(plan, i) {
      PerformedSource(anchors, dirs, puts, i, rel);
      var k: nat :| k < |puts| && puts[k] == Put(p, Content(plan, i)[rel]);
      if Intended(plan, p, e) {
        var n: nat :| n < |puts| && puts[n] == Put(p, e);
        PutKept(anchors, dirs, puts, n, i, rel);
      }
    } else if Intended(plan, p, e) {
      var n: nat :| n < |puts| && puts[n] == Put(p, e);
      PutKept(anchors, dirs, puts, n, i, rel);
    }
  }
}
