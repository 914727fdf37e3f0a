/** What a migration stages under each anchor, and when the committed layout passes verification. */
module StagedLayout {
  import opened Sorting
  import opened Layout

  const OWNER_MARKER := ".ctxlane-migration-owner"

  datatype Entry = MadeDirectory | MadeFile(bytes: seq<int>, executable: bool)

  /** `vendor` lists vendor-state entries by path relative to the vendor root, parents first. */
  datatype Plan = Plan(legacy: AppPaths, target: AppPaths, config: Entry, state: Entry, vendor: seq<(Path, Entry)>) {
    function Anchors(): seq<Path> { AnchorsOf(target) }
  }

  /** Creating a directory also creates its missing ancestors; a new file or vendor entry creates only itself. */
  datatype Write = EnsureDirectory(path: Path) | Put(path: Path, entry: Entry)

  function LayoutDirectories(paths: AppPaths): seq<Path> {
    Dedup(Sort(DepthLe, FiveDirectories(paths)))
  }

  function FiveDirectories(paths: AppPaths): seq<Path> {
    [paths.configDir, paths.dataDir, paths.stateDir, VendorRoot(paths), paths.stateDir + ["profile-locks"]]
  }

  lemma LayoutDirectoryMembers(paths: AppPaths)
    ensures forall d :: d in LayoutDirectories(paths) <==> d in FiveDirectories(paths)
  {
    SameMembers(DepthLe, FiveDirectories(paths));
  }

  function Ensures(dirs: seq<Path>): seq<Write> {
    seq(|dirs|, i requires 0 <= i < |dirs| => EnsureDirectory(dirs[i]))
  }

  function VendorRoot(paths: AppPaths): Path {
    paths.dataDir + ["vendor-state"]
  }

  function VendorPuts(root: Path, vendor: seq<(Path, Entry)>): seq<Write> {
    seq(|vendor|, l requires 0 <= l < |vendor| => Put(root + vendor[l].0, vendor[l].1))
  }

  function Puts(plan: Plan): seq<Write> {
    [Put(plan.target.ConfigFile(), plan.config), Put(plan.target.StateFile(), plan.state)]
    + VendorPuts(VendorRoot(plan.target), plan.vendor)
  }

  function Writes(plan: Plan): seq<Write> {
    Ensures(LayoutDirectories(plan.target)) + Puts(plan)
  }

  /** The non-empty prefixes of a relative path. */
  function Chain(rel: Path): set<Path> {
    set n | 1 <= n <= |rel| :: rel[..n]
  }

  function Perform(entries: map<Path, Entry>, rel: Path, w: Write): map<Path, Entry> {
    match w
    case EnsureDirectory(_) => (map p | p in Chain(rel) :: MadeDirectory) + entries
    case Put(_, entry) => entries[rel := entry]
  }

  /** What is staged for anchor `i` once `writes` have been mapped to their stages and performed. */
  function Performed(anchors: seq<Path>, writes: seq<Write>, i: nat): map<Path, Entry>
    requires i < |anchors|
  {
    if writes == [] then map[]
    else
      var n := |writes| - 1;
      var before, w := Performed(anchors, writes[..n], i), writes[n];
      if Owner(anchors, w.path) == i then Perform(before, w.path[|anchors[i]|..], w) else before
  }

  function Record(entries: map<Path, Entry>, rel: Path, w: Write): map<Path, Entry> {
    match w
    case EnsureDirectory(_) => if rel == [] then entries else entries[rel := MadeDirectory]
    case Put(_, entry) => entries[rel := entry]
  }

  /** The layout the committed target is compared with: exactly the planned paths. */
  function Expected(anchors: seq<Path>, writes: seq<Write>, i: nat): map<Path, Entry>
    requires i < |anchors|
  {
    if writes == [] then map[]
    else
      var n := |writes| - 1;
      var before, w := Expected(anchors, writes[..n], i), writes[n];
      if Owner(anchors, w.path) == i then Record(before, w.path[|anchors[i]|..], w) else before
  }

  function Content(plan: Plan, i: nat): map<Path, Entry>
    requires i < |plan.Anchors()|
  {
    Performed(plan.Anchors(), Writes(plan), i)
  }

  predicate Alike(anchors: seq<Path>, writes: seq<Write>, i: nat)
    requires i < |anchors|
  {
    Performed(anchors, writes, i) == Expected(anchors, writes, i)
  }

  predicate AllAlike(anchors: seq<Path>, writes: seq<Write>) {
    forall i | 0 <= i < |anchors| :: Alike(anchors, writes, i)
  }

  /** The exact comparison: the staged entries are the planned paths and nothing else. */
  predicate LayoutExact(plan: Plan) {
    AllAlike(plan.Anchors(), Writes(plan))
  }

  /** The planned vendor entries by relative path. */
  function Planned(vendor: seq<(Path, Entry)>): map<Path, Entry> {
    if vendor == [] then map[]
    else
      var n := |vendor| - 1;
      Planned(vendor[..n])[vendor[n].0 := vendor[n].1]
  }

  /** The vendor comparison: strictly below the directory `root` lie exactly the planned vendor entries. */
  predicate VendorMatches(entries: map<Path, Entry>, root: Path, planned: map<Path, Entry>) {
    && root in entries && entries[root] == MadeDirectory
    && (forall p | p in entries && StartsWith(p, root) && p != root ::
          p[|root|..] in planned && planned[p[|root|..]] == entries[p])
    && (forall q | q in planned :: q != [] && root + q in entries && entries[root + q] == planned[q])
  }

  /** The index of the anchor holding the vendor root, and the root's path below it. */
  function VendorPlace(paths: AppPaths): (place: (nat, Path))
    ensures place.0 < |AnchorsOf(paths)| ==> StartsWith(VendorRoot(paths), AnchorsOf(paths)[place.0])
                                             && place.1 == VendorRoot(paths)[|AnchorsOf(paths)[place.0]|..]
  {
    var i := Owner(AnchorsOf(paths), VendorRoot(paths));
    (i, if i < |AnchorsOf(paths)| then VendorRoot(paths)[|AnchorsOf(paths)[i]|..] else [])
  }

  predicate VendorExact(plan: Plan) {
    var (i, root) := VendorPlace(plan.target);
    i < |plan.Anchors()| && VendorMatches(Content(plan, i), root, Planned(plan.vendor))
  }

  /** What is staged passes verification once committed: the vendor comparison and the exact one. */
  predicate LayoutVerifies(plan: Plan) {
    VendorExact(plan) && LayoutExact(plan)
  }

  /** A new file or vendor entry needs an existing parent directory and a free name. */
  predicate Blocked(entries: map<Path, Entry>, rel: Path) {
    || rel == [] || rel in entries
    || (|rel| > 1 && (rel[..|rel| - 1] !in entries || entries[rel[..|rel| - 1]] != MadeDirectory))
  }

  /** The owner marker at a stage's root, a file, stands where the path goes. */
  predicate MarkerInTheWay(rel: Path) {
    rel != [] && rel[0] == OWNER_MARKER
  }

  predicate Refuses(anchors: seq<Path>, writes: seq<Write>, n: nat)
    requires n < |writes|
  {
    var i := Owner(anchors, writes[n].path);
    i < |anchors| && var rel := writes[n].path[|anchors[i]|..];
    MarkerInTheWay(rel) || (writes[n].Put? && Blocked(Performed(anchors, writes[..n], i), rel))
  }

  /** Every directory, file and vendor entry of the plan can be created in turn. */
  predicate Stageable(plan: Plan) {
    forall n | 0 <= n < |Writes(plan)| :: !Refuses(plan.Anchors(), Writes(plan), n)
  }

  /** Every write lands below some anchor, so mapping a target to its stage never fails. */
  lemma WritesCovered(plan: Plan)
    ensures forall w | w in Writes(plan) :: Covered(plan.Anchors(), w.path)
  {
    AnchorsApartAndCovering(plan.target);
    LayoutDirectoryMembers(plan.target);
    CoveredWrites(plan, plan.Anchors(), LayoutDirectories(plan.target));
  }

  lemma CoveredWrites(plan: Plan, anchors: seq<Path>, dirs: seq<Path>)
    requires Covered(anchors, plan.target.configDir) && Covered(anchors, plan.target.dataDir)
    requires Covered(anchors, plan.target.stateDir)
    requires forall d :: d in dirs <==> d in FiveDirectories(plan.target)
    ensures forall w | w in Ensures(dirs) + Puts(plan) :: Covered(anchors, w.path)
  {
    var t := plan.target;
    forall w | w in Ensures(dirs) + Puts(plan)
      ensures Covered(anchors, w.path)
    {
      if w in Ensures(dirs) {
        assert w.path in dirs;
      }
      if StartsWith(w.path, t.configDir) { CoveredByDir(anchors, t.configDir, w.path); }
      else if StartsWith(w.path, t.dataDir) { CoveredByDir(anchors, t.dataDir, w.path); }
      else { CoveredByDir(anchors, t.stateDir, w.path); }
    }
  }

  lemma CoveredByDir(anchors: seq<Path>, dir: Path, path: Path)
    requires Covered(anchors, dir) && StartsWith(path, dir)
    ensures Covered(anchors, path)
  {
    var a :| a in anchors && StartsWith(dir, a);
    assert path[..|a|] == dir[..|a|];
  }

  // ---- When verification accepts the staged layout ----

  /** Every directory between an anchor and a layout directory is itself a layout directory. */
  ghost predicate NoGaps(anchors: seq<Path>, dirs: seq<Path>) {
    forall i, d, n | 0 <= i < |anchors| && d in dirs && StartsWith(d, anchors[i]) && |anchors[i]| < n <= |d| ::
      d[..n] in dirs
  }

  /** No planned file or vendor entry sits on the way to a layout directory. */
  ghost predicate ConflictFree(dirs: seq<Path>, puts: seq<Write>) {
    forall w, d | w in puts && d in dirs :: !StartsWith(d, w.path)
  }

  ghost predicate IsChainOf(anchors: seq<Path>, dirs: seq<Path>, i: nat, rel: Path, m: map<Path, Entry>)
    requires i < |anchors|
  {
    rel in m <==> rel != [] && exists d :: d in dirs && StartsWith(d, anchors[i] + rel)
  }

  lemma RelativeChain(anchor: Path, d: Path, rel: Path)
    requires StartsWith(d, anchor)
    ensures rel in Chain(d[|anchor|..]) <==> rel != [] && StartsWith(d, anchor + rel)
  {
    var tail := d[|anchor|..];
    if rel in Chain(tail) {
      assert d[..|anchor| + |rel|] == anchor + rel;
    }
    if rel != [] && StartsWith(d, anchor + rel) {
      assert tail[..|rel|] == rel;
    }
  }

  lemma PerformedSnoc(anchors: seq<Path>, ws: seq<Write>, w: Write, i: nat)
    requires i < |anchors|
    ensures var p := Performed(anchors, ws, i);
      Performed(anchors, ws + [w], i) == if Owner(anchors, w.path) == i then Perform(p, w.path[|anchors[i]|..], w) else p
    ensures var e := Expected(anchors, ws, i);
      Expected(anchors, ws + [w], i) == if Owner(anchors, w.path) == i then Record(e, w.path[|anchors[i]|..], w) else e
  {
    assert (ws + [w])[..|ws|] == ws;
  }

  lemma EnsuresSnoc(dirs: seq<Path>)
    requires dirs != []
    ensures Ensures(dirs) == Ensures(dirs[..|dirs| - 1]) + [EnsureDirectory(dirs[|dirs| - 1])]
  {
  }

  lemma {:induction false} PerformedDirectories(anchors: seq<Path>, dirs: seq<Path>, i: nat, rel: Path)
    requires PairwiseApart(anchors) && i < |anchors|
    ensures var m := Performed(anchors, Ensures(dirs), i);
      IsChainOf(anchors, dirs, i, rel, m) && (rel in m ==> m[rel] == MadeDirectory)
  {
    if dirs != [] {
      var n := |dirs| - 1;
      PerformedDirectories(anchors, dirs[..n], i, rel);
      EnsuresSnoc(dirs);
      PerformedSnoc(anchors, Ensures(dirs[..n]), EnsureDirectory(dirs[n]), i);
      OwnedChain(anchors, dirs[n], i, rel);
      ChainSplits(dirs, anchors[i] + rel);
    }
  }

  lemma ChainSplits(dirs: seq<Path>, p: Path)
    requires dirs != []
    ensures var n := |dirs| - 1;
      (exists d :: d in dirs && StartsWith(d, p)) <==> (exists d :: d in dirs[..n] && StartsWith(d, p)) || StartsWith(dirs[n], p)
  {
    var n := |dirs| - 1;
    assert forall d :: d in dirs <==> d in dirs[..n] || d == dirs[n] by { assert dirs == dirs[..n] + [dirs[n]]; }
  }

  lemma OwnedChain(anchors: seq<Path>, d: Path, i: nat, rel: Path)
    requires PairwiseApart(anchors) && i < |anchors|
    ensures Owner(anchors, d) == i ==> (rel in Chain(d[|anchors[i]|..]) <==> rel != [] && StartsWith(d, anchors[i] + rel))
    ensures Owner(anchors, d) != i ==> !StartsWith(d, anchors[i] + rel)
  {
    if StartsWith(d, anchors[i]) {
      OwnerUnique(anchors, d, i);
      RelativeChain(anchors[i], d, rel);
    }
  }

  lemma {:induction false} ExpectedDirectories(anchors: seq<Path>, dirs: seq<Path>, i: nat, rel: Path)
    requires PairwiseApart(anchors) && i < |anchors|
    ensures var m := Expected(anchors, Ensures(dirs), i);
      (rel in m <==> rel != [] && anchors[i] + rel in dirs) && (rel in m ==> m[rel] == MadeDirectory)
  {
    if dirs != [] {
      var n := |dirs| - 1;
      var last := dirs[n];
      ExpectedDirectories(anchors, dirs[..n], i, rel);
      EnsuresSnoc(dirs);
      PerformedSnoc(anchors, Ensures(dirs[..n]), EnsureDirectory(last), i);
      assert dirs == dirs[..n] + [last];
      if anchors[i] + rel == last {
        OwnerUnique(anchors, last, i);
      } else if Owner(anchors, last) == i {
        assert anchors[i] + last[|anchors[i]|..] == last;
      }
    }
  }

  ghost predicate AgreeAt<K(!new), V>(p: map<K, V>, e: map<K, V>, k: K) {
    (k in p <==> k in e) && (k in p ==> p[k] == e[k])
  }

  /** Putting entries keeps agreement at a path, and does not touch other paths. */
  lemma {:induction false} PutsActAlike(anchors: seq<Path>, ensured: seq<Write>, puts: seq<Write>, i: nat, rel: Path)
    requires i < |anchors| && forall w | w in puts :: w.Put?
    ensures var p, e := Performed(anchors, ensured + puts, i), Expected(anchors, ensured + puts, i);
      var p0, e0 := Performed(anchors, ensured, i), Expected(anchors, ensured, i);
      && (AgreeAt(p0, e0, rel) ==> AgreeAt(p, e, rel))
      && ((forall w | w in puts :: w.path != anchors[i] + rel) ==> AgreeAt(p, p0, rel) && AgreeAt(e, e0, rel))
  {
    if puts == [] {
      assert ensured + puts == ensured;
    } else {
      var n := |puts| - 1;
      PutsActAlike(anchors, ensured, puts[..n], i, rel);
      assert ensured + puts == (ensured + puts[..n]) + [puts[n]];
      PerformedSnoc(anchors, ensured + puts[..n], puts[n], i);
      var w := puts[n];
      assert w in puts;
      if Owner(anchors, w.path) == i {
        assert anchors[i] + w.path[|anchors[i]|..] == w.path;
      }
    }
  }

  lemma NoGapsAgree(anchors: seq<Path>, dirs: seq<Path>, i: nat, rel: Path)
    requires PairwiseApart(anchors) && i < |anchors| && NoGaps(anchors, dirs)
    ensures AgreeAt(Performed(anchors, Ensures(dirs), i), Expected(anchors, Ensures(dirs), i), rel)
  {
    PerformedDirectories(anchors, dirs, i, rel);
    ExpectedDirectories(anchors, dirs, i, rel);
    if rel != [] {
      if d :| d in dirs && StartsWith(d, anchors[i] + rel) {
        var n := |anchors[i]| + |rel|;
        assert d[..n] == anchors[i] + rel;
        assert d[..|anchors[i]|] == d[..n][..|anchors[i]|];
      } else if anchors[i] + rel in dirs {
        assert StartsWith(anchors[i] + rel, anchors[i] + rel);
      }
    }
  }

  lemma GapDisagrees(anchors: seq<Path>, dirs: seq<Path>, puts: seq<Write>, i: nat, d: Path, n: nat)
    requires PairwiseApart(anchors) && i < |anchors| && ConflictFree(dirs, puts) && forall w | w in puts :: w.Put?
    requires d in dirs && StartsWith(d, anchors[i]) && |anchors[i]| < n <= |d|
    requires Performed(anchors, Ensures(dirs) + puts, i) == Expected(anchors, Ensures(dirs) + puts, i)
    ensures d[..n] in dirs
  {
    var rel := d[|anchors[i]|..n];
    assert anchors[i] + rel == d[..n];
    PerformedDirectories(anchors, dirs, i, rel);
    ExpectedDirectories(anchors, dirs, i, rel);
    assert StartsWith(d, anchors[i] + rel);
    PutsActAlike(anchors, Ensures(dirs), puts, i, rel);
  }

  lemma AllPuts(plan: Plan)
    ensures forall w | w in Puts(plan) :: w.Put?
  {
  }

  lemma VerifiedHasNoGaps(anchors: seq<Path>, dirs: seq<Path>, puts: seq<Write>)
    requires PairwiseApart(anchors) && ConflictFree(dirs, puts) && forall w | w in puts :: w.Put?
    requires forall i | 0 <= i < |anchors| :: Alike(anchors, Ensures(dirs) + puts, i)
    ensures NoGaps(anchors, dirs)
  {
    forall i, d, n | 0 <= i < |anchors| && d in dirs && StartsWith(d, anchors[i]) && |anchors[i]| < n <= |d|
      ensures d[..n] in dirs
    {
      assert Alike(anchors, Ensures(dirs) + puts, i);
      GapDisagrees(anchors, dirs, puts, i, d, n);
    }
  }

  lemma AgreementIffNoGaps(anchors: seq<Path>, dirs: seq<Path>, puts: seq<Write>)
    requires PairwiseApart(anchors) && ConflictFree(dirs, puts) && forall w | w in puts :: w.Put?
    ensures AllAlike(anchors, Ensures(dirs) + puts) == NoGaps(anchors, dirs)
  {
    if NoGaps(anchors, dirs) {
      forall i | 0 <= i < |anchors|
        ensures Alike(anchors, Ensures(dirs) + puts, i)
      {
        AgreementWithoutGaps(anchors, dirs, puts, i);
      }
    } else if forall i | 0 <= i < |anchors| :: Alike(anchors, Ensures(dirs) + puts, i) {
      VerifiedHasNoGaps(anchors, dirs, puts);
    }
  }

  /** A planned layout passes the exact comparison exactly when no directory between an anchor and a layout directory is left out. */
  lemma ExactWithoutConflicts(plan: Plan)
    requires ConflictFree(LayoutDirectories(plan.target), Puts(plan))
    ensures LayoutExact(plan) == NoGaps(plan.Anchors(), LayoutDirectories(plan.target))
  {
    AnchorsApartAndCovering(plan.target);
    AllPuts(plan);
    AgreementIffNoGaps(plan.Anchors(), LayoutDirectories(plan.target), Puts(plan));
  }

  // ---- Staging rules out conflicts ----

  lemma {:induction false} PerformedGrows(anchors: seq<Path>, ws: seq<Write>, more: seq<Write>, i: nat, rel: Path)
    requires i < |anchors| && rel in Performed(anchors, ws, i)
    ensures rel in Performed(anchors, ws + more, i)
  {
    if more == [] {
      assert ws + more == ws;
    } else {
      var n := |more| - 1;
      PerformedGrows(anchors, ws, more[..n], i, rel);
      assert ws + more == (ws + more[..n]) + [more[n]];
      PerformedSnoc(anchors, ws + more[..n], more[n], i);
    }
  }

  /** A file or vendor entry on the way to a layout directory finds its name taken. */
  lemma ConflictRefused(anchors: seq<Path>, dirs: seq<Path>, puts: seq<Write>, k: nat, d: Path)
    requires PairwiseApart(anchors) && k < |puts| && puts[k].Put? && Covered(anchors, puts[k].path)
    requires d in dirs && StartsWith(d, puts[k].path)
    ensures Refuses(anchors, Ensures(dirs) + puts, |dirs| + k)
  {
    hide Performed, Covered;
    var writes, n := Ensures(dirs) + puts, |dirs| + k;
    var i := Owner(anchors, puts[k].path);
    var rel := puts[k].path[|anchors[i]|..];
    assert writes[n] == puts[k] && writes[..n] == Ensures(dirs) + puts[..k];
    if rel != [] {
      assert anchors[i] + rel == puts[k].path;
      PerformedDirectories(anchors, dirs, i, rel);
      PerformedGrows(anchors, Ensures(dirs), puts[..k], i, rel);
    }
  }

  /** A plan that can be staged has nothing on the way to a layout directory. */
  lemma StageableHasNoConflicts(plan: Plan)
    requires Stageable(plan)
    ensures ConflictFree(LayoutDirectories(plan.target), Puts(plan))
  {
    hide Refuses, AnchorsOf, LayoutDirectories, Puts, Covered;
    var dirs, puts := LayoutDirectories(plan.target), Puts(plan);
    AnchorsApartAndCovering(plan.target);
    AllPuts(plan);
    WritesCovered(plan);
    forall w, d | w in puts && d in dirs
      ensures !StartsWith(d, w.path)
    {
      var k :| 0 <= k < |puts| && puts[k] == w;
      assert Writes(plan)[|dirs| + k] == w;
      if StartsWith(d, w.path) {
        ConflictRefused(plan.Anchors(), dirs, puts, k, d);
      }
    }
  }

  /** Once staged, a plan passes the exact comparison if and only if no directory between an anchor and a layout directory
      is left out. */
  lemma StagedExactIffNoGaps(plan: Plan)
    requires Stageable(plan)
    ensures LayoutExact(plan) == NoGaps(plan.Anchors(), LayoutDirectories(plan.target))
  {
    hide Stageable, LayoutExact, NoGaps, ConflictFree, AnchorsOf, LayoutDirectories;
    StageableHasNoConflicts(plan);
    ExactWithoutConflicts(plan);
  }

  /** No layout directory is, or lies below, an anchor's owner marker. */
  ghost predicate MarkersClear(anchors: seq<Path>, dirs: seq<Path>) {
    forall a, d | a in anchors && d in dirs :: !StartsWith(d, a + [OWNER_MARKER])
  }

  lemma MarkerOnTheWay(anchors: seq<Path>, i: nat, d: Path)
    requires PairwiseApart(anchors) && i < |anchors| && StartsWith(d, anchors[i] + [OWNER_MARKER])
    ensures Owner(anchors, d) == i && MarkerInTheWay(d[|anchors[i]|..])
  {
    assert d[..|anchors[i]|] == (anchors[i] + [OWNER_MARKER])[..|anchors[i]|] == anchors[i];
    assert d[|anchors[i]|] == (anchors[i] + [OWNER_MARKER])[|anchors[i]|];
    OwnerUnique(anchors, d, i);
  }

  /** A plan that can be staged has no layout directory at or below a marker. */
  lemma StageableClearsMarkers(plan: Plan)
    requires Stageable(plan)
    ensures MarkersClear(plan.Anchors(), LayoutDirectories(plan.target))
  {
    hide AnchorsOf, LayoutDirectories, Puts, Performed, Blocked, StartsWith, MarkerInTheWay;
    AnchorsApartAndCovering(plan.target);
    var anchors, dirs := plan.Anchors(), LayoutDirectories(plan.target);
    forall a, d | a in anchors && d in dirs
      ensures !StartsWith(d, a + [OWNER_MARKER])
    {
      var i: nat :| i < |anchors| && anchors[i] == a;
      var n: nat :| n < |dirs| && dirs[n] == d;
      assert Writes(plan)[n] == EnsureDirectory(d) && !Refuses(anchors, Writes(plan), n);
      if StartsWith(d, a + [OWNER_MARKER]) {
        MarkerOnTheWay(anchors, i, d);
      }
    }
  }

  lemma AgreementWithoutGaps(anchors: seq<Path>, dirs: seq<Path>, puts: seq<Write>, i: nat)
    requires PairwiseApart(anchors) && i < |anchors| && NoGaps(anchors, dirs) && forall w | w in puts :: w.Put?
    ensures Alike(anchors, Ensures(dirs) + puts, i)
  {
    var p, e := Performed(anchors, Ensures(dirs) + puts, i), Expected(anchors, Ensures(dirs) + puts, i);
    forall rel
      ensures AgreeAt(p, e, rel)
    {
      NoGapsAgree(anchors, dirs, i, rel);
      PutsActAlike(anchors, Ensures(dirs), puts, i, rel);
    }
    AgreeEverywhere(p, e);
  }

  lemma AgreeEverywhere<K(!new), V>(p: map<K, V>, e: map<K, V>)
    requires forall k :: AgreeAt(p, e, k)
    ensures p == e
  {
    forall k
      ensures (k in p <==> k in e) && (k in p ==> p[k] == e[k])
    {
      assert AgreeAt(p, e, k);
    }
  }

  lemma ShallowNoGaps(anchors: seq<Path>, dirs: seq<Path>, depth: nat)
    requires forall d | d in dirs :: |d| <= depth + 1
    requires forall a | a in anchors :: |a| == depth
    ensures NoGaps(anchors, dirs)
  {
    forall i, d, n | 0 <= i < |anchors| && d in dirs && StartsWith(d, anchors[i]) && |anchors[i]| < n <= |d|
      ensures d[..n] in dirs
    {
      assert anchors[i] in anchors;
      assert d[..n] == d;
    }
  }

  /** The default layout, three directories side by side under one root, passes the exact comparison whatever is planned. */
  lemma SideBySideExact(plan: Plan, root: Path)
    requires plan.target == AppPaths(root + ["config"], root + ["data"], root + ["state"])
    ensures LayoutExact(plan)
  {
    AnchorsApartAndCovering(plan.target);
    LayoutDirectoryMembers(plan.target);
    SideBySideNoGaps(plan.target, root, plan.Anchors(), LayoutDirectories(plan.target));
    AllPuts(plan);
    AllAlikeWithoutGaps(plan.Anchors(), LayoutDirectories(plan.target), Puts(plan));
  }

  lemma AllAlikeWithoutGaps(anchors: seq<Path>, dirs: seq<Path>, puts: seq<Write>)
    requires PairwiseApart(anchors) && NoGaps(anchors, dirs) && forall w | w in puts :: w.Put?
    ensures AllAlike(anchors, Ensures(dirs) + puts)
  {
    forall i | 0 <= i < |anchors|
      ensures Alike(anchors, Ensures(dirs) + puts, i)
    {
      AgreementWithoutGaps(anchors, dirs, puts, i);
    }
  }

  lemma SideBySideNoGaps(t: AppPaths, root: Path, anchors: seq<Path>, dirs: seq<Path>)
    requires t == AppPaths(root + ["config"], root + ["data"], root + ["state"])
    requires forall a | a in anchors :: a == t.configDir || a == t.dataDir || a == t.stateDir
    requires forall d :: d in dirs <==> d in FiveDirectories(t)
    ensures NoGaps(anchors, dirs)
  {
    forall d | d in dirs
      ensures |d| <= |root| + 2
    {
      assert d in FiveDirectories(t);
    }
    ShallowNoGaps(anchors, dirs, |root| + 1);
  }
}
