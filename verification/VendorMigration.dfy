/** A migration whose vendor entries are the manifest of the older installation's vendor tree. */
module VendorMigration {
  import opened Wrappers
  import opened Layout
  import opened Naming
  import opened StagedLayout
  import opened Disk
  import opened Recovery
  import opened Commit
  import opened CrashRuns
  import opened StagingRules
  import opened VerifiedLayout
  import VT = VendorTree
  import opened VendorCopy

  /** What copying each manifest entry stores, in the manifest's order. */
  function VendorList(f: VT.Forest, entries: seq<VT.VendorEntry>): seq<(Path, Entry)>
    requires forall i | 0 <= i < |entries| :: SourceUnchanged(f, entries[i])
  {
    seq(|entries|, i requires 0 <= i < |entries| => (entries[i].relative, EntryOf(f, entries[i])))
  }

  /** The plan's vendor entries are the manifest of `f`, as inspected. */
  ghost predicate CarriesTree(plan: Plan, f: VT.Forest) {
    && VT.WellFormed(f) && VT.Inspect(f, []).Ok?
    && (ManifestUnchanged(f); plan.vendor == VendorList(f, VT.Inspect(f, []).value.entries))
  }

  // ---- Replaying one entry at a time ----

  lemma {:induction false} ReplaySnoc(f: VT.Forest, made: Made, entries: seq<VT.VendorEntry>, k: nat)
    requires k < |entries| && Replay(f, made, entries).Ok?
    ensures Replay(f, made, entries[..k]).Ok? && Replay(f, made, entries[..k + 1]).Ok?
    ensures SourceUnchanged(f, entries[k])
    ensures var before := Replay(f, made, entries[..k]).value;
      !Blocked(before, entries[k].relative)
      && Replay(f, made, entries[..k + 1]).value == before[entries[k].relative := EntryOf(f, entries[k])]
    decreases entries
  {
    var next := Place(f, made, entries[0]).value;
    assert entries[..k + 1][1..] == entries[1..][..k];
    if k == 0 {
      assert Replay(f, next, entries[..1][1..]) == Ok(next);
    } else {
      assert entries[..k][1..] == entries[1..][..k - 1];
      ReplaySnoc(f, next, entries[1..], k - 1);
    }
  }

  lemma {:induction false} ReplayableUnchanged(f: VT.Forest, made: Made, entries: seq<VT.VendorEntry>)
    requires Replay(f, made, entries).Ok?
    ensures forall i | 0 <= i < |entries| :: SourceUnchanged(f, entries[i])
  {
    forall i | 0 <= i < |entries|
      ensures SourceUnchanged(f, entries[i])
    {
      ReplaySnoc(f, made, entries, i);
    }
  }

  lemma ManifestUnchanged(f: VT.Forest)
    requires VT.WellFormed(f) && VT.Inspect(f, []).Ok?
    ensures forall i | 0 <= i < |VT.Inspect(f, []).value.entries| :: SourceUnchanged(f, VT.Inspect(f, []).value.entries[i])
  {
    ReplayMakesCopy(f, None);
    ReplayableUnchanged(f, map[], VT.Inspect(f, []).value.entries);
  }

  // ---- The carried tree can be staged unless it meets something else ----

  lemma {:induction false} PlannedIsReplay(f: VT.Forest, entries: seq<VT.VendorEntry>, vendor: seq<(Path, Entry)>, k: nat)
    requires Replay(f, map[], entries).Ok? && k <= |entries|
    requires forall l | 0 <= l < |entries| :: SourceUnchanged(f, entries[l])
    requires vendor == VendorList(f, entries)
    ensures Replay(f, map[], entries[..k]) == Ok(Planned(vendor[..k]))
    decreases k
  {
    hide Place, Blocked;
    if k > 0 {
      PlannedIsReplay(f, entries, vendor, k - 1);
      ReplaySnoc(f, map[], entries, k - 1);
      assert vendor[..k][..k - 1] == vendor[..k - 1];
    }
  }

  /** The planned entries of a carried tree are its lock-free copy. */
  lemma CarriedIsCopy(plan: Plan, f: VT.Forest, now: Option<int>)
    requires CarriesTree(plan, f)
    ensures Planned(plan.vendor) == Flatten(CopyOf(f, now), [])
  {
    hide Replay, Flatten, CopyOf, Planned;
    ManifestUnchanged(f);
    ReplayMakesCopy(f, now);
    var entries := VT.Inspect(f, []).value.entries;
    PlannedIsReplay(f, entries, plan.vendor, |entries|);
    assert entries[..|entries|] == entries && plan.vendor[..|entries|] == plan.vendor;
  }

  /** A carried entry is not the root, repeats no earlier one, and follows its directory. */
  lemma CarriedEntry(plan: Plan, f: VT.Forest, n: nat)
    requires CarriesTree(plan, f) && n < |plan.vendor|
    ensures plan.vendor[n].0 != []
    ensures forall l | 0 <= l < n :: plan.vendor[l].0 != plan.vendor[n].0
    ensures |plan.vendor[n].0| == 1 || exists l: nat :: l < n && plan.vendor[l] == (Parent(plan.vendor[n].0), MadeDirectory)
  {
    hide Replay, CopyOf, Planned;
    ManifestUnchanged(f);
    ReplayMakesCopy(f, None);
    var entries, vendor := VT.Inspect(f, []).value.entries, plan.vendor;
    PlannedIsReplay(f, entries, vendor, n);
    ReplaySnoc(f, map[], entries, n);
    forall l: nat | l < n
      ensures vendor[l].0 != vendor[n].0
    {
      PlannedHas(vendor[..n], l);
    }
    if |vendor[n].0| > 1 {
      var l := PlannedFrom(vendor[..n], Parent(vendor[n].0));
      assert vendor[..n][l] == vendor[l];
    }
  }

  /** No vendor entry lies on the way to a layout directory or where one of the two files goes. */
  ghost predicate MeetsNothing(plan: Plan) {
    forall w | w in VendorPuts(VendorRoot(plan.target), plan.vendor) ::
      !OnTheWay(LayoutDirectories(plan.target), w.path)
      && w.path != plan.target.ConfigFile() && w.path != plan.target.StateFile()
  }

  lemma PutAt(plan: Plan, l: nat)
    requires l < |plan.vendor|
    ensures |Puts(plan)| == 2 + |plan.vendor|
    ensures Puts(plan)[2 + l] == Put(VendorRoot(plan.target) + plan.vendor[l].0, plan.vendor[l].1)
  {
  }

  lemma ConflictsSplit(dirs: seq<Path>, c: Write, s: Write, rest: seq<Write>)
    ensures ConflictFree(dirs, [c, s] + rest) <==>
            !OnTheWay(dirs, c.path) && !OnTheWay(dirs, s.path) && forall w | w in rest :: !OnTheWay(dirs, w.path)
  {
    var puts := [c, s] + rest;
    assert puts[0] == c && puts[1] == s && c in puts && s in puts;
    assert forall w :: w in puts <==> w == c || w == s || w in rest;
  }

  lemma FilesClearIff(paths: AppPaths)
    ensures FilesClear(paths) <==>
            !OnTheWay(LayoutDirectories(paths), paths.ConfigFile()) && !OnTheWay(LayoutDirectories(paths), paths.StateFile())
  {
    hide LayoutDirectories, FiveDirectories;
    LayoutDirectoryMembers(paths);
  }

  lemma ApartSplit(c: Write, s: Write, rest: seq<Write>)
    requires c.path != s.path && PutsApart(rest)
    ensures PutsApart([c, s] + rest) <==> forall w | w in rest :: w.path != c.path && w.path != s.path
  {
    var puts := [c, s] + rest;
    if PutsApart(puts) {
      forall w | w in rest
        ensures w.path != c.path && w.path != s.path
      {
        var l :| 0 <= l < |rest| && rest[l] == w;
        assert puts[0] == c && puts[1] == s && puts[2 + l] == w;
      }
    }
    if forall w | w in rest :: w.path != c.path && w.path != s.path {
      forall k, n | 0 <= k < n < |puts|
        ensures puts[k].path != puts[n].path
      {
        if n >= 2 {
          assert puts[n] == rest[n - 2] && rest[n - 2] in rest;
          assert k >= 2 ==> puts[k] == rest[k - 2];
        }
      }
    }
  }

  lemma CarriedApart(plan: Plan, f: VT.Forest)
    requires CarriesTree(plan, f)
    ensures PutsApart(VendorPuts(VendorRoot(plan.target), plan.vendor))
  {
    hide CarriesTree, VendorRoot;
    var root := VendorRoot(plan.target);
    var puts := VendorPuts(root, plan.vendor);
    forall k, n | 0 <= k < n < |puts|
      ensures puts[k].path != puts[n].path
    {
      CarriedEntry(plan, f, n);
      assert puts[k].path[|root|..] == plan.vendor[k].0 && puts[n].path[|root|..] == plan.vendor[n].0;
    }
  }

  lemma CarriedHoused(plan: Plan, f: VT.Forest)
    requires CarriesTree(plan, f)
    ensures AllHoused(LayoutDirectories(plan.target), Puts(plan))
  {
    hide CarriesTree, LayoutDirectories, OnTheWay, VendorRoot;
    var t, dirs, puts := plan.target, LayoutDirectories(plan.target), Puts(plan);
    LayoutDirectoryMembers(t);
    FiveListed(t);
    OwnWay(dirs, t.configDir);
    OwnWay(dirs, t.stateDir);
    OwnWay(dirs, VendorRoot(t));
    assert Parent(puts[0].path) == t.configDir && Parent(puts[1].path) == t.stateDir;
    forall n: nat | n < |puts|
      ensures Housed(dirs, puts, n)
    {
      if n >= 2 {
        CarriedHome(plan, f, n - 2);
      }
    }
  }

  lemma CarriedHome(plan: Plan, f: VT.Forest, l: nat)
    requires CarriesTree(plan, f) && l < |plan.vendor| && OnTheWay(LayoutDirectories(plan.target), VendorRoot(plan.target))
    ensures Housed(LayoutDirectories(plan.target), Puts(plan), 2 + l)
  {
    hide CarriesTree, LayoutDirectories, OnTheWay, VendorRoot;
    CarriedEntry(plan, f, l);
    var q, root := plan.vendor[l].0, VendorRoot(plan.target);
    PutAt(plan, l);
    assert Parent(root + q) == root + Parent(q);
    if |q| == 1 {
      assert root + Parent(q) == root;
    } else {
      var k: nat :| k < l && plan.vendor[k] == (Parent(q), MadeDirectory);
      PutAt(plan, k);
    }
  }

  /** A carried tree can be staged exactly when the two files and the owner markers are off the way to the layout directories
      and no entry of the tree meets one of them or one of the files. */
  lemma TreeStageableIff(plan: Plan, f: VT.Forest)
    requires CarriesTree(plan, f)
    ensures Stageable(plan) <==>
            FilesClear(plan.target) && MarkersClear(plan.Anchors(), LayoutDirectories(plan.target)) && MeetsNothing(plan)
  {
    hide CarriesTree, Stageable, MarkersClear, ConflictFree, PutsApart, AllHoused, FilesClear, OnTheWay, AnchorsOf,
      LayoutDirectories, VendorRoot, VendorPuts;
    var c, s := Put(plan.target.ConfigFile(), plan.config), Put(plan.target.StateFile(), plan.state);
    var rest := VendorPuts(VendorRoot(plan.target), plan.vendor);
    StageableIff(plan);
    FilesClearIff(plan.target);
    ConflictsSplit(LayoutDirectories(plan.target), c, s, rest);
    FiveListed(plan.target);
    CarriedApart(plan, f);
    ApartSplit(c, s, rest);
    CarriedHoused(plan, f);
  }

  /** Nothing is met in a vendor root of its own. */
  lemma AloneMeetsNothing(plan: Plan, f: VT.Forest)
    requires CarriesTree(plan, f) && VendorRootAlone(plan.target)
    ensures MeetsNothing(plan)
  {
    hide CarriesTree, LayoutDirectories;
    var t, root := plan.target, VendorRoot(plan.target);
    VendorRootInLayout(t);
    FileNotVendor(t.configDir, "config.toml", t.dataDir);
    FileNotVendor(t.stateDir, "state.toml", t.dataDir);
    var puts := VendorPuts(root, plan.vendor);
    forall w | w in puts
      ensures !OnTheWay(LayoutDirectories(t), w.path) && w.path != t.ConfigFile() && w.path != t.StateFile()
    {
      var l: nat :| l < |puts| && puts[l] == w;
      CarriedEntry(plan, f, l);
      NothingBelow(LayoutDirectories(t), root, plan.vendor[l].0);
      assert StartsWith(root + plan.vendor[l].0, root);
    }
  }

  // ---- Layouts that fit ----

  /** Nothing about the directories themselves stands in the way of a migration. */
  ghost predicate LayoutFits(paths: AppPaths) {
    && VendorRootAlone(paths) && FilesClear(paths) && MarkersClear(AnchorsOf(paths), LayoutDirectories(paths))
    && NoGaps(AnchorsOf(paths), LayoutDirectories(paths)) && JournalFits(AnchorsOf(paths), paths)
  }

  /** The three directories do not contain one another, as in both default layouts. */
  predicate Separate(paths: AppPaths) {
    && !StartsWith(paths.configDir, paths.dataDir) && !StartsWith(paths.dataDir, paths.configDir)
    && !StartsWith(paths.configDir, paths.stateDir) && !StartsWith(paths.stateDir, paths.configDir)
    && !StartsWith(paths.dataDir, paths.stateDir) && !StartsWith(paths.stateDir, paths.dataDir)
  }

  lemma SeparateNoGaps(paths: AppPaths, anchors: seq<Path>, dirs: seq<Path>)
    requires Separate(paths)
    requires forall a | a in anchors :: a == paths.configDir || a == paths.dataDir || a == paths.stateDir
    requires forall d :: d in dirs <==> d in FiveDirectories(paths)
    ensures NoGaps(anchors, dirs)
  {
    forall i, d, n | 0 <= i < |anchors| && d in dirs && StartsWith(d, anchors[i]) && |anchors[i]| < n <= |d|
      ensures d[..n] in dirs
    {
      assert anchors[i] in anchors;
      AnchorOrChild(paths, anchors[i], d);
      assert d[..n] == d;
    }
  }

  /** A layout directory under an anchor is the anchor or one of its entries. */
  lemma AnchorOrChild(paths: AppPaths, a: Path, d: Path)
    requires Separate(paths) && (a == paths.configDir || a == paths.dataDir || a == paths.stateDir)
    requires d in FiveDirectories(paths) && StartsWith(d, a)
    ensures |d| <= |a| + 1
  {
    ChildPrefix(paths.dataDir, "vendor-state", a);
    ChildPrefix(paths.stateDir, "profile-locks", a);
  }

  lemma SeparateRoots(paths: AppPaths)
    requires Separate(paths)
    ensures VendorRootAlone(paths) && FilesClear(paths)
  {
    LongerPrefix(paths.configDir, paths.dataDir, ["vendor-state"]);
    LongerPrefix(paths.stateDir, paths.dataDir, ["vendor-state"]);
    forall d | d in FiveDirectories(paths)
      ensures !StartsWith(d, paths.ConfigFile()) && !StartsWith(d, paths.StateFile())
    {
      FileOffTheWay(paths, d, paths.configDir, "config.toml");
      FileOffTheWay(paths, d, paths.stateDir, "state.toml");
    }
  }

  lemma FileOffTheWay(paths: AppPaths, d: Path, dir: Path, name: string)
    requires Separate(paths) && (dir == paths.configDir || dir == paths.stateDir) && d in FiveDirectories(paths)
    requires name != "vendor-state" && name != "profile-locks"
    ensures !StartsWith(d, dir + [name])
  {
    LongerPrefix(d, dir, [name]);
    ChildPrefix(paths.dataDir, "vendor-state", dir + [name]);
    ChildPrefix(paths.stateDir, "profile-locks", dir + [name]);
    ChildrenDiffer(dir, name, paths.dataDir, "vendor-state");
    ChildrenDiffer(dir, name, paths.stateDir, "profile-locks");
    LongerPrefix(paths.dataDir, dir, [name]);
    LongerPrefix(paths.stateDir, dir, [name]);
  }

  lemma SeparateMarkers(paths: AppPaths, a: Path, d: Path)
    requires Separate(paths) && (a == paths.configDir || a == paths.dataDir || a == paths.stateDir)
    requires d in FiveDirectories(paths)
    ensures !StartsWith(d, a + [OWNER_MARKER])
  {
    LongerPrefix(d, a, [OWNER_MARKER]);
    if StartsWith(d, a) {
      AnchorOrChild(paths, a, d);
    }
    ChildrenDiffer(paths.dataDir, "vendor-state", a, OWNER_MARKER);
    ChildrenDiffer(paths.stateDir, "profile-locks", a, OWNER_MARKER);
  }

  /** Separate directories fit, unless one lies below the place of the journal. */
  lemma SeparateFits(paths: AppPaths)
    requires Separate(paths)
    ensures LayoutFits(paths) <==> !AnchorInJournal(AnchorsOf(paths), paths)
  {
    hide AnchorsOf, LayoutDirectories, AnchorInJournal;
    SeparateRoots(paths);
    AnchorsApartAndCovering(paths);
    LayoutDirectoryMembers(paths);
    SeparateNoGaps(paths, AnchorsOf(paths), LayoutDirectories(paths));
    OwnAnchor(paths, AnchorsOf(paths));
    forall a, d | a in AnchorsOf(paths) && d in LayoutDirectories(paths)
      ensures !StartsWith(d, a + [OWNER_MARKER])
    {
      SeparateMarkers(paths, a, d);
    }
  }

  /** Separate directories verify whatever was staged in them. */
  lemma SeparateVerifies(plan: Plan)
    requires Separate(plan.target) && Stageable(plan)
    ensures LayoutVerifies(plan)
  {
    hide AnchorsOf, LayoutDirectories, Stageable, LayoutVerifies;
    SeparateRoots(plan.target);
    AnchorsApartAndCovering(plan.target);
    LayoutDirectoryMembers(plan.target);
    SeparateNoGaps(plan.target, plan.Anchors(), LayoutDirectories(plan.target));
    StagedVerifiesIff(plan);
  }

  lemma OwnAnchor(paths: AppPaths, anchors: seq<Path>)
    requires Separate(paths) && PairwiseApart(anchors) && Covered(anchors, paths.configDir)
    requires forall a | a in anchors :: a == paths.configDir || a == paths.dataDir || a == paths.stateDir
    ensures !Covered(anchors, Parent(paths.configDir))
  {
    forall a | a in anchors
      ensures !StartsWith(Parent(paths.configDir), a)
    {
      ParentPrefix(paths.configDir, a);
    }
  }

  lemma ParentPrefix(p: Path, a: Path)
    requires p != []
    ensures StartsWith(Parent(p), a) ==> StartsWith(p, a) && a != p
  {
    if StartsWith(Parent(p), a) {
      assert p[..|a|] == Parent(p)[..|a|];
    }
  }

  lemma SideBySideIsSeparate(paths: AppPaths, root: Path)
    requires paths == AppPaths(root + ["config"], root + ["data"], root + ["state"])
    ensures Separate(paths)
  {
    ChildrenDiffer(root, "config", root, "data");
    ChildrenDiffer(root, "config", root, "state");
    ChildrenDiffer(root, "data", root, "state");
  }

  lemma SideBySideNames(paths: AppPaths, root: Path, a: Path)
    requires paths == AppPaths(root + ["config"], root + ["data"], root + ["state"])
    requires a == paths.configDir || a == paths.dataDir || a == paths.stateDir
    ensures a != [] && Plain(FileName(a)) && a != JournalPath(paths) && !StartsWith(a, JournalPath(paths))
  {
    hide Plain, JournalPath;
    ShortIsPlain("config");
    ShortIsPlain("data");
    ShortIsPlain("state");
    SideBySideJournal(paths, root);
  }

  /** The default layout under one root fits, and its names are plain. */
  lemma SideBySideFits(plan: Plan, root: Path)
    requires plan.target == AppPaths(root + ["config"], root + ["data"], root + ["state"])
    ensures Separate(plan.target) && LayoutFits(plan.target) && PlainTargets(plan)
  {
    hide AnchorsOf, LayoutFits, JournalPath, Plain, StartsWith, Separate;
    SideBySideIsSeparate(plan.target, root);
    SeparateFits(plan.target);
    AnchorsApartAndCovering(plan.target);
    forall a | a in AnchorsOf(plan.target)
      ensures a != [] && Plain(FileName(a)) && a != JournalPath(plan.target) && !StartsWith(a, JournalPath(plan.target))
    {
      SideBySideNames(plan.target, root, a);
    }
  }

  lemma SideBySideJournal(paths: AppPaths, root: Path)
    requires paths == AppPaths(root + ["config"], root + ["data"], root + ["state"])
    ensures var j := JournalPath(paths);
      !StartsWith(paths.configDir, j) && !StartsWith(paths.dataDir, j) && !StartsWith(paths.stateDir, j)
  {
    var name := "." + "config" + ".aictx-to-ctxlane-migration.toml";
    assert Parent(paths.configDir) == root && JournalPath(paths) == root + [name];
    assert name[0] == '.';
    ChildrenDiffer(root, "config", root, name);
    ChildrenDiffer(root, "data", root, name);
    ChildrenDiffer(root, "state", root, name);
  }

  lemma ShortIsPlain(name: string)
    requires |name| < |FRAGMENT|
    ensures Plain(name)
  {
  }

  // ---- The whole migration ----

  /** The vendor tree below the target's vendor root, in the tree of the anchor that owns it. */
  ghost predicate VendorTreeAt(plan: Plan, trees: Trees, copy: Made) {
    exists i, root :: 0 <= i < |plan.Anchors()| && plan.Anchors()[i] + root == VendorRoot(plan.target)
      && plan.Anchors()[i] in trees && Mirrors(trees[plan.Anchors()[i]].entries, root, copy)
  }

  lemma WholeContents(t: Transaction, plan: Plan, disk: Disk, spots: seq<Spot>)
    requires About(t, plan) && Whole(t, disk, spots)
    ensures disk.journal == None
    ensures forall i | 0 <= i < |plan.Anchors()| ::
              plan.Anchors()[i] in disk.trees && disk.trees[plan.Anchors()[i]] == Tree(None, Content(plan, i))
    ensures forall p | p in t.base :: p in disk.trees && disk.trees[p] == t.base[p]
  {
    hide AnchorsOf, Writes, Performed;
    forall i | 0 <= i < |plan.Anchors()|
      ensures plan.Anchors()[i] in disk.trees && disk.trees[plan.Anchors()[i]] == Tree(None, Content(plan, i))
    {
      assert spots[i] == At(t.anchors[i], Tree(None, t.contents[i]));
      OverlayMeaning(t.base, spots, t.anchors[i]);
    }
    forall p | p in t.base
      ensures p in disk.trees && disk.trees[p] == t.base[p]
    {
      OverlayMeaning(t.base, spots, p);
    }
  }

  /** The other platform default: configuration and data in one directory, state in an entry of it. */
  lemma OneDirectoryFits(paths: AppPaths, root: Path)
    requires root != [] && paths == AppPaths(root, root, root + ["state"])
    ensures LayoutFits(paths)
  {
    hide AnchorsOf, LayoutDirectories, JournalPath;
    AnchorsApartAndCovering(paths);
    LayoutDirectoryMembers(paths);
    OneDirectoryRoots(paths, root);
    OnlyRoot(paths, root, AnchorsOf(paths));
    forall i, d, n | 0 <= i < |AnchorsOf(paths)| && d in LayoutDirectories(paths) && StartsWith(d, AnchorsOf(paths)[i])
                     && |AnchorsOf(paths)[i]| < n <= |d|
      ensures d[..n] in LayoutDirectories(paths)
    {
      assert AnchorsOf(paths)[i] in AnchorsOf(paths);
      OneDirectoryListed(paths, root, d, n);
    }
    forall d | d in LayoutDirectories(paths)
      ensures !StartsWith(d, root + [OWNER_MARKER])
    {
      OneDirectoryMarkers(paths, root, d);
    }
    ParentPrefix(root, root);
    SiblingJournal(paths, root);
  }

  lemma SiblingJournal(paths: AppPaths, root: Path)
    requires root != [] && paths.configDir == root
    ensures !(StartsWith(root, JournalPath(paths)) && root != JournalPath(paths))
  {
  }

  lemma OneDirectoryMarkers(paths: AppPaths, root: Path, d: Path)
    requires paths == AppPaths(root, root, root + ["state"]) && d in FiveDirectories(paths)
    ensures !StartsWith(d, root + [OWNER_MARKER])
  {
    var marker := root + [OWNER_MARKER];
    assert marker[|root|] == OWNER_MARKER;
    assert VendorRoot(paths)[|root|] == "vendor-state" && paths.stateDir[|root|] == "state";
    assert (paths.stateDir + ["profile-locks"])[|root|] == "state";
  }

  lemma OnlyRoot(paths: AppPaths, root: Path, anchors: seq<Path>)
    requires paths == AppPaths(root, root, root + ["state"]) && PairwiseApart(anchors) && Covered(anchors, root)
    requires forall a | a in anchors :: a == root || a == root + ["state"]
    ensures forall a | a in anchors :: a == root
  {
    var a :| a in anchors && StartsWith(root, a);
    var i :| 0 <= i < |anchors| && anchors[i] == a;
    assert a == root;
    forall b | b in anchors
      ensures b == root
    {
      var j :| 0 <= j < |anchors| && anchors[j] == b;
      assert StartsWith(root + ["state"], root);
      assert j != i ==> !StartsWith(anchors[j], anchors[i]);
    }
  }

  lemma OneDirectoryListed(paths: AppPaths, root: Path, d: Path, n: nat)
    requires paths == AppPaths(root, root, root + ["state"]) && d in FiveDirectories(paths) && |root| < n <= |d|
    ensures d[..n] in FiveDirectories(paths)
  {
    FiveListed(paths);
    if n < |d| {
      assert d == paths.stateDir + ["profile-locks"];
      assert d[..n] == paths.stateDir;
    } else {
      assert d[..n] == d;
    }
  }

  lemma OneDirectoryRoots(paths: AppPaths, root: Path)
    requires paths == AppPaths(root, root, root + ["state"])
    ensures VendorRootAlone(paths) && FilesClear(paths)
  {
    var vendor, config, state := VendorRoot(paths), paths.ConfigFile(), paths.StateFile();
    assert vendor[|root|] == "vendor-state" && config[|root|] == "config.toml" && paths.stateDir[|root|] == "state";
    assert state[|root| + 1] == "state.toml" && (paths.stateDir + ["profile-locks"])[|root| + 1] == "profile-locks";
    forall d | d in FiveDirectories(paths)
      ensures !StartsWith(d, config) && !StartsWith(d, state)
    {
      assert |d| <= |root| || d[|root|] != "config.toml";
      assert |d| <= |root| + 1 || d[|root| + 1] != "state.toml";
    }
  }

  // ---- What a migration leaves on disk ----

  ghost predicate StoredUnder(trees: Trees, a: Path, p: Path, e: Entry) {
    && StartsWith(p, a) && p != a && a in trees
    && p[|a|..] in trees[a].entries && trees[a].entries[p[|a|..]] == e
  }

  /** Some anchor's tree stores the entry at this path. */
  ghost predicate Stored(plan: Plan, trees: Trees, p: Path, e: Entry) {
    exists a | a in plan.Anchors() :: StoredUnder(trees, a, p, e)
  }

  /** The two files at their places, the tree's copy below the vendor root, and the layout's directories, below an anchor. */
  ghost predicate Meant(plan: Plan, copy: Made, p: Path, e: Entry) {
    && (exists a | a in plan.Anchors() :: StartsWith(p, a) && p != a)
    && (|| (p == plan.target.ConfigFile() && e == plan.config)
        || (p == plan.target.StateFile() && e == plan.state)
        || (StartsWith(p, VendorRoot(plan.target)) && p[|VendorRoot(plan.target)|..] in copy
            && copy[p[|VendorRoot(plan.target)|..]] == e)
        || (e == MadeDirectory && OnTheWay(LayoutDirectories(plan.target), p)))
  }

  /** The entries put below the vendor root are those of the copy. */
  lemma VendorPutIff(plan: Plan, f: VT.Forest, now: Option<int>, p: Path, e: Entry)
    requires CarriesTree(plan, f)
    ensures var root, copy := VendorRoot(plan.target), Flatten(CopyOf(f, now), []);
      (exists l: nat :: l < |plan.vendor| && p == root + plan.vendor[l].0 && e == plan.vendor[l].1)
      <==> StartsWith(p, root) && p[|root|..] in copy && copy[p[|root|..]] == e
  {
    hide CarriesTree, VendorRoot, Flatten, CopyOf, Planned;
    var root, vendor := VendorRoot(plan.target), plan.vendor;
    CarriedIsCopy(plan, f, now);
    if l: nat :| l < |vendor| && p == root + vendor[l].0 && e == vendor[l].1 {
      assert p[|root|..] == vendor[l].0;
      CarriedPlanned(plan, f, l);
    }
    if StartsWith(p, root) && p[|root|..] in Planned(vendor) {
      var l := PlannedFrom(vendor, p[|root|..]);
      assert p == root + p[|root|..];
    }
  }

  lemma CarriedPlanned(plan: Plan, f: VT.Forest, l: nat)
    requires CarriesTree(plan, f) && l < |plan.vendor|
    ensures plan.vendor[l].0 in Planned(plan.vendor) && Planned(plan.vendor)[plan.vendor[l].0] == plan.vendor[l].1
  {
    hide CarriesTree, Planned;
    PlannedHas(plan.vendor, l);
    var k := PlannedFrom(plan.vendor, plan.vendor[l].0);
    if k < l {
      CarriedEntry(plan, f, l);
    } else if l < k {
      CarriedEntry(plan, f, k);
    }
  }

  lemma IntendedIffMeant(plan: Plan, f: VT.Forest, now: Option<int>, p: Path, e: Entry)
    requires CarriesTree(plan, f) && exists a | a in plan.Anchors() :: StartsWith(p, a) && p != a
    ensures Intended(plan, p, e) <==> Meant(plan, Flatten(CopyOf(f, now), []), p, e)
  {
    hide CarriesTree, VendorRoot, Flatten, CopyOf, OnTheWay, LayoutDirectories, AnchorsOf, AppPaths.ConfigFile, AppPaths.StateFile;
    var puts := Puts(plan);
    VendorPutIff(plan, f, now, p, e);
    if k: nat :| k < |puts| && puts[k] == Put(p, e) {
      if k >= 2 { PutAt(plan, k - 2); }
    }
    if p == plan.target.ConfigFile() && e == plan.config { assert puts[0] == Put(p, e); }
    if p == plan.target.StateFile() && e == plan.state { assert puts[1] == Put(p, e); }
    if l: nat :| l < |plan.vendor| && p == VendorRoot(plan.target) + plan.vendor[l].0 && e == plan.vendor[l].1 {
      PutAt(plan, l);
    }
  }

  /** Trees holding the planned contents store exactly what is meant to be there. */
  lemma StoredIffMeant(plan: Plan, f: VT.Forest, now: Option<int>, trees: Trees, p: Path, e: Entry)
    requires CarriesTree(plan, f) && Stageable(plan)
    requires forall i | 0 <= i < |plan.Anchors()| ::
               plan.Anchors()[i] in trees && trees[plan.Anchors()[i]] == Tree(None, Content(plan, i))
    ensures Stored(plan, trees, p, e) <==> Meant(plan, Flatten(CopyOf(f, now), []), p, e)
  {
    hide CarriesTree, Stageable, Flatten, CopyOf, Content, Intended, AnchorsOf, OnTheWay, LayoutDirectories;
    var anchors := plan.Anchors();
    forall a | a in anchors && StartsWith(p, a) && p != a
      ensures StoredUnder(trees, a, p, e) <==> Meant(plan, Flatten(CopyOf(f, now), []), p, e)
    {
      var i :| 0 <= i < |anchors| && anchors[i] == a;
      assert a + p[|a|..] == p;
      ContentIff(plan, i, p[|a|..], e);
      IntendedIffMeant(plan, f, now, p, e);
    }
  }

  /** With enough power, a tree is migrated exactly when the layout fits and the targets and stages are free; then its copy
      is in place with the two files, nothing else is new, and everything earlier is as it was. */
  method MigrateTree(plan: Plan, tx: string, trees: Trees, f: VT.Forest, now: Option<int>, fuel: nat)
    returns (m: Machine, report: Report, ghost t: Transaction)
    requires CarriesTree(plan, f) && PlainTargets(plan) && ValidTransactionId(tx)
    requires fuel > TransactionCost(plan) + 3 * |plan.Anchors()| + 2
    ensures fresh(m) && t == TransactionOf(plan, tx, trees)
    ensures report == Migrated <==>
            LayoutFits(plan.target) && AllAbsent(trees, plan.Anchors()) && AllAbsent(trees, StagesOf(plan.Anchors(), tx))
    ensures report.Refused? ==> m.disk == Disk(trees, None)
    ensures report == Migrated ==>
              && Whole(t, m.disk, m.spots) && m.disk.journal == None
              && VendorTreeAt(plan, m.disk.trees, Flatten(CopyOf(f, now), []))
              && (forall p, e :: Stored(plan, m.disk.trees, p, e) <==> Meant(plan, Flatten(CopyOf(f, now), []), p, e))
              && forall p | p in trees :: p in m.disk.trees && m.disk.trees[p] == trees[p]
  {
    hide CarriesTree, PlainTargets, WellNamed, Whole, AnchorsOf, Stageable, LayoutVerifies, LayoutFits,
      TransactionCost, TransactionOf, About, Mirrors, Content, Flatten, CopyOf, JournalFits, AllAbsent, Archived, Inv,
      JournalPath, Stored, Meant;
    t := TransactionOf(plan, tx, trees);
    Described(plan, tx, trees, t);
    AboutAnchors(t, plan);
    PlainTargetsWellNamed(plan, tx);
    ghost var nowhere := seq(|t.anchors|, _ => Nowhere);
    m := new Machine(Disk(trees, None), fuel, nowhere);
    report := Execute(m, plan, tx, t);
    FitsIff(plan, f);
    if report == Migrated {
      WholeContents(t, plan, m.disk, m.spots);
      ghost var i, root := MigratedTree(plan, f, now);
      forall p, e
        ensures Stored(plan, m.disk.trees, p, e) <==> Meant(plan, Flatten(CopyOf(f, now), []), p, e)
      {
        StoredIffMeant(plan, f, now, m.disk.trees, p, e);
      }
    }
  }

  /** For a carried tree the layout fits exactly when it can be staged, verifies, and leaves room for the journal. */
  lemma FitsIff(plan: Plan, f: VT.Forest)
    requires CarriesTree(plan, f)
    ensures LayoutFits(plan.target) <==>
            Stageable(plan) && LayoutVerifies(plan) && JournalFits(plan.Anchors(), plan.target)
  {
    hide CarriesTree, Stageable, LayoutVerifies, AnchorsOf, LayoutDirectories, NoGaps, VendorRootAlone, FilesClear, MarkersClear,
      MeetsNothing, JournalFits;
    TreeStageableIff(plan, f);
    if Stageable(plan) {
      StagedVerifiesIff(plan);
    }
    if VendorRootAlone(plan.target) {
      AloneMeetsNothing(plan, f);
    }
  }

  lemma MigratedTree(plan: Plan, f: VT.Forest, now: Option<int>) returns (i: nat, root: Path)
    requires CarriesTree(plan, f) && Stageable(plan) && LayoutVerifies(plan)
    ensures i < |plan.Anchors()| && plan.Anchors()[i] + root == VendorRoot(plan.target)
    ensures Mirrors(Content(plan, i), root, Flatten(CopyOf(f, now), []))
  {
    hide CarriesTree, Stageable, LayoutVerifies, AnchorsOf, Flatten, CopyOf, Mirrors, Content, VendorRootAlone;
    StagedVerifiesIff(plan);
    i, root := VendorAnchor(plan);
    StagedVendor(plan, i, root);
    CarriedIsCopy(plan, f, now);
  }
}
