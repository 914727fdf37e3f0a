/** Layouts that never migrate, one for each reason, and what decides where the journal goes. */
module LayoutFindings {
  import opened Wrappers
  import opened Layout
  import opened Naming
  import opened StagedLayout
  import opened Disk
  import opened Recovery
  import opened Commit
  import opened CrashRuns
  import VT = VendorTree
  import opened StagingRules
  import opened VendorCopy
  import opened VendorMigration
  import opened VendorVerify
  import opened VerifiedLayout

  // ---- A directory the exact check does not list ----

  /** Configuration in `/x/ctxlane`, data two levels below it. */
  const DATA_BELOW := AppPaths(["x", "ctxlane"], ["x", "ctxlane", "share", "ctxlane"], ["s", "ctxlane"])

  lemma DataBelowAnchors()
    ensures DATA_BELOW.configDir in AnchorsOf(DATA_BELOW)
    ensures forall a | a in AnchorsOf(DATA_BELOW) :: a == DATA_BELOW.configDir || a == DATA_BELOW.stateDir
  {
    var paths, anchors := DATA_BELOW, AnchorsOf(DATA_BELOW);
    hide AnchorsOf;
    AnchorsApartAndCovering(paths);
    var a :| a in anchors && StartsWith(paths.configDir, a);
    var i :| 0 <= i < |anchors| && anchors[i] == a;
    assert a == paths.configDir by {
      assert |paths.dataDir| > |paths.configDir| && paths.configDir[0] != paths.stateDir[0];
    }
    assert StartsWith(paths.dataDir, paths.configDir) by {
      assert paths.dataDir[..2] == paths.configDir;
    }
    forall b | b in anchors
      ensures b != paths.dataDir
    {
      var j :| 0 <= j < |anchors| && anchors[j] == b;
      assert j != i ==> !StartsWith(anchors[j], anchors[i]);
    }
  }

  lemma DataBelowRoots()
    ensures VendorRootAlone(DATA_BELOW) && FilesClear(DATA_BELOW)
  {
    var config, state := DATA_BELOW.ConfigFile(), DATA_BELOW.StateFile();
    assert config[2] == "config.toml" && state[2] == "state.toml";
    forall d | d in FiveDirectories(DATA_BELOW)
      ensures !StartsWith(d, config) && !StartsWith(d, state)
    {
      assert |d| < 3 || d[2] == "share" || d[2] == "profile-locks";
    }
  }

  /** Whatever tree it carries, a plan for this layout can be staged and committed but never verifies. */
  lemma DataBelowNeverVerifies(plan: Plan, f: VT.Forest)
    requires plan.target == DATA_BELOW && CarriesTree(plan, f)
    ensures Stageable(plan) && !LayoutVerifies(plan)
    ensures PlainTargets(plan) && JournalFits(plan.Anchors(), plan.target)
  {
    hide AnchorsOf, LayoutDirectories, LayoutVerifies, CarriesTree, Stageable, Content, NoGaps, JournalFits, MarkersClear;
    DataBelowAnchors();
    LayoutDirectoryMembers(DATA_BELOW);
    DataBelowRoots();
    NoMarkers(DATA_BELOW);
    TreeStageableIff(plan, f);
    AloneMeetsNothing(plan, f);
    StagedVerifiesIff(plan);
    DataBelowGap(plan.Anchors(), LayoutDirectories(DATA_BELOW));
    AnchorsApartAndCovering(DATA_BELOW);
    JournalElsewhere(plan);
  }

  lemma DifferAt(p: Path, a: Path, k: nat)
    requires k < |p| && k < |a| && p[k] != a[k]
    ensures !StartsWith(p, a)
  {
  }

  /** A path without the marker's name in it does not go through a marker. */
  lemma NoMarkers(paths: AppPaths)
    requires OWNER_MARKER !in paths.configDir && OWNER_MARKER !in paths.dataDir && OWNER_MARKER !in paths.stateDir
    ensures MarkersClear(AnchorsOf(paths), LayoutDirectories(paths))
  {
    hide AnchorsOf, LayoutDirectories;
    LayoutDirectoryMembers(paths);
    forall a, d | a in AnchorsOf(paths) && d in LayoutDirectories(paths)
      ensures !StartsWith(d, a + [OWNER_MARKER])
    {
      assert OWNER_MARKER !in d;
      assert (a + [OWNER_MARKER])[|a|] == OWNER_MARKER;
    }
  }

  /** The anchors of a layout named after the application are plain, and no journal path. */
  lemma JournalElsewhere(plan: Plan)
    requires FileName(plan.target.configDir) == "ctxlane" && FileName(plan.target.dataDir) == "ctxlane"
    requires FileName(plan.target.stateDir) == "ctxlane"
    requires plan.target.configDir != [] && plan.target.dataDir != [] && plan.target.stateDir != []
    requires forall a | a in plan.Anchors() ::
               |a| >= |plan.target.configDir| && a[|plan.target.configDir| - 1] == "ctxlane"
    ensures PlainTargets(plan) && JournalFits(plan.Anchors(), plan.target)
  {
    hide AnchorsOf, JournalPath, StartsWith, Plain;
    AnchorsApartAndCovering(plan.target);
    ShortIsPlain("ctxlane");
    forall a | a in plan.Anchors()
      ensures a != [] && Plain(FileName(a))
      ensures !StartsWith(a, JournalPath(plan.target)) && !StartsWith(Parent(plan.target.configDir), a)
      ensures a != JournalPath(plan.target)
    {
      OffTheJournal(plan.target, a);
    }
    forall i | 0 <= i < |plan.Anchors()|
      ensures plan.Anchors()[i] != [] && Plain(FileName(plan.Anchors()[i]))
    {
      assert plan.Anchors()[i] in plan.Anchors();
    }
  }

  lemma OffTheJournal(paths: AppPaths, a: Path)
    requires paths.configDir != [] && |a| >= |paths.configDir| && a[|paths.configDir| - 1] == "ctxlane"
    ensures !StartsWith(a, JournalPath(paths)) && !StartsWith(Parent(paths.configDir), a) && a != JournalPath(paths)
  {
    var j, n := JournalPath(paths), |paths.configDir|;
    assert |j| == n && j[n - 1][0] == '.' && "ctxlane"[0] == 'c';
    DifferAt(a, j, n - 1);
  }

  lemma DataBelowGap(anchors: seq<Path>, dirs: seq<Path>)
    requires DATA_BELOW.configDir in anchors && forall d :: d in dirs <==> d in FiveDirectories(DATA_BELOW)
    ensures !NoGaps(anchors, dirs)
  {
    var i :| 0 <= i < |anchors| && anchors[i] == DATA_BELOW.configDir;
    var d := DATA_BELOW.dataDir;
    assert FiveDirectories(DATA_BELOW)[1] == d;
    assert d[..2] == anchors[i] && StartsWith(d, anchors[i]);
    assert d[..3][0] == "x";
    forall e | e in FiveDirectories(DATA_BELOW)
      ensures e != d[..3]
    {
      assert |e| != 3 || e[0] == "s";
    }
  }

  // ---- A journal inside an anchor ----

  predicate StrictlyBelow(p: Path, a: Path) {
    StartsWith(p, a) && p != a
  }

  /** No migration can begin exactly when the configuration directory lies strictly below another directory. */
  lemma JournalInsideIffBelow(paths: AppPaths)
    requires paths.configDir != []
    ensures JournalInside(AnchorsOf(paths), paths) <==>
            StrictlyBelow(paths.configDir, paths.dataDir) || StrictlyBelow(paths.configDir, paths.stateDir)
  {
    hide AnchorsOf;
    AnchorsApartAndCovering(paths);
    JournalInsideIff(paths);
    BelowIff(paths, AnchorsOf(paths));
  }

  lemma BelowIff(paths: AppPaths, anchors: seq<Path>)
    requires PairwiseApart(anchors) && Covered(anchors, paths.configDir)
    requires Covered(anchors, paths.dataDir) && Covered(anchors, paths.stateDir)
    requires forall a | a in anchors :: a == paths.configDir || a == paths.dataDir || a == paths.stateDir
    ensures paths.configDir !in anchors <==>
            StrictlyBelow(paths.configDir, paths.dataDir) || StrictlyBelow(paths.configDir, paths.stateDir)
  {
    NotBelowAnother(anchors, paths.configDir, paths.dataDir);
    NotBelowAnother(anchors, paths.configDir, paths.stateDir);
  }

  lemma NotBelowAnother(anchors: seq<Path>, p: Path, other: Path)
    requires PairwiseApart(anchors) && Covered(anchors, other)
    ensures p in anchors ==> !StrictlyBelow(p, other)
  {
    if p in anchors && StartsWith(p, other) {
      var a :| a in anchors && StartsWith(other, a);
      var i :| 0 <= i < |anchors| && anchors[i] == p;
      var j :| 0 <= j < |anchors| && anchors[j] == a;
      assert p[..|a|] == other[..|a|];
      assert StartsWith(anchors[i], anchors[j]);
    }
  }

  /** Data in `/x/ctxlane`, configuration directly below it. */
  const CONFIG_BELOW := AppPaths(["x", "ctxlane", "ctxlane"], ["x", "ctxlane"], ["s", "ctxlane"])

  /** Even an empty disk does not let this layout migrate. */
  lemma ConfigBelowNeverBegins(plan: Plan, tx: string)
    requires plan.target == CONFIG_BELOW
    ensures AllAbsent(map[], plan.Anchors()) && !Clear(TransactionOf(plan, tx, map[]), Disk(map[], None))
  {
    hide AnchorsOf, LayoutVerifies, Content;
    assert CONFIG_BELOW.configDir[..2] == CONFIG_BELOW.dataDir;
    JournalInsideIffBelow(CONFIG_BELOW);
  }

  // ---- A directory inside the vendor root ----

  /** Data in `/x/ctxlane`, state in its vendor root. */
  const STATE_IN_VENDOR := AppPaths(["c", "ctxlane"], ["x", "ctxlane"], ["x", "ctxlane", "vendor-state", "ctxlane"])

  /** A carried tree's entries begin with one of its names. */
  lemma EntryNames(plan: Plan, f: VT.Forest, l: nat)
    requires CarriesTree(plan, f) && l < |plan.vendor|
    ensures plan.vendor[l].0 != [] && plan.vendor[l].0[0] in VT.Names(f)
  {
    hide Planned, Flatten, CopyOf;
    CarriedIsCopy(plan, f, None);
    PlannedHas(plan.vendor, l);
    FlattenKeys(CopyOf(f, None), []);
    CopyWellFormed(f, None);
  }

  lemma StateInVendorMeetsNothing(plan: Plan, f: VT.Forest)
    requires plan.target == STATE_IN_VENDOR && CarriesTree(plan, f) && "ctxlane" !in VT.Names(f)
    ensures MeetsNothing(plan)
  {
    hide CarriesTree, LayoutDirectories;
    var t, root := STATE_IN_VENDOR, VendorRoot(STATE_IN_VENDOR);
    LayoutDirectoryMembers(t);
    assert root == ["x", "ctxlane", "vendor-state"] && t.StateFile()[3] == "ctxlane" && t.ConfigFile()[0] == "c";
    var puts := VendorPuts(root, plan.vendor);
    forall w | w in puts
      ensures !OnTheWay(LayoutDirectories(t), w.path) && w.path != t.ConfigFile() && w.path != t.StateFile()
    {
      var l: nat :| l < |puts| && puts[l] == w;
      EntryNames(plan, f, l);
      assert w.path[0] == "x" && w.path[3] == plan.vendor[l].0[0];
      forall d | d in FiveDirectories(t)
        ensures !StartsWith(d, w.path)
      {
        assert |d| <= 3 || d[3] == "ctxlane";
      }
    }
  }

  lemma StateInVendorGaps(anchors: seq<Path>, dirs: seq<Path>)
    requires forall a | a in anchors :: |a| >= 2
    requires forall d :: d in dirs <==> d in FiveDirectories(STATE_IN_VENDOR)
    ensures NoGaps(anchors, dirs) && FilesClear(STATE_IN_VENDOR) && !VendorRootAlone(STATE_IN_VENDOR)
  {
    var t := STATE_IN_VENDOR;
    FiveListed(t);
    assert t.stateDir[..3] == VendorRoot(t);
    forall i, d, n | 0 <= i < |anchors| && d in dirs && StartsWith(d, anchors[i]) && |anchors[i]| < n <= |d|
      ensures d[..n] in dirs
    {
      assert anchors[i] in anchors;
      PrefixListed(d, n);
    }
    var config, state := t.ConfigFile(), t.StateFile();
    assert config[2] == "config.toml" && state[4] == "state.toml";
    forall d | d in FiveDirectories(t)
      ensures !StartsWith(d, config) && !StartsWith(d, state)
    {
      assert (|d| <= 2 || d[2] == "vendor-state") && (|d| <= 4 || d[4] == "profile-locks");
    }
  }

  lemma PrefixListed(d: Path, n: nat)
    requires d in FiveDirectories(STATE_IN_VENDOR) && 2 < n <= |d|
    ensures d[..n] in FiveDirectories(STATE_IN_VENDOR)
  {
    var t := STATE_IN_VENDOR;
    FiveListed(t);
    if n == |d| {
      assert d[..n] == d;
    } else {
      assert d == t.stateDir || d == t.stateDir + ["profile-locks"];
      assert d[..3] == VendorRoot(t) && (n == 4 ==> d[..n] == t.stateDir);
    }
  }

  /** Any plan for this layout whose tree does not meet the state directory can be staged and passes the exact comparison,
      but never the vendor comparison. */
  lemma StateInVendorNeverVerifies(plan: Plan, f: VT.Forest)
    requires plan.target == STATE_IN_VENDOR && CarriesTree(plan, f) && "ctxlane" !in VT.Names(f)
    ensures Stageable(plan) && LayoutExact(plan) && !VendorExact(plan) && !LayoutVerifies(plan)
    ensures PlainTargets(plan) && JournalFits(plan.Anchors(), plan.target)
  {
    hide AnchorsOf, LayoutDirectories, LayoutExact, VendorExact, CarriesTree, Stageable, NoGaps, JournalFits, MarkersClear,
      MeetsNothing, FilesClear, VendorRootAlone;
    LayoutDirectoryMembers(STATE_IN_VENDOR);
    AnchorsApartAndCovering(STATE_IN_VENDOR);
    StateInVendorGaps(plan.Anchors(), LayoutDirectories(STATE_IN_VENDOR));
    NoMarkers(STATE_IN_VENDOR);
    StateInVendorMeetsNothing(plan, f);
    TreeStageableIff(plan, f);
    StagedExactIffNoGaps(plan);
    StagedVendorExactIff(plan);
    JournalElsewhere(plan);
  }

  lemma OutermostData(paths: AppPaths)
    requires !StartsWith(paths.dataDir, paths.configDir) && !StartsWith(paths.dataDir, paths.stateDir)
    ensures paths.dataDir in AnchorsOf(paths)
  {
    hide AnchorsOf;
    AnchorsApartAndCovering(paths);
  }

  // ---- A directory at the place of the owner marker ----

  const STATE_UNDER_MARKER := AppPaths(["c", "ctxlane"], ["x", "ctxlane"], ["x", "ctxlane", OWNER_MARKER, "ctxlane"])

  /** No plan for this layout can be staged: the data stage's marker is in the way of the state directory. */
  lemma StateUnderMarkerNeverStages(plan: Plan)
    requires plan.target == STATE_UNDER_MARKER
    ensures !Stageable(plan)
  {
    hide AnchorsOf, LayoutDirectories, Stageable;
    var t := plan.target;
    LayoutDirectoryMembers(t);
    FiveListed(t);
    DifferAt(t.dataDir, t.configDir, 0);
    OutermostData(t);
    assert t.stateDir[..3] == t.dataDir + [OWNER_MARKER];
    if Stageable(plan) {
      StageableClearsMarkers(plan);
    }
  }

  // ---- A directory at the place of the journal ----

  const DATA_IN_JOURNAL :=
    AppPaths(["c", "ctxlane"], ["c", "." + "ctxlane" + ".aictx-to-ctxlane-migration.toml", "ctxlane"], ["s", "ctxlane"])

  /** Making room for the data directory takes the place of the journal, so that even an empty disk is refused. */
  lemma DataInJournalNeverBegins(plan: Plan, tx: string)
    requires plan.target == DATA_IN_JOURNAL
    ensures AllAbsent(map[], plan.Anchors()) && !Clear(TransactionOf(plan, tx, map[]), Disk(map[], None))
  {
    hide AnchorsOf, LayoutVerifies, Content;
    var t := plan.target;
    var j := JournalPath(t);
    assert Parent(t.configDir) == ["c"] && FileName(t.configDir) == "ctxlane";
    assert j == ["c", "." + "ctxlane" + ".aictx-to-ctxlane-migration.toml"];
    assert t.dataDir[1][0] == '.' && t.configDir[1][0] == 'c';
    DifferAt(t.dataDir, t.configDir, 1);
    DifferAt(t.dataDir, t.stateDir, 0);
    OutermostData(t);
    assert t.dataDir[..2] == j;
  }

  // ---- Exactly when there is room for the journal ----

  /** A migration can begin exactly in layouts whose configuration directory lies below no other, and whose other directories
      do not lie below the journal's own path. */
  lemma JournalFitsIff(paths: AppPaths)
    requires paths.configDir != [] && paths.dataDir != JournalPath(paths) && paths.stateDir != JournalPath(paths)
    ensures JournalFits(AnchorsOf(paths), paths) <==>
            && !StrictlyBelow(paths.configDir, paths.dataDir) && !StrictlyBelow(paths.configDir, paths.stateDir)
            && !StrictlyBelow(paths.dataDir, JournalPath(paths)) && !StrictlyBelow(paths.stateDir, JournalPath(paths))
  {
    hide AnchorsOf, JournalInside, JournalPath;
    AnchorsApartAndCovering(paths);
    JournalInsideIffBelow(paths);
    NotItsOwnJournal(paths);
    if !JournalInside(AnchorsOf(paths), paths) {
      AnchorBelowJournal(paths, AnchorsOf(paths), paths.dataDir);
      AnchorBelowJournal(paths, AnchorsOf(paths), paths.stateDir);
    }
  }

  lemma NotItsOwnJournal(paths: AppPaths)
    requires paths.configDir != []
    ensures !StartsWith(paths.configDir, JournalPath(paths))
  {
    var n := |paths.configDir|;
    assert |JournalPath(paths)| == n && |JournalPath(paths)[n - 1]| > |paths.configDir[n - 1]|;
  }

  lemma AnchorBelowJournal(paths: AppPaths, anchors: seq<Path>, d: Path)
    requires paths.configDir != [] && Covered(anchors, d) && !JournalInside(anchors, paths) && JournalPath(paths) !in anchors
    ensures StrictlyBelow(d, JournalPath(paths)) ==> AnchorInJournal(anchors, paths)
  {
    if StrictlyBelow(d, JournalPath(paths)) {
      TakesJournalPlace(paths, anchors, d);
    }
  }

  lemma TakesJournalPlace(paths: AppPaths, anchors: seq<Path>, d: Path)
    requires paths.configDir != [] && Covered(anchors, d) && !JournalInside(anchors, paths) && JournalPath(paths) !in anchors
    requires StrictlyBelow(d, JournalPath(paths))
    ensures AnchorInJournal(anchors, paths)
  {
    var a :| a in anchors && StartsWith(d, a);
    var j := JournalPath(paths);
    ShorterThanJournal(paths, d, a);
    assert a[..|j|] == d[..|j|] == j;
  }

  lemma ShorterThanJournal(paths: AppPaths, d: Path, a: Path)
    requires paths.configDir != [] && StartsWith(d, JournalPath(paths)) && StartsWith(d, a)
    ensures |a| < |JournalPath(paths)| ==> StartsWith(Parent(paths.configDir), a)
  {
    var j := JournalPath(paths);
    if |a| < |j| {
      assert a == d[..|a|] == j[..|a|] == Parent(paths.configDir)[..|a|];
    }
  }
}
