/** When a staged layout passes verification: the exact and the vendor comparison, for every plan that can be staged. */
module VerifiedLayout {
  import opened Layout
  import opened StagedLayout
  import opened StagingRules

  /** Neither the configuration nor the state directory lies inside the vendor root. */
  predicate VendorRootAlone(paths: AppPaths) {
    !StartsWith(paths.configDir, VendorRoot(paths)) && !StartsWith(paths.stateDir, VendorRoot(paths))
  }

  /** An entry of a directory outside the vendor root is outside it too, unless it is the root itself. */
  lemma FileNotVendor(dir: Path, name: string, data: Path)
    requires !StartsWith(dir, data + ["vendor-state"]) && name != "vendor-state"
    ensures !StartsWith(dir + [name], data + ["vendor-state"])
  {
    ChildPrefix(dir, name, data + ["vendor-state"]);
    ChildrenDiffer(dir, name, data, "vendor-state");
  }

  lemma VendorRootInLayout(paths: AppPaths)
    requires VendorRootAlone(paths)
    ensures VendorRoot(paths) in LayoutDirectories(paths)
    ensures forall d | d in LayoutDirectories(paths) && d != VendorRoot(paths) :: !StartsWith(d, VendorRoot(paths))
  {
    hide LayoutDirectories;
    LayoutDirectoryMembers(paths);
    FileNotVendor(paths.stateDir, "profile-locks", paths.dataDir);
    NotUnder(paths, paths.stateDir + ["profile-locks"]);
    FiveListed(paths);
  }

  lemma NotUnder(paths: AppPaths, locks: Path)
    requires VendorRootAlone(paths) && locks == paths.stateDir + ["profile-locks"]
    requires !StartsWith(locks, VendorRoot(paths))
    ensures forall d | d in FiveDirectories(paths) && d != VendorRoot(paths) :: !StartsWith(d, VendorRoot(paths))
  {
    hide StartsWith;
    LongerThan(paths.dataDir, "vendor-state");
  }

  lemma LongerThan(dir: Path, name: string)
    ensures !StartsWith(dir, dir + [name])
  {
  }

  lemma WritesInThree(plan: Plan)
    ensures var c, s := Put(plan.target.ConfigFile(), plan.config), Put(plan.target.StateFile(), plan.state);
      Writes(plan) == Ensures(LayoutDirectories(plan.target)) + [c, s] + VendorPuts(VendorRoot(plan.target), plan.vendor)
  {
    hide LayoutDirectories, VendorPuts, VendorRoot, Ensures;
    var c, s := Put(plan.target.ConfigFile(), plan.config), Put(plan.target.StateFile(), plan.state);
    Regroup(Ensures(LayoutDirectories(plan.target)), [c, s], VendorPuts(VendorRoot(plan.target), plan.vendor));
  }

  lemma Regroup(a: seq<Write>, b: seq<Write>, c: seq<Write>)
    ensures a + (b + c) == a + b + c
  {
  }

  // ---- The stage holds, below the vendor root, what has been made ----

  /** Strictly below `root`, the stage holds exactly `made`. */
  ghost predicate Mirrors(stage: map<Path, Entry>, root: Path, made: map<Path, Entry>) {
    && root in stage && stage[root] == MadeDirectory
    && forall q: Path :: MirrorsAt(stage, root, made, q)
  }

  ghost predicate MirrorsAt(stage: map<Path, Entry>, root: Path, made: map<Path, Entry>, q: Path) {
    if q == [] then q !in made else (q in made <==> root + q in stage) && (q in made ==> made[q] == stage[root + q])
  }

  lemma MirrorsPut(stage: map<Path, Entry>, root: Path, made: map<Path, Entry>, q: Path, e: Entry)
    requires Mirrors(stage, root, made) && q != []
    ensures Mirrors(stage[root + q := e], root, made[q := e])
  {
    var stage', made' := stage[root + q := e], made[q := e];
    forall p: Path
      ensures MirrorsAt(stage', root, made', p)
    {
      assert MirrorsAt(stage, root, made, p);
      assert root + p == root + q ==> p == (root + q)[|root|..] == q;
    }
  }

  lemma MirrorsOther(stage: map<Path, Entry>, root: Path, made: map<Path, Entry>, rel: Path, e: Entry)
    requires Mirrors(stage, root, made) && !StartsWith(rel, root)
    ensures Mirrors(stage[rel := e], root, made)
  {
    var stage' := stage[rel := e];
    forall q: Path
      ensures MirrorsAt(stage', root, made, q)
    {
      assert MirrorsAt(stage, root, made, q);
      assert StartsWith(root + q, root);
    }
  }

  // ---- Before the vendor entries ----

  lemma PrefixBelow(anchor: Path, rel: Path, root: Path)
    ensures StartsWith(anchor + rel, anchor + root) <==> StartsWith(rel, root)
  {
    if StartsWith(rel, root) {
      assert (anchor + rel)[..|anchor + root|] == anchor + rel[..|root|];
    }
    if StartsWith(anchor + rel, anchor + root) {
      assert (anchor + rel)[|anchor|..] == rel && (anchor + root)[|anchor|..] == root;
      assert rel[..|root|] == (anchor + rel)[..|anchor + root|][|anchor|..];
    }
  }

  lemma NothingBelow(dirs: seq<Path>, vendor: Path, q: Path)
    requires q != [] && forall d | d in dirs && d != vendor :: !StartsWith(d, vendor)
    ensures !exists d :: d in dirs && StartsWith(d, vendor + q)
  {
    forall d | d in dirs
      ensures !StartsWith(d, vendor + q)
    {
      LongerPrefix(d, vendor, q);
    }
  }

  lemma LongerPrefix(d: Path, vendor: Path, q: Path)
    ensures StartsWith(d, vendor + q) ==> StartsWith(d, vendor) && (d == vendor ==> q == [])
  {
    if StartsWith(d, vendor + q) {
      assert d[..|vendor|] == (vendor + q)[..|vendor|] == vendor;
    }
  }

  lemma DirectoriesMirror(anchors: seq<Path>, dirs: seq<Path>, i: nat, root: Path)
    requires PairwiseApart(anchors) && i < |anchors| && root != []
    requires anchors[i] + root in dirs && forall d | d in dirs && d != anchors[i] + root :: !StartsWith(d, anchors[i] + root)
    ensures Mirrors(Performed(anchors, Ensures(dirs), i), root, map[])
  {
    hide Performed, Ensures;
    var stage, vendor, nothing := Performed(anchors, Ensures(dirs), i), anchors[i] + root, map[];
    PerformedDirectories(anchors, dirs, i, root);
    assert StartsWith(vendor, vendor);
    forall q: Path
      ensures MirrorsAt(stage, root, nothing, q)
    {
      PerformedDirectories(anchors, dirs, i, root + q);
      assert anchors[i] + (root + q) == vendor + q;
      if q != [] {
        NothingBelow(dirs, vendor, q);
      }
    }
  }

  /** A file put outside the vendor root leaves the mirror as it is. */
  lemma MirrorsFile(anchors: seq<Path>, writes: seq<Write>, w: Write, i: nat, root: Path, made: map<Path, Entry>)
    requires i < |anchors| && w.Put? && !StartsWith(w.path, anchors[i] + root)
    requires Mirrors(Performed(anchors, writes, i), root, made)
    ensures Mirrors(Performed(anchors, writes + [w], i), root, made)
  {
    hide Mirrors, Performed;
    PerformedSnoc(anchors, writes, w, i);
    if Owner(anchors, w.path) == i {
      var rel := w.path[|anchors[i]|..];
      assert anchors[i] + rel == w.path;
      PrefixBelow(anchors[i], rel, root);
      MirrorsOther(Performed(anchors, writes, i), root, made, rel, w.entry);
    }
  }

  lemma MirrorsBelowRoot(stage: map<Path, Entry>, root: Path, made: map<Path, Entry>)
    ensures VendorMatches(stage, root, made) <==> Mirrors(stage, root, made)
  {
    if VendorMatches(stage, root, made) {
      forall q: Path
        ensures MirrorsAt(stage, root, made, q)
      {
        assert (root + q)[|root|..] == q && StartsWith(root + q, root);
      }
    }
    if Mirrors(stage, root, made) {
      forall p | p in stage && StartsWith(p, root) && p != root
        ensures p[|root|..] in made && made[p[|root|..]] == stage[p]
      {
        assert MirrorsAt(stage, root, made, p[|root|..]) && root + p[|root|..] == p;
      }
      forall q | q in made
        ensures q != [] && root + q in stage && stage[root + q] == made[q]
      {
        assert MirrorsAt(stage, root, made, q);
      }
    }
  }

  /** Before the vendor entries the vendor root is an empty directory. */
  lemma FilesMirror(plan: Plan, i: nat, root: Path)
    requires VendorRootAlone(plan.target)
    requires i < |plan.Anchors()| && plan.Anchors()[i] + root == VendorRoot(plan.target) && root != []
    ensures var c, s := Put(plan.target.ConfigFile(), plan.config), Put(plan.target.StateFile(), plan.state);
      var dirs := Ensures(LayoutDirectories(plan.target));
      Mirrors(Performed(plan.Anchors(), dirs + [c, s], i), root, map[])
  {
    hide AnchorsOf, LayoutDirectories, Mirrors, Performed, PairwiseApart, Covered, Ensures;
    var t, anchors, dirs := plan.target, plan.Anchors(), LayoutDirectories(plan.target);
    var c, s := Put(t.ConfigFile(), plan.config), Put(t.StateFile(), plan.state);
    AnchorsApartAndCovering(t);
    VendorRootInLayout(t);
    DirectoriesMirror(anchors, dirs, i, root);
    FileNotVendor(t.configDir, "config.toml", t.dataDir);
    FileNotVendor(t.stateDir, "state.toml", t.dataDir);
    MirrorsFile(anchors, Ensures(dirs), c, i, root, map[]);
    MirrorsFile(anchors, Ensures(dirs) + [c], s, i, root, map[]);
    assert Ensures(dirs) + [c] + [s] == Ensures(dirs) + [c, s];
  }

  // ---- Both halves of the vendor comparison ----

  lemma {:induction false} VendorMirror(anchors: seq<Path>, base: seq<Write>, i: nat, root: Path,
                                        vendor: seq<(Path, Entry)>)
    requires PairwiseApart(anchors) && i < |anchors|
    requires Mirrors(Performed(anchors, base, i), root, map[])
    requires forall l | 0 <= l < |vendor| :: vendor[l].0 != []
    ensures Mirrors(Performed(anchors, base + VendorPuts(anchors[i] + root, vendor), i), root, Planned(vendor))
  {
    hide Mirrors, Performed, PairwiseApart;
    var puts := VendorPuts(anchors[i] + root, vendor);
    if vendor == [] {
      assert base + puts == base;
    } else {
      var n := |vendor| - 1;
      var before := base + VendorPuts(anchors[i] + root, vendor[..n]);
      VendorMirror(anchors, base, i, root, vendor[..n]);
      assert base + puts == before + [puts[n]];
      assert puts[n].path == anchors[i] + (root + vendor[n].0);
      Relative(anchors, i, root + vendor[n].0);
      PerformedSnoc(anchors, before, puts[n], i);
      MirrorsPut(Performed(anchors, before, i), root, Planned(vendor[..n]), vendor[n].0, vendor[n].1);
    }
  }

  /** A staged vendor entry is not the vendor root itself. */
  lemma StagedEntriesBelowRoot(plan: Plan)
    requires Stageable(plan)
    ensures forall l | 0 <= l < |plan.vendor| :: plan.vendor[l].0 != []
  {
    hide Stageable, LayoutDirectories;
    StageableHasNoConflicts(plan);
    LayoutDirectoryMembers(plan.target);
    FiveListed(plan.target);
    forall l | 0 <= l < |plan.vendor|
      ensures plan.vendor[l].0 != []
    {
      var w := Puts(plan)[2 + l];
      assert w in Puts(plan) && w.path == VendorRoot(plan.target) + plan.vendor[l].0;
      assert StartsWith(VendorRoot(plan.target), VendorRoot(plan.target));
    }
  }

  /** What a staged plan holds below a vendor root that nothing else lies in. */
  lemma StagedVendor(plan: Plan, i: nat, root: Path)
    requires Stageable(plan) && VendorRootAlone(plan.target)
    requires i < |plan.Anchors()| && root != [] && plan.Anchors()[i] + root == VendorRoot(plan.target)
    ensures Mirrors(Content(plan, i), root, Planned(plan.vendor))
  {
    hide Stageable, AnchorsOf, LayoutDirectories, Mirrors, Performed, Writes, VendorPuts, Planned, PairwiseApart;
    AnchorsApartAndCovering(plan.target);
    StagedEntriesBelowRoot(plan);
    FilesMirror(plan, i, root);
    var c, s := Put(plan.target.ConfigFile(), plan.config), Put(plan.target.StateFile(), plan.state);
    VendorMirror(plan.Anchors(), Ensures(LayoutDirectories(plan.target)) + [c, s], i, root, plan.vendor);
    WritesInThree(plan);
  }

  lemma {:induction false} PlannedFrom(vendor: seq<(Path, Entry)>, q: Path) returns (l: nat)
    requires q in Planned(vendor)
    ensures l < |vendor| && vendor[l] == (q, Planned(vendor)[q])
  {
    var n := |vendor| - 1;
    if vendor[n].0 == q {
      l := n;
    } else {
      l := PlannedFrom(vendor[..n], q);
    }
  }

  lemma {:induction false} PlannedHas(vendor: seq<(Path, Entry)>, l: nat)
    requires l < |vendor|
    ensures vendor[l].0 in Planned(vendor)
  {
    if l < |vendor| - 1 {
      PlannedHas(vendor[..|vendor| - 1], l);
    }
  }

  /** A file of the installation inside the vendor root either fails the vendor comparison or could not be staged. */
  lemma FileInVendorRoot(plan: Plan, k: nat)
    requires Stageable(plan) && VendorExact(plan) && k < 2
    ensures !StartsWith(Puts(plan)[k].path, VendorRoot(plan.target))
  {
    hide AnchorsOf, LayoutDirectories, Performed, PairwiseApart, Planned, Refuses;
    var anchors, vendorRoot, dirs, writes := plan.Anchors(), VendorRoot(plan.target), LayoutDirectories(plan.target), Writes(plan);
    var at := |dirs| + k;
    assert writes[at] == Puts(plan)[k] && |writes| == |dirs| + 2 + |plan.vendor|;
    if StartsWith(writes[at].path, vendorRoot) {
      FilesNotRoot(plan.target);
      var l := EntryAtFile(plan, k);
      assert writes[|dirs| + 2 + l] == VendorPuts(vendorRoot, plan.vendor)[l];
      SecondPutRefused(anchors, writes, at, |dirs| + 2 + l);
    }
  }

  lemma BelowRootIsPlanned(entries: map<Path, Entry>, root: Path, planned: map<Path, Entry>, q: Path)
    requires VendorMatches(entries, root, planned) && q != [] && root + q in entries
    ensures q in planned
  {
    assert StartsWith(root + q, root) && (root + q)[|root|..] == q;
  }

  lemma FileStaged(plan: Plan, k: nat, i: nat, rel: Path)
    requires k < 2 && i < |plan.Anchors()| && Puts(plan)[k].path == plan.Anchors()[i] + rel
    ensures rel in Content(plan, i) && Owner(plan.Anchors(), Puts(plan)[k].path) == i
  {
    hide AnchorsOf, LayoutDirectories, Performed, PairwiseApart;
    var writes, at := Writes(plan), |LayoutDirectories(plan.target)| + k;
    assert writes[at] == Puts(plan)[k];
    AnchorsApartAndCovering(plan.target);
    Relative(plan.Anchors(), i, rel);
    PutStays(plan.Anchors(), writes, at, |writes|);
    assert writes[..|writes|] == writes;
  }

  /** A file in the vendor root that passes the vendor comparison is planned there as well. */
  lemma EntryAtFile(plan: Plan, k: nat) returns (l: nat)
    requires VendorExact(plan) && k < 2
    requires StartsWith(Puts(plan)[k].path, VendorRoot(plan.target)) && Puts(plan)[k].path != VendorRoot(plan.target)
    ensures l < |plan.vendor| && VendorRoot(plan.target) + plan.vendor[l].0 == Puts(plan)[k].path
    ensures Owner(plan.Anchors(), Puts(plan)[k].path) < |plan.Anchors()|
  {
    hide AnchorsOf, Planned, VendorMatches, Content, VendorRoot;
    var vendorRoot, path := VendorRoot(plan.target), Puts(plan)[k].path;
    var i, root := VendorAnchor(plan);
    var q := path[|vendorRoot|..];
    assert path == vendorRoot + q && vendorRoot + q == plan.Anchors()[i] + (root + q);
    FileStaged(plan, k, i, root + q);
    BelowRootIsPlanned(Content(plan, i), root, Planned(plan.vendor), q);
    l := PlannedFrom(plan.vendor, q);
  }

  lemma FilesNotRoot(paths: AppPaths)
    ensures paths.ConfigFile() != VendorRoot(paths) && paths.StateFile() != VendorRoot(paths)
  {
    ChildrenDiffer(paths.configDir, "config.toml", paths.dataDir, "vendor-state");
    ChildrenDiffer(paths.stateDir, "state.toml", paths.dataDir, "vendor-state");
  }

  /** A staged plan passes the vendor comparison if and only if neither the configuration nor the state directory lies
      inside the vendor root. */
  lemma StagedVendorExactIff(plan: Plan)
    requires Stageable(plan)
    ensures VendorExact(plan) == VendorRootAlone(plan.target)
  {
    hide Stageable, AnchorsOf, Content, Planned, VendorMatches, Mirrors;
    var i, root := VendorAnchor(plan);
    MirrorsBelowRoot(Content(plan, i), root, Planned(plan.vendor));
    if VendorRootAlone(plan.target) {
      StagedVendor(plan, i, root);
    }
    if VendorExact(plan) {
      FileInVendorRoot(plan, 0);
      FileInVendorRoot(plan, 1);
      assert Puts(plan)[0].path == plan.target.ConfigFile() && Puts(plan)[1].path == plan.target.StateFile();
      FileBelow(plan.target.configDir, "config.toml", VendorRoot(plan.target));
      FileBelow(plan.target.stateDir, "state.toml", VendorRoot(plan.target));
    }
  }

  lemma FileBelow(dir: Path, name: string, p: Path)
    ensures StartsWith(dir, p) ==> StartsWith(dir + [name], p)
  {
    if StartsWith(dir, p) {
      assert (dir + [name])[..|p|] == dir[..|p|];
    }
  }

  /** Once staged and committed, a plan verifies exactly when no directory between an anchor and a layout directory is left
      out, and neither the configuration nor the state directory lies inside the vendor root. */
  lemma StagedVerifiesIff(plan: Plan)
    requires Stageable(plan)
    ensures LayoutVerifies(plan) <==>
            NoGaps(plan.Anchors(), LayoutDirectories(plan.target)) && VendorRootAlone(plan.target)
  {
    hide Stageable, VendorExact, LayoutExact, NoGaps, VendorRootAlone, AnchorsOf, LayoutDirectories;
    StagedExactIffNoGaps(plan);
    StagedVendorExactIff(plan);
  }

  /** The default layout, three directories side by side under one root, verifies whatever is staged. */
  lemma SideBySideVerifies(plan: Plan, root: Path)
    requires plan.target == AppPaths(root + ["config"], root + ["data"], root + ["state"]) && Stageable(plan)
    ensures LayoutVerifies(plan)
  {
    hide Stageable, VendorExact, LayoutExact;
    SideBySideExact(plan, root);
    StagedVendorExactIff(plan);
  }
}
