/** Application directories, the anchors a migration moves, and the names it gives its own trees. */
module Layout {
  import opened Sorting

  /** An absolute path as its components below the root. */
  type Path = seq<string>

  predicate StartsWith(path: Path, ancestor: Path) {
    ancestor <= path
  }

  datatype AppPaths = AppPaths(configDir: Path, dataDir: Path, stateDir: Path) {
    function ConfigFile(): Path { configDir + ["config.toml"] }

    function StateFile(): Path { stateDir + ["state.toml"] }
  }

  /** Shallower paths first, ties by path order. */
  predicate DepthLe(a: Path, b: Path) {
    |a| < |b| || (|a| == |b| && PathLe(a, b))
  }

  lemma DepthLeOrder()
    ensures TotalOrder(DepthLe)
  {
    PathLeOrder();
  }

  function Dedup<T(==,!new)>(s: seq<T>): (r: seq<T>)
    ensures forall x :: x in r <==> x in s
    ensures |r| <= |s| && (s != [] ==> r != [] && r[0] == s[0])
  {
    if |s| < 2 then s
    else if s[0] == s[1] then Dedup(s[1..])
    else [s[0]] + Dedup(s[1..])
  }

  lemma {:induction false} DedupSorted<T(!new)>(le: (T, T) -> bool, s: seq<T>)
    requires Sorted(le, s)
    ensures Sorted(le, Dedup(s))
  {
    if |s| >= 2 {
      DedupSorted(le, s[1..]);
      var r := Dedup(s[1..]);
      forall j | 0 <= j < |r|
        ensures le(s[0], r[j])
      {
        assert r[j] in s[1..];
      }
    }
  }

  predicate Covered(anchors: seq<Path>, path: Path) {
    exists a | a in anchors :: StartsWith(path, a)
  }

  /** Keep each candidate that no kept candidate already contains. */
  function Outermost(candidates: seq<Path>): (anchors: seq<Path>)
    ensures forall a | a in anchors :: a in candidates
    ensures |anchors| <= |candidates|
  {
    if candidates == [] then []
    else
      var last := candidates[|candidates| - 1];
      var kept := Outermost(candidates[..|candidates| - 1]);
      if Covered(kept, last) then kept else kept + [last]
  }

  function Candidates(paths: AppPaths): (r: seq<Path>)
    ensures |r| <= 3
    ensures forall p :: p in r <==> p == paths.configDir || p == paths.dataDir || p == paths.stateDir
  {
    var dirs := [paths.configDir, paths.dataDir, paths.stateDir];
    SameMembers(DepthLe, dirs);
    Dedup(Sort(DepthLe, dirs))
  }

  /** What `target_anchors` returns. */
  function AnchorsOf(paths: AppPaths): seq<Path> {
    Sort(PathLe, Outermost(Candidates(paths)))
  }

  method TargetAnchors(paths: AppPaths) returns (anchors: seq<Path>)
    ensures anchors == AnchorsOf(paths)
  {
    hide Candidates, Covered, StartsWith;
    var candidates := Candidates(paths);
    anchors := [];
    for i := 0 to |candidates|
      invariant anchors == Outermost(candidates[..i])
    {
      assert candidates[..i + 1][..i] == candidates[..i];
      if !Covered(anchors, candidates[i]) {
        anchors := anchors + [candidates[i]];
      }
    }
    assert candidates[..|candidates|] == candidates;
    anchors := Sort(PathLe, anchors);
  }

  ghost predicate PairwiseApart(anchors: seq<Path>) {
    forall i, j | 0 <= i < |anchors| && 0 <= j < |anchors| && i != j :: !StartsWith(anchors[i], anchors[j])
  }

  lemma {:induction false} OutermostApart(candidates: seq<Path>)
    requires Sorted(DepthLe, candidates)
    ensures PairwiseApart(Outermost(candidates))
    ensures forall c | c in candidates :: Covered(Outermost(candidates), c)
  {
    if candidates != [] {
      var n := |candidates| - 1;
      var last, kept := candidates[n], Outermost(candidates[..n]);
      OutermostApart(candidates[..n]);
      if Covered(kept, last) {
        assert Outermost(candidates) == kept;
      } else {
        assert Outermost(candidates) == kept + [last];
        forall a | a in kept
          ensures !StartsWith(a, last)
        {
          var k :| 0 <= k < n && candidates[k] == a;
          assert DepthLe(candidates[k], candidates[n]);
        }
        assert last in kept + [last] && StartsWith(last, last);
        forall c | c in candidates[..n]
          ensures Covered(kept + [last], c)
        {
          assert Covered(kept, c);
        }
      }
    }
  }

  lemma SortKeepsApart(kept: seq<Path>)
    requires PairwiseApart(kept)
    ensures PairwiseApart(Sort(PathLe, kept))
  {
    var anchors := Sort(PathLe, kept);
    SameMembers(PathLe, kept);
    ApartDistinct(kept);
    SortDistinct(PathLe, kept);
    forall i, j | 0 <= i < |anchors| && 0 <= j < |anchors| && i != j
      ensures !StartsWith(anchors[i], anchors[j])
    {
      assert anchors[i] in kept && anchors[j] in kept;
      assert anchors[i] != anchors[j];
    }
  }

  lemma CandidatesSorted(paths: AppPaths)
    ensures Sorted(DepthLe, Candidates(paths)) && Candidates(paths) != []
  {
    DepthLeOrder();
    var dirs := [paths.configDir, paths.dataDir, paths.stateDir];
    SortSorted(DepthLe, dirs);
    DedupSorted(DepthLe, Sort(DepthLe, dirs));
    assert paths.configDir in Candidates(paths);
  }

  /** Anchors are pairwise apart, each is one of the three directories, and together they cover all three. */
  lemma AnchorsApartAndCovering(paths: AppPaths)
    ensures PairwiseApart(AnchorsOf(paths))
    ensures 1 <= |AnchorsOf(paths)| <= 3
    ensures forall a | a in AnchorsOf(paths) :: a == paths.configDir || a == paths.dataDir || a == paths.stateDir
    ensures Covered(AnchorsOf(paths), paths.configDir) && Covered(AnchorsOf(paths), paths.dataDir)
    ensures Covered(AnchorsOf(paths), paths.stateDir)
  {
    hide DepthLe, StartsWith, PairwiseApart, Covered;
    var candidates := Candidates(paths);
    var kept := Outermost(candidates);
    CandidatesSorted(paths);
    OutermostApart(candidates);
    SortKeepsApart(kept);
    SameMembers(PathLe, kept);
    MembersCover(paths, candidates, kept, AnchorsOf(paths));
  }

  lemma MembersCover(paths: AppPaths, candidates: seq<Path>, kept: seq<Path>, anchors: seq<Path>)
    requires forall p :: p in candidates <==> p == paths.configDir || p == paths.dataDir || p == paths.stateDir
    requires |anchors| == |kept| <= |candidates| <= 3 && forall a | a in kept :: a in candidates
    requires forall c | c in candidates :: Covered(kept, c)
    requires forall a :: a in anchors <==> a in kept
    ensures 1 <= |anchors| <= 3
    ensures forall a | a in anchors :: a == paths.configDir || a == paths.dataDir || a == paths.stateDir
    ensures Covered(anchors, paths.configDir) && Covered(anchors, paths.dataDir) && Covered(anchors, paths.stateDir)
  {
    hide Covered;
    CoveredSame(kept, anchors, paths.configDir);
    CoveredSame(kept, anchors, paths.dataDir);
    CoveredSame(kept, anchors, paths.stateDir);
  }

  lemma CoveredSame(kept: seq<Path>, anchors: seq<Path>, p: Path)
    requires Covered(kept, p) && |anchors| == |kept| && forall a | a in kept :: a in anchors
    ensures Covered(anchors, p) && |anchors| > 0
  {
  }

  lemma ApartDistinct(anchors: seq<Path>)
    requires PairwiseApart(anchors)
    ensures forall i, j | 0 <= i < j < |anchors| :: anchors[i] != anchors[j]
  {
    forall i, j | 0 <= i < j < |anchors|
      ensures anchors[i] != anchors[j]
    {
      assert !StartsWith(anchors[i], anchors[j]);
    }
  }

  /** The index of the first anchor containing `path`, or `|anchors|`. */
  function Owner(anchors: seq<Path>, path: Path): (i: nat)
    ensures i <= |anchors|
    ensures i < |anchors| ==> StartsWith(path, anchors[i])
    ensures i == |anchors| ==> !Covered(anchors, path)
  {
    if anchors == [] then 0
    else if StartsWith(path, anchors[0]) then 0
    else 1 + Owner(anchors[1..], path)
  }

  /** Non-nested anchors own disjoint sets of paths. */
  lemma OwnerUnique(anchors: seq<Path>, path: Path, i: nat)
    requires PairwiseApart(anchors) && i < |anchors| && StartsWith(path, anchors[i])
    ensures Owner(anchors, path) == i
  {
    assert anchors[i] in anchors;
  }

  function AnchorAt(anchors: seq<Path>, i: int): Path {
    if 0 <= i < |anchors| then anchors[i] else []
  }

  predicate HoldsConfig(anchors: seq<Path>, file: Path, i: int) {
    0 <= i < |anchors| && StartsWith(file, anchors[i])
  }

  /** Anchors holding the configuration file sort after all others. */
  function CommitLe(anchors: seq<Path>, file: Path): (int, int) -> bool {
    (i, j) =>
      (!HoldsConfig(anchors, file, i) && HoldsConfig(anchors, file, j))
      || (HoldsConfig(anchors, file, i) == HoldsConfig(anchors, file, j)
          && PathLe(AnchorAt(anchors, i), AnchorAt(anchors, j)))
  }

  function CommitOrder(anchors: seq<Path>, file: Path): seq<int> {
    Sort(CommitLe(anchors, file), seq(|anchors|, i => i))
  }

  ghost predicate VisitsEachOnce(order: seq<int>, n: nat) {
    && |order| == n
    && (forall i :: i in order <==> 0 <= i < n)
    && (forall k, l | 0 <= k < l < |order| :: order[k] != order[l])
  }

  lemma CommitOrderVisitsEachOnce(anchors: seq<Path>, file: Path)
    ensures VisitsEachOnce(CommitOrder(anchors, file), |anchors|)
  {
    var indices := seq(|anchors|, i => i);
    SameMembers(CommitLe(anchors, file), indices);
    SortDistinct(CommitLe(anchors, file), indices);
    forall i
      ensures i in indices <==> 0 <= i < |anchors|
    {
      if 0 <= i < |anchors| { assert indices[i] == i; }
    }
  }

  lemma CommitLeOrder(anchors: seq<Path>, file: Path)
    ensures TotalOrder(CommitLe(anchors, file))
  {
    PathLeOrder();
  }

  lemma CoveredBelow(anchors: seq<Path>, dir: Path, name: string)
    requires Covered(anchors, dir)
    ensures Covered(anchors, dir + [name])
  {
    var a :| a in anchors && StartsWith(dir, a);
    assert StartsWith(dir + [name], a);
  }

  lemma OneOwner(anchors: seq<Path>, file: Path)
    requires PairwiseApart(anchors) && Covered(anchors, file)
    ensures forall i :: HoldsConfig(anchors, file, i) <==> i == Owner(anchors, file)
  {
    forall i | HoldsConfig(anchors, file, i)
      ensures i == Owner(anchors, file)
    {
      OwnerUnique(anchors, file, i);
    }
  }

  lemma GreatestIsLast(le: (int, int) -> bool, order: seq<int>, c: int)
    requires Sorted(le, order) && c in order
    requires forall i | i in order && i != c :: !le(c, i)
    ensures order[|order| - 1] == c
  {
    var at :| 0 <= at < |order| && order[at] == c;
    assert at < |order| - 1 ==> le(order[at], order[|order| - 1]);
  }

  lemma HolderIsLast(anchors: seq<Path>, file: Path)
    requires PairwiseApart(anchors) && Covered(anchors, file)
    ensures var order := CommitOrder(anchors, file);
      && VisitsEachOnce(order, |anchors|) && |order| > 0
      && order[|order| - 1] == Owner(anchors, file)
  {
    OneOwner(anchors, file);
    CommitOrderVisitsEachOnce(anchors, file);
    CommitLeOrder(anchors, file);
    SortSorted(CommitLe(anchors, file), seq(|anchors|, i => i));
    GreatestIsLast(CommitLe(anchors, file), CommitOrder(anchors, file), Owner(anchors, file));
  }

  /** The commit order visits each anchor once and the only anchor of the configuration file last. */
  lemma ConfigCommitsLast(paths: AppPaths)
    ensures var anchors, file := AnchorsOf(paths), paths.ConfigFile();
      var order := CommitOrder(anchors, file);
      && VisitsEachOnce(order, |anchors|) && |order| > 0
      && (forall k | 0 <= k < |order| :: k == |order| - 1 <==> HoldsConfig(anchors, file, order[k]))
  {
    var anchors, file := AnchorsOf(paths), paths.ConfigFile();
    AnchorsApartAndCovering(paths);
    CoveredBelow(anchors, paths.configDir, "config.toml");
    HolderIsLast(anchors, file);
    OneOwner(anchors, file);
    LastOnly(CommitOrder(anchors, file), anchors, file);
  }

  lemma LastOnly(order: seq<int>, anchors: seq<Path>, file: Path)
    requires VisitsEachOnce(order, |anchors|) && |order| > 0
    requires forall i :: HoldsConfig(anchors, file, i) <==> i == order[|order| - 1]
    ensures forall k | 0 <= k < |order| :: k == |order| - 1 <==> HoldsConfig(anchors, file, order[k])
  {
  }
}
