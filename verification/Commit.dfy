/** Staging, committing and verifying a migration, each step journalled before the next depends on it. */
module Commit {
  import opened Wrappers
  import opened Layout
  import opened Naming
  import opened StagedLayout
  import opened Disk
  import opened Recovery

  predicate Fresh(a: JournalAnchor) {
    !a.committed && a.archive == None
  }

  /** The first `n` anchors are staged with what `writes` produce; the others have no tree. */
  ghost predicate StagedWith(t: Transaction, j: Journal, spots: seq<Spot>, writes: seq<Write>, n: nat) {
    && |spots| == |t.anchors| == |j.anchors|
    && forall i | 0 <= i < |spots| :: StagedAt(t, j, spots, writes, n, i)
  }

  ghost predicate StagedAt(t: Transaction, j: Journal, spots: seq<Spot>, writes: seq<Write>, n: nat, i: nat)
    requires i < |spots| == |t.anchors| == |j.anchors|
  {
    && Fresh(j.anchors[i])
    && spots[i] == if i < n then At(t.Stage(i), Tree(Some(t.id), Performed(t.anchors, writes, i))) else Nowhere
  }

  /** Exactly the anchors in `done` are whole at their targets; the others are whole at their stages. */
  ghost predicate CommittedExactly(t: Transaction, j: Journal, spots: seq<Spot>, done: seq<int>) {
    && |spots| == |t.anchors| == |t.contents| == |j.anchors|
    && forall i | 0 <= i < |spots| :: CommittedAt(t, j, spots, done, i)
  }

  ghost predicate CommittedAt(t: Transaction, j: Journal, spots: seq<Spot>, done: seq<int>, i: nat)
    requires i < |spots| == |t.anchors| == |t.contents| == |j.anchors|
  {
    && j.anchors[i].archive == None
    && spots[i] == At(if i in done then t.anchors[i] else t.Stage(i), Tree(Some(t.id), t.contents[i]))
  }

  /** A configuration file at the target implies every other anchor is already there. */
  ghost predicate ConfigLast(t: Transaction, plan: Plan, spots: seq<Spot>) {
    forall c, i | 0 <= c < |t.anchors| && 0 <= i < |t.anchors| ::
      HoldsConfig(t.anchors, plan.target.ConfigFile(), c) && Landed(t, spots, c) ==> AtTarget(t, spots, i)
  }

  ghost predicate AtTarget(t: Transaction, spots: seq<Spot>, i: nat) {
    i < |spots| == |t.anchors| && spots[i].At? && spots[i].path == t.anchors[i]
  }

  lemma NothingLanded(t: Transaction, plan: Plan, j: Journal, spots: seq<Spot>, writes: seq<Write>, n: nat)
    requires StagedWith(t, j, spots, writes, n)
    ensures ConfigLast(t, plan, spots)
    ensures forall i: nat :: !Landed(t, spots, i)
  {
    forall i: nat | i < |spots|
      ensures !Landed(t, spots, i)
    {
      assert StagedAt(t, j, spots, writes, n, i);
    }
  }

  lemma ConfigLastAt(t: Transaction, plan: Plan, j: Journal, spots: seq<Spot>, order: seq<int>, done: nat)
    requires About(t, plan) && t.Valid() && order == CommitOrder(t.anchors, plan.target.ConfigFile())
    requires done <= |order| && CommittedExactly(t, j, spots, order[..done])
    ensures ConfigLast(t, plan, spots)
  {
    hide AnchorsOf, CommitOrder, CommittedExactly, Landed, AtTarget, HoldsConfig, VisitsEachOnce;
    ConfigCommitsLast(plan.target);
    AboutAnchors(t, plan);
    var file := plan.target.ConfigFile();
    forall c, i | 0 <= c < |t.anchors| && 0 <= i < |t.anchors| && HoldsConfig(t.anchors, file, c) && Landed(t, spots, c)
      ensures AtTarget(t, spots, i)
    {
      LandedAfter(t, j, spots, order, done, c, i, file);
    }
  }

  lemma LandedAfter(t: Transaction, j: Journal, spots: seq<Spot>, order: seq<int>, done: nat, c: nat, i: nat, file: Path)
    requires t.Valid() && c < |t.anchors| && i < |t.anchors| && done <= |order|
    requires VisitsEachOnce(order, |t.anchors|) && CommittedExactly(t, j, spots, order[..done])
    requires forall k | 0 <= k < |order| :: k == |order| - 1 <==> HoldsConfig(t.anchors, file, order[k])
    requires HoldsConfig(t.anchors, file, c) && Landed(t, spots, c)
    ensures AtTarget(t, spots, i)
  {
    assert CommittedAt(t, j, spots, order[..done], c) && CommittedAt(t, j, spots, order[..done], i);
    assert c in order;
    LastOfPrefix(order, done, c, |t.anchors|);
    assert i in order;
    TargetAndStageOwned(t, i);
  }

  lemma LastOfPrefix(order: seq<int>, done: nat, c: int, n: nat)
    requires VisitsEachOnce(order, n) && n > 0 && done <= n && c in order[..done]
    requires c == order[n - 1]
    ensures order[..done] == order
  {
  }

  // ---- One step each ----

  /** An anchor's tree is on disk where it is said to lie, and not at its anchor's other paths. */
  lemma OwnTree(t: Transaction, disk: Disk, spots: seq<Spot>, i: nat)
    requires Inv(t, disk, spots) && i < |spots| && spots[i].At?
    ensures spots[i].path in disk.trees && disk.trees[spots[i].path] == spots[i].tree
    ensures OwnedSpot(t, i, t.anchors[i]) && OwnedSpot(t, i, t.Stage(i)) && t.anchors[i] != t.Stage(i)
    ensures spots[i].path != t.anchors[i] ==> t.anchors[i] !in disk.trees
  {
    TargetAndStageOwned(t, i);
    InvOwned(t, disk, spots);
    HoldsOwnTree(t, disk, spots, i, spots[i].path);
    HoldsOwnTree(t, disk, spots, i, t.anchors[i]);
  }

  lemma StageCreated(t: Transaction, disk: Disk, spots: seq<Spot>, i: nat)
    requires Inv(t, disk, spots) && disk.journal.value.phase != Verified && i < |spots|
    requires StagedWith(t, disk.journal.value, spots, [], i)
    ensures var tree := Tree(Some(t.id), map[]);
      var next := spots[i := At(t.Stage(i), tree)];
      && Inv(t, disk.(trees := disk.trees[t.Stage(i) := tree]), next)
      && StagedWith(t, disk.journal.value, next, [], i + 1)
  {
    TargetAndStageOwned(t, i);
    var n, next := i + 1, spots[i := At(t.Stage(i), Tree(Some(t.id), map[]))];
    forall k: nat | k < |spots|
      ensures StagedAt(t, disk.journal.value, next, [], n, k)
    {
      assert StagedAt(t, disk.journal.value, spots, [], i, k);
    }
    assert StagedAt(t, disk.journal.value, spots, [], i, i);
    SpotReplaced(t, disk, spots, i, next[i]);
  }

  lemma EntryWritten(t: Transaction, disk: Disk, spots: seq<Spot>, writes: seq<Write>, w: Write)
    requires Inv(t, disk, spots) && disk.journal.value.phase != Verified
    requires StagedWith(t, disk.journal.value, spots, writes, |spots|) && Owner(t.anchors, w.path) < |t.anchors|
    ensures var i := Owner(t.anchors, w.path);
      t.Stage(i) in disk.trees && disk.trees[t.Stage(i)].entries == Performed(t.anchors, writes, i)
      && var tree := disk.trees[t.Stage(i)];
      var tree' := tree.(entries := Perform(tree.entries, w.path[|t.anchors[i]|..], w));
      var next := spots[i := At(t.Stage(i), tree')];
      && Inv(t, disk.(trees := disk.trees[t.Stage(i) := tree']), next)
      && StagedWith(t, disk.journal.value, next, writes + [w], |spots|)
  {
    hide Perform, Performed, Owned;
    var i, j := Owner(t.anchors, w.path), disk.journal.value;
    assert StagedAt(t, j, spots, writes, |spots|, i);
    OwnTree(t, disk, spots, i);
    var tree := disk.trees[t.Stage(i)];
    var tree' := tree.(entries := Perform(tree.entries, w.path[|t.anchors[i]|..], w));
    var next := spots[i := At(t.Stage(i), tree')];
    TreeReplaced(t, disk, spots, i, tree');
    forall k: nat | k < |spots|
      ensures StagedAt(t, j, next, writes + [w], |spots|, k)
    {
      assert StagedAt(t, j, spots, writes, |spots|, k);
      PerformedSnoc(t.anchors, writes, w, k);
    }
  }

  lemma TreeReplaced(t: Transaction, disk: Disk, spots: seq<Spot>, i: nat, tree: Tree)
    requires Inv(t, disk, spots) && disk.journal.value.phase != Verified && i < |spots|
    requires spots[i].At? && spots[i].path == t.Stage(i) && tree.marker == Some(t.id)
    requires Fresh(disk.journal.value.anchors[i])
    ensures Inv(t, disk.(trees := disk.trees[t.Stage(i) := tree]), spots[i := At(t.Stage(i), tree)])
  {
    TargetAndStageOwned(t, i);
    assert InFlight(t, i, disk.journal.value.anchors[i], At(t.Stage(i), tree));
    SpotReplaced(t, disk, spots, i, At(t.Stage(i), tree));
    assert (disk.trees - {t.Stage(i)})[t.Stage(i) := tree] == disk.trees[t.Stage(i) := tree];
  }

  lemma AnchorCommitted(t: Transaction, disk: Disk, spots: seq<Spot>, done: seq<int>, i: nat)
    requires Inv(t, disk, spots) && disk.journal.value.phase != Verified
    requires i < |spots| && i !in done && CommittedExactly(t, disk.journal.value, spots, done)
    ensures t.Stage(i) in disk.trees && spots[i] == At(t.Stage(i), disk.trees[t.Stage(i)]) && t.anchors[i] !in disk.trees
    ensures var next := spots[i := At(t.anchors[i], spots[i].tree)];
      && Inv(t, disk.(trees := Moved(disk.trees, t.Stage(i), t.anchors[i])), next)
      && CommittedExactly(t, disk.journal.value, next, done + [i]) && Kept(t, spots, next)
  {
    var j := disk.journal.value;
    assert CommittedAt(t, j, spots, done, i);
    OwnTree(t, disk, spots, i);
    var next := spots[i := At(t.anchors[i], spots[i].tree)];
    RenamedToTarget(t, disk, spots, i);
    MoveKeeps(t, spots, i, next[i]);
    forall k: nat | k < |spots|
      ensures CommittedAt(t, j, next, done + [i], k)
    {
      assert CommittedAt(t, j, spots, done, k);
    }
  }

  lemma RenamedToTarget(t: Transaction, disk: Disk, spots: seq<Spot>, i: nat)
    requires Inv(t, disk, spots) && disk.journal.value.phase != Verified && i < |spots|
    requires spots[i] == At(t.Stage(i), Tree(Some(t.id), t.contents[i])) && disk.journal.value.anchors[i].archive == None
    requires t.Stage(i) in disk.trees && disk.trees[t.Stage(i)] == spots[i].tree
    ensures Inv(t, disk.(trees := Moved(disk.trees, t.Stage(i), t.anchors[i])), spots[i := At(t.anchors[i], spots[i].tree)])
  {
    TargetAndStageOwned(t, i);
    assert AnchorInv(t, disk.journal.value, spots, i);
    SpotReplaced(t, disk, spots, i, At(t.anchors[i], spots[i].tree));
  }

  lemma CommitRecorded(t: Transaction, disk: Disk, spots: seq<Spot>, done: seq<int>, i: nat)
    requires Inv(t, disk, spots) && disk.journal.value.phase != Verified
    requires i < |spots| && i in done && CommittedExactly(t, disk.journal.value, spots, done)
    ensures var j := disk.journal.value;
      var j' := WithAnchor(j, i, j.anchors[i].(committed := true)).(phase := Committing);
      Inv(t, disk.(journal := Some(j')), spots) && CommittedExactly(t, j', spots, done)
  {
    var j := disk.journal.value;
    assert CommittedAt(t, j, spots, done, i);
    assert ValidJournalAnchor(j.anchors[i], t.anchors[i], t.id, i) && AnchorInv(t, j, spots, i);
    JournalReplaced(t, disk, spots, i, j.anchors[i].(committed := true), Committing);
    var j' := WithAnchor(j, i, j.anchors[i].(committed := true)).(phase := Committing);
    forall k: nat | k < |spots|
      ensures CommittedAt(t, j', spots, done, k)
    {
      assert CommittedAt(t, j, spots, done, k);
    }
  }

  // ---- The protocol ----

  datatype Report =
    | Migrated
    | Refused(cause: Error)
    | Undone(cause: Error, archives: seq<Path>)
    | Stranded(cause: Error, cleanup: Error)
    | Interrupted

  ghost predicate Lost(m: Machine, error: Error)
    reads m
  {
    error == PowerCut && m.fuel == 0
  }

  /** The paths a new migration needs to be absent. */
  predicate AllAbsent(trees: Trees, paths: seq<Path>) {
    forall i | 0 <= i < |paths| :: paths[i] !in trees
  }

  function StagesOf(anchors: seq<Path>, tx: string): seq<Path> {
    seq(|anchors|, i requires 0 <= i < |anchors| => StagePath(anchors[i], tx, i))
  }

  /** The journal lies beside the configuration directory; making room for it there would make an anchor. */
  predicate JournalInside(anchors: seq<Path>, target: AppPaths) {
    Covered(anchors, Parent(target.configDir))
  }

  function JournalPath(target: AppPaths): Path {
    Parent(target.configDir) + ["." + FileName(target.configDir) + ".aictx-to-ctxlane-migration.toml"]
  }

  /** Making room for an anchor would make a directory where the journal goes. */
  predicate AnchorInJournal(anchors: seq<Path>, target: AppPaths) {
    exists a | a in anchors :: StartsWith(a, JournalPath(target)) && a != JournalPath(target)
  }

  /** Neither the journal nor an anchor stands in the other's way. */
  predicate JournalFits(anchors: seq<Path>, target: AppPaths) {
    !JournalInside(anchors, target) && !AnchorInJournal(anchors, target)
  }

  /** No earlier journal, targets and stages that do not exist, and room for a journal beside them. */
  ghost predicate Clear(t: Transaction, disk: Disk) {
    && disk.journal == None && JournalFits(t.anchors, t.target)
    && AllAbsent(disk.trees, t.anchors) && AllAbsent(disk.trees, StagesOf(t.anchors, t.id))
  }

  /** What stands in the way first: a target or the journal inside one, a journal or a target inside its place, a stage. */
  ghost function Obstacle(t: Transaction, disk: Disk): Error
    requires !Clear(t, disk)
  {
    if !AllAbsent(disk.trees, t.anchors) || JournalInside(t.anchors, t.target) then TargetExists
    else if disk.journal.Some? || AnchorInJournal(t.anchors, t.target) then JournalExists
    else StageExists
  }

  /** The journal would lie inside an anchor exactly when the configuration directory is not an anchor itself. */
  lemma JournalInsideIff(paths: AppPaths)
    requires paths.configDir != []
    ensures JournalInside(AnchorsOf(paths), paths) <==> paths.configDir !in AnchorsOf(paths)
  {
    hide AnchorsOf;
    AnchorsApartAndCovering(paths);
    InsideIff(AnchorsOf(paths), paths.configDir);
  }

  lemma InsideIff(anchors: seq<Path>, dir: Path)
    requires PairwiseApart(anchors) && Covered(anchors, dir) && dir != []
    ensures Covered(anchors, Parent(dir)) <==> dir !in anchors
  {
    var a :| a in anchors && StartsWith(dir, a);
    if a != dir {
      assert StartsWith(Parent(dir), a);
    }
    if Covered(anchors, Parent(dir)) {
      var b :| b in anchors && StartsWith(Parent(dir), b);
      assert StartsWith(dir, b);
    }
  }

  function FirstJournal(plan: Plan, tx: string): Journal {
    var anchors := plan.Anchors();
    Journal(JOURNAL_VERSION, tx, plan.legacy, plan.target, Staging,
            seq(|anchors|, i requires 0 <= i < |anchors| => JournalAnchor(anchors[i], StagePath(anchors[i], tx, i), false, None)))
  }

  /** A journal read back is accepted exactly when it is the first journal of a well-formed transaction with nothing changed but
      its phase and each anchor's commit flag and archive, the archive being one its anchor could have. */
  lemma ValidJournalIff(plan: Plan, j: Journal)
    ensures var first := FirstJournal(plan, j.transactionId);
      ValidJournal(j, plan.legacy, plan.target, plan.Anchors()) <==>
        && 1 <= |j.transactionId| <= 80 && (forall c | c in j.transactionId :: c in "-0123456789abcdefABCDEF")
        && j == first.(phase := j.phase, anchors := j.anchors) && |j.anchors| == |first.anchors|
        && forall i | 0 <= i < |j.anchors| ::
             && j.anchors[i] == first.anchors[i].(committed := j.anchors[i].committed, archive := j.anchors[i].archive)
             && (j.anchors[i].archive.Some? ==> AcceptableArchive(first.anchors[i].target, j.anchors[i].archive.value, j.transactionId, i))
  {
    hide AnchorsOf, ValidArchivePath, AcceptableArchive;
    HexDigits();
    forall i | 0 <= i < |j.anchors| == |plan.Anchors()| && j.anchors[i].archive.Some?
      ensures ValidArchivePath(plan.Anchors()[i], j.anchors[i].archive.value, j.transactionId, i)
         <==> AcceptableArchive(plan.Anchors()[i], j.anchors[i].archive.value, j.transactionId, i)
    {
      ArchiveAcceptedIff(plan.Anchors()[i], j.anchors[i].archive.value, j.transactionId, i);
    }
  }

  lemma HexDigits()
    ensures forall c: char :: HexOrDash(c) <==> c in "-0123456789abcdefABCDEF"
  {
    forall c: char | HexOrDash(c)
      ensures c in "-0123456789abcdefABCDEF"
    {
      var s := "-0123456789abcdefABCDEF";
      assert s[0] == '-';
      if c <= '9' {
        assert c != '-' ==> s[1 + (c - '0') as int] == c;
      } else if c <= 'F' {
        assert s[17 + (c - 'A') as int] == c;
      } else {
        assert s[11 + (c - 'a') as int] == c;
      }
    }
  }

  lemma FirstJournalValid(plan: Plan, t: Transaction)
    requires About(t, plan) && t.Valid()
    ensures var j := FirstJournal(plan, t.id);
      && ValidJournal(j, t.legacy, t.target, t.anchors) && |j.anchors| == |t.anchors|
      && forall i | 0 <= i < |j.anchors| :: Fresh(j.anchors[i])
  {
    hide AnchorsOf, About, WellNamed, LayoutVerifies;
    AboutAnchors(t, plan);
  }

  lemma FirstJournalHolds(plan: Plan, t: Transaction, spots: seq<Spot>)
    requires About(t, plan) && t.Valid() && |spots| == |t.anchors| && forall i | 0 <= i < |spots| :: spots[i] == Nowhere
    ensures Inv(t, Disk(t.base, Some(FirstJournal(plan, t.id))), spots)
    ensures StagedWith(t, FirstJournal(plan, t.id), spots, [], 0)
  {
    hide AnchorsOf, ValidJournal, WellNamed, About, Inv, StagedWith, Fresh, LayoutVerifies;
    FirstJournalValid(plan, t);
    AboutAnchors(t, plan);
    NothingYet(t, FirstJournal(plan, t.id), spots);
  }

  lemma NothingYet(t: Transaction, j: Journal, spots: seq<Spot>)
    requires t.Valid() && |spots| == |t.anchors| == |j.anchors| && forall i | 0 <= i < |spots| :: spots[i] == Nowhere
    requires j.transactionId == t.id && j.phase == Staging && ValidJournal(j, t.legacy, t.target, t.anchors)
    requires forall i | 0 <= i < |j.anchors| :: Fresh(j.anchors[i])
    ensures Inv(t, Disk(t.base, Some(j)), spots) && StagedWith(t, j, spots, [], 0)
  {
    hide ValidJournal, WellNamed;
    OverlayOfNothing(t.base, spots);
    forall i: nat | i < |spots|
      ensures AnchorInv(t, j, spots, i)
    {
      assert Fresh(j.anchors[i]);
    }
  }

  lemma {:induction false} OverlayOfNothing(base: Trees, spots: seq<Spot>)
    requires forall i | 0 <= i < |spots| :: spots[i] == Nowhere
    ensures Overlay(base, spots) == base
  {
    if spots != [] {
      OverlayOfNothing(base, spots[..|spots| - 1]);
    }
  }

  /** Check that the way is clear and write the first journal; nothing changes when it is not. */
  method Prepare(m: Machine, plan: Plan, tx: string, ghost t: Transaction) returns (r: Result<(), Error>)
    requires About(t, plan) && t.base == m.disk.trees && t.id == tx && ValidTransactionId(t.id) && WellNamed(t.anchors, t.id)
    requires JournalPath(t.target) !in t.anchors
    requires |m.spots| == |t.anchors| && forall i | 0 <= i < |m.spots| :: m.spots[i] == Nowhere
    modifies m
    ensures r.Ok? ==> Inv(t, m.disk, m.spots) && m.disk.journal == Some(FirstJournal(plan, tx))
                      && StagedWith(t, FirstJournal(plan, tx), m.spots, [], 0)
    ensures r.Err? ==> m.disk == old(m.disk) && m.spots == old(m.spots)
    ensures r.Err? ==> if Clear(t, old(m.disk)) then Lost(m, r.error) else r.error == Obstacle(t, old(m.disk))
    ensures r.Ok? <==> old(m.fuel) > 0 && Clear(t, old(m.disk))
    ensures r.Err? && r.error == PowerCut <==> old(m.fuel) == 0 && Clear(t, old(m.disk))
    ensures old(m.fuel) - 1 <= m.fuel
  {
    hide AnchorsOf, Inv, StagedWith, WellNamed, About, FirstJournal, JournalInside, AnchorInJournal;
    AboutAnchors(t, plan);
    if !AllAbsent(m.disk.trees, plan.Anchors()) || JournalInside(plan.Anchors(), plan.target) {
      return Err(TargetExists);
    }
    if m.disk.journal.Some? || AnchorInJournal(plan.Anchors(), plan.target) {
      return Err(JournalExists);
    }
    if !AllAbsent(m.disk.trees, StagesOf(plan.Anchors(), tx)) {
      return Err(StageExists);
    }
    TransactionValid(t);
    FirstJournalHolds(plan, t, m.spots);
    var _ :- m.Commit(m.disk.(journal := Some(FirstJournal(plan, tx))), m.spots);
    return Ok(());
  }

  lemma TransactionValid(t: Transaction)
    requires |t.contents| == |t.anchors| && ValidTransactionId(t.id) && WellNamed(t.anchors, t.id)
    requires AllAbsent(t.base, t.anchors) && AllAbsent(t.base, StagesOf(t.anchors, t.id))
    ensures t.Valid()
  {
    forall i | 0 <= i < |t.anchors|
      ensures t.Stage(i) !in t.base
    {
      assert StagesOf(t.anchors, t.id)[i] == t.Stage(i);
    }
  }

  method CreateStages(m: Machine, journal: Journal, ghost t: Transaction) returns (r: Result<(), Error>)
    requires Inv(t, m.disk, m.spots) && m.disk.journal == Some(journal) && journal.phase == Staging
    requires StagedWith(t, journal, m.spots, [], 0)
    modifies m
    ensures Inv(t, m.disk, m.spots) && m.disk.journal == Some(journal)
    ensures r.Err? ==> Lost(m, r.error)
    ensures exists n: nat :: StagedWith(t, journal, m.spots, [], n)
    ensures r.Ok? ==> StagedWith(t, journal, m.spots, [], |t.anchors|)
    ensures old(m.fuel) - |t.anchors| <= m.fuel
  {
    hide Inv, StagedWith;
    InvShape(t, m.disk, m.spots);
    for i := 0 to |journal.anchors|
      invariant Inv(t, m.disk, m.spots) && m.disk.journal == Some(journal)
      invariant |journal.anchors| == |t.anchors| == |m.spots|
      invariant StagedWith(t, journal, m.spots, [], i)
      invariant old(m.fuel) - i <= m.fuel
    {
      StageCreated(t, m.disk, m.spots, i);
      AnchorPaths(t, m.disk, m.spots, i);
      var tree := Tree(Some(journal.transactionId), map[]);
      var stage := journal.anchors[i].stage;
      var _ :- m.Commit(m.disk.(trees := m.disk.trees[stage := tree]), m.spots[i := At(stage, tree)]);
    }
    return Ok(());
  }

  method PerformWrite(m: Machine, journal: Journal, w: Write, ghost t: Transaction, ghost writes: seq<Write>)
    returns (r: Result<(), Error>)
    requires Inv(t, m.disk, m.spots) && m.disk.journal == Some(journal) && journal.phase == Staging
    requires StagedWith(t, journal, m.spots, writes, |t.anchors|)
    modifies m
    ensures Inv(t, m.disk, m.spots) && m.disk.journal == Some(journal)
    ensures r.Ok? ==> StagedWith(t, journal, m.spots, writes + [w], |t.anchors|)
    ensures r.Err? ==> m.spots == old(m.spots)
    ensures r.Err? ==> Lost(m, r.error)
                       || (r.error == EntryRefused && Refuses(t.anchors, writes + [w], |writes|))
                       || (r.error == OutsideLayout && Owner(t.anchors, w.path) == |t.anchors|)
    ensures r.Ok? ==> !Refuses(t.anchors, writes + [w], |writes|)
    ensures old(m.fuel) - 1 <= m.fuel
  {
    hide Inv, StagedWith, Perform, Performed, Blocked, MarkerInTheWay;
    InvTargets(t, m.disk, m.spots);
    InvShape(t, m.disk, m.spots);
    var i := Owner(TargetsOf(journal), w.path);
    if i == |journal.anchors| {
      return Err(OutsideLayout);
    }
    EntryWritten(t, m.disk, m.spots, writes, w);
    AnchorPaths(t, m.disk, m.spots, i);
    assert (writes + [w])[..|writes|] == writes;
    var stage, rel := journal.anchors[i].stage, w.path[|journal.anchors[i].target|..];
    var tree := m.disk.trees[stage];
    if MarkerInTheWay(rel) || (w.Put? && Blocked(tree.entries, rel)) {
      return Err(EntryRefused);
    }
    var written := tree.(entries := Perform(tree.entries, rel, w));
    var _ :- m.Commit(m.disk.(trees := m.disk.trees[stage := written]), m.spots[i := At(stage, written)]);
    return Ok(());
  }

  method PerformWrites(m: Machine, plan: Plan, journal: Journal, ghost t: Transaction) returns (r: Result<(), Error>)
    requires About(t, plan) && Inv(t, m.disk, m.spots) && m.disk.journal == Some(journal) && journal.phase == Staging
    requires StagedWith(t, journal, m.spots, [], |t.anchors|)
    modifies m
    ensures Inv(t, m.disk, m.spots) && m.disk.journal == Some(journal)
    ensures exists k: nat :: k <= |Writes(plan)| && StagedWith(t, journal, m.spots, Writes(plan)[..k], |t.anchors|)
    ensures r.Ok? ==> StagedWith(t, journal, m.spots, Writes(plan), |t.anchors|) && Stageable(plan)
    ensures r.Err? ==> Lost(m, r.error) || (r.error == EntryRefused && !Stageable(plan))
    ensures old(m.fuel) - |Writes(plan)| <= m.fuel
  {
    hide Inv, About, StagedWith, AnchorsOf, Writes, Refuses;
    AboutAnchors(t, plan);
    WritesCovered(plan);
    var writes := Writes(plan);
    assert writes[..0] == [];
    for k := 0 to |writes|
      invariant Inv(t, m.disk, m.spots) && m.disk.journal == Some(journal)
      invariant StagedWith(t, journal, m.spots, writes[..k], |t.anchors|)
      invariant forall n | 0 <= n < k :: !Refuses(t.anchors, writes, n)
      invariant old(m.fuel) - k <= m.fuel
    {
      assert writes[..k + 1] == writes[..k] + [writes[k]];
      RefusalIsLocal(t.anchors, writes, k);
      assert Covered(plan.Anchors(), writes[k].path);
      var _ :- PerformWrite(m, journal, writes[k], t, writes[..k]);
    }
    assert writes[..|writes|] == writes;
    return Ok(());
  }

  lemma RefusalIsLocal(anchors: seq<Path>, writes: seq<Write>, k: nat)
    requires k < |writes|
    ensures Refuses(anchors, writes[..k] + [writes[k]], k) == Refuses(anchors, writes, k)
  {
    assert (writes[..k] + [writes[k]])[..k] == writes[..k];
  }

  /** Rename each stage to its target and record it, the anchor with the configuration file last. */
  method CommitAnchors(m: Machine, plan: Plan, staged: Journal, ghost t: Transaction)
    returns (r: Result<(), Error>, journal: Journal)
    requires About(t, plan) && Inv(t, m.disk, m.spots) && m.disk.journal == Some(staged) && staged.phase == Staged
    requires CommittedExactly(t, staged, m.spots, [])
    modifies m
    ensures Inv(t, m.disk, m.spots) && m.disk.journal == Some(journal) && journal.phase != Verified
    ensures Kept(t, old(m.spots), m.spots) && ConfigLast(t, plan, m.spots)
    ensures r.Err? ==> Lost(m, r.error)
    ensures r.Ok? ==> CommittedExactly(t, journal, m.spots, CommitOrder(t.anchors, plan.target.ConfigFile()))
    ensures old(m.fuel) - 2 * |t.anchors| <= m.fuel
  {
    hide Inv, About, Kept, CommittedExactly, ConfigLast, AnchorsOf, CommitOrder;
    journal := staged;
    InvTargets(t, m.disk, m.spots);
    InvShape(t, m.disk, m.spots);
    var order := CommitOrder(TargetsOf(staged), plan.target.ConfigFile());
    CommitOrderVisitsEachOnce(t.anchors, plan.target.ConfigFile());
    InvValid(t, m.disk, m.spots);
    assert order[..0] == [];
    for k := 0 to |order|
      invariant Inv(t, m.disk, m.spots) && m.disk.journal == Some(journal) && journal.phase != Verified
      invariant |m.spots| == |t.anchors| == |journal.anchors|
      invariant Kept(t, old(m.spots), m.spots)
      invariant CommittedExactly(t, journal, m.spots, order[..k])
      invariant old(m.fuel) - 2 * k <= m.fuel
    {
      ConfigLastAt(t, plan, journal, m.spots, order, k);
      assert order[k] in order;
      var index := order[k];
      assert index !in order[..k];
      assert order[..k + 1] == order[..k] + [index];
      var anchor := journal.anchors[index];
      AnchorPaths(t, m.disk, m.spots, index);
      AnchorCommitted(t, m.disk, m.spots, order[..k], index);
      ghost var before := m.spots;
      var moved := At(anchor.target, m.disk.trees[anchor.stage]);
      var renamed := m.Commit(m.disk.(trees := Moved(m.disk.trees, anchor.stage, anchor.target)), m.spots[index := moved]);
      if renamed.Err? {
        return renamed, journal;
      }
      KeptTransitive(t, old(m.spots), before, m.spots);
      CommitRecorded(t, m.disk, m.spots, order[..k + 1], index);
      ConfigLastAt(t, plan, journal, m.spots, order, k + 1);
      var next := WithAnchor(journal, index, anchor.(committed := true)).(phase := Committing);
      var written := m.Commit(m.disk.(journal := Some(next)), m.spots);
      if written.Err? {
        return written, journal;
      }
      journal := next;
    }
    ConfigLastAt(t, plan, journal, m.spots, order, |order|);
    assert order[..|order|] == order;
    return Ok(()), journal;
  }

  lemma InvValid(t: Transaction, disk: Disk, spots: seq<Spot>)
    requires Inv(t, disk, spots)
    ensures t.Valid()
  {
  }

  lemma ReadyToCommit(t: Transaction, plan: Plan, disk: Disk, spots: seq<Spot>, staging: Journal)
    requires About(t, plan) && Inv(t, disk, spots) && disk.journal == Some(staging) && staging.phase == Staging
    requires StagedWith(t, staging, spots, Writes(plan), |t.anchors|)
    ensures var staged := staging.(phase := Staged);
      Inv(t, disk.(journal := Some(staged)), spots) && CommittedExactly(t, staged, spots, [])
    ensures AllAbsent(disk.trees, t.anchors)
  {
    hide AnchorsOf, Writes, Performed, Inv;
    PhaseReplaced(t, disk, spots, Staged);
    InvShape(t, disk, spots);
    AboutAnchors(t, plan);
    forall i: nat | i < |spots|
      ensures CommittedAt(t, staging.(phase := Staged), spots, [], i)
      ensures t.anchors[i] !in disk.trees
    {
      assert StagedAt(t, staging, spots, Writes(plan), |t.anchors|, i);
      assert t.contents[i] == Content(plan, i);
      OwnTree(t, disk, spots, i);
    }
  }

  lemma AllCommitted(t: Transaction, disk: Disk, spots: seq<Spot>, done: seq<int>)
    requires Inv(t, disk, spots) && disk.journal.value.phase != Verified
    requires VisitsEachOnce(done, |t.anchors|) && CommittedExactly(t, disk.journal.value, spots, done)
    ensures AllSettled(t, disk.journal.value, spots)
    ensures forall i | 0 <= i < |spots| :: spots[i].tree.marker == Some(t.id)
    ensures t.verifies ==> Inv(t, disk.(journal := Some(disk.journal.value.(phase := Verified))), spots)
  {
    forall i | 0 <= i < |spots|
      ensures Settled(t, i, disk.journal.value.anchors[i], spots[i]) && spots[i].tree.marker == Some(t.id)
    {
      assert CommittedAt(t, disk.journal.value, spots, done, i);
      assert i in done;
    }
    if t.verifies {
      PhaseReplaced(t, disk, spots, Verified);
    }
  }

  lemma VerifiedConfigLast(t: Transaction, plan: Plan, disk: Disk, spots: seq<Spot>)
    requires Inv(t, disk, spots) && disk.journal.value.phase == Verified
    ensures ConfigLast(t, plan, spots)
  {
    hide HoldsConfig;
    SettledInVerified(t, disk, spots);
    forall i: nat | i < |t.anchors|
      ensures AtTarget(t, spots, i)
    {
      assert Settled(t, i, disk.journal.value.anchors[i], spots[i]);
      TargetAndStageOwned(t, i);
    }
  }

  ghost predicate AllLanded(t: Transaction, spots: seq<Spot>) {
    |spots| == |t.anchors| && forall i: nat | i < |spots| :: Landed(t, spots, i)
  }

  lemma SettledLanded(t: Transaction, disk: Disk, spots: seq<Spot>)
    requires Inv(t, disk, spots) && AllSettled(t, disk.journal.value, spots)
    ensures AllLanded(t, spots)
  {
    forall i: nat | i < |spots|
      ensures Landed(t, spots, i)
    {
      assert Settled(t, i, disk.journal.value.anchors[i], spots[i]);
      TargetAndStageOwned(t, i);
    }
  }

  /** When every tree had landed, every one of them is in the archives. */
  lemma AllLandedArchived(t: Transaction, disk: Disk, before: seq<Spot>, after: seq<Spot>, archives: seq<Path>)
    requires AllLanded(t, before) && Kept(t, before, after) && Archived(t, disk, after, archives)
    ensures |archives| == |t.anchors|
  {
    forall i: nat | i < |after|
      ensures after[i].At?
    {
      assert Landed(t, before, i);
    }
    PathsOfAll(after);
  }

  lemma {:induction false} PathsOfAll(spots: seq<Spot>)
    requires forall i | 0 <= i < |spots| :: spots[i].At?
    ensures |PathsOf(spots)| == |spots|
  {
    if spots != [] {
      PathsOfAll(spots[..|spots| - 1]);
    }
  }

  /** Remove every owner marker, then the journal. */
  method Conclude(m: Machine, plan: Plan, journal: Journal, ghost t: Transaction) returns (r: Result<(), Error>)
    requires Inv(t, m.disk, m.spots) && m.disk.journal == Some(journal) && journal.phase == Verified
    modifies m
    ensures |m.spots| == |t.anchors| && ConfigLast(t, plan, m.spots)
    ensures r.Err? ==> Lost(m, r.error) && Inv(t, m.disk, m.spots)
    ensures r.Ok? ==> Whole(t, m.disk, m.spots)
    ensures old(m.fuel) - |t.anchors| - 1 <= m.fuel
  {
    hide Inv, Whole, Kept, ConfigLast;
    InvShape(t, m.disk, m.spots);
    for i := 0 to |journal.anchors|
      invariant Inv(t, m.disk, m.spots) && m.disk.journal == Some(journal)
      invariant |journal.anchors| == |t.anchors| == |m.spots|
      invariant forall k | 0 <= k < i :: m.spots[k].At? && m.spots[k].tree.marker == None
      invariant old(m.fuel) - i <= m.fuel
    {
      AnchorPaths(t, m.disk, m.spots, i);
      VerifiedConfigLast(t, plan, m.disk, m.spots);
      var _ :- m.RemoveOwnerMarkerIfPresent(journal.anchors[i].target, journal.transactionId, t, i);
      InvShape(t, m.disk, m.spots);
    }
    VerifiedConfigLast(t, plan, m.disk, m.spots);
    AllUnmarked(t, m.disk, m.spots);
    var _ :- m.Commit(m.disk.(journal := None), m.spots);
    return Ok(());
  }

  ghost predicate NoArchives(j: Journal) {
    forall i: nat | i < |j.anchors| :: j.anchors[i].archive.None?
  }

  lemma StagedNoArchives(t: Transaction, j: Journal, spots: seq<Spot>, writes: seq<Write>, n: nat)
    requires StagedWith(t, j, spots, writes, n)
    ensures NoArchives(j)
  {
    forall i: nat | i < |j.anchors|
      ensures j.anchors[i].archive.None?
    {
      assert StagedAt(t, j, spots, writes, n, i);
    }
  }

  lemma CommittedNoArchives(t: Transaction, j: Journal, spots: seq<Spot>, done: seq<int>)
    requires CommittedExactly(t, j, spots, done)
    ensures NoArchives(j)
  {
    forall i: nat | i < |j.anchors|
      ensures j.anchors[i].archive.None?
    {
      assert CommittedAt(t, j, spots, done, i);
    }
  }

  /** Trees set aside where no archive was journalled before went to the first names free from the start. */
  ghost predicate FirstNames(t: Transaction, spots: seq<Spot>) {
    && |spots| == |t.anchors|
    && forall i: nat | i < |spots| && spots[i].At? :: FirstFree(t.base, t.anchors[i], t.id, i, spots[i].path)
  }

  lemma AllNewlySetAside(t: Transaction, j: Journal, spots: seq<Spot>)
    requires NoArchives(j) && NewlySetAside(t, j, spots)
    ensures FirstNames(t, spots)
  {
    hide FirstFree;
  }

  function TransactionCost(plan: Plan): nat {
    4 * |plan.Anchors()| + |Writes(plan)| + 3
  }

  method ExecuteTransaction(m: Machine, plan: Plan, first: Journal, ghost t: Transaction)
    returns (r: Result<(), Error>, journal: Journal)
    requires About(t, plan) && Inv(t, m.disk, m.spots) && m.disk.journal == Some(first) && first.phase == Staging
    requires StagedWith(t, first, m.spots, [], 0)
    modifies m
    ensures |m.spots| == |t.anchors| && ConfigLast(t, plan, m.spots)
    ensures r.Ok? ==> Whole(t, m.disk, m.spots) && Stageable(plan)
    ensures r.Err? ==> Inv(t, m.disk, m.spots)
    ensures r.Err? ==> Lost(m, r.error) || (m.disk.journal == Some(journal) && journal.phase != Verified && NoArchives(journal))
    ensures r.Err? ==> Lost(m, r.error) || (r.error == EntryRefused && !Stageable(plan))
                       || (r.error == LayoutMismatch && Stageable(plan) && !LayoutVerifies(plan) && AllLanded(t, m.spots))
    ensures old(m.fuel) - TransactionCost(plan) <= m.fuel
  {
    hide Inv, Whole, Kept, ConfigLast, About, StagedWith, CommittedExactly, Stageable, LayoutVerifies, TargetVerifies,
      AllLanded, AllSettled, AnchorsOf, CommitOrder, Writes, VisitsEachOnce, NoArchives;
    journal := first;
    AboutAnchors(t, plan);
    InvShape(t, m.disk, m.spots);
    var made := CreateStages(m, journal, t);
    InvShape(t, m.disk, m.spots);
    ghost var n: nat :| StagedWith(t, journal, m.spots, [], n);
    NothingLanded(t, plan, journal, m.spots, [], n);
    if made.Err? {
      return made, journal;
    }
    var wrote := PerformWrites(m, plan, journal, t);
    InvShape(t, m.disk, m.spots);
    ghost var k: nat :| k <= |Writes(plan)| && StagedWith(t, journal, m.spots, Writes(plan)[..k], |t.anchors|);
    NothingLanded(t, plan, journal, m.spots, Writes(plan)[..k], |t.anchors|);
    StagedNoArchives(t, journal, m.spots, Writes(plan)[..k], |t.anchors|);
    if wrote.Err? {
      return wrote, journal;
    }
    ReadyToCommit(t, plan, m.disk, m.spots, journal);
    journal := journal.(phase := Staged);
    var staged := m.Commit(m.disk.(journal := Some(journal)), m.spots);
    if staged.Err? {
      return staged, journal;
    }
    if !AllAbsent(m.disk.trees, plan.Anchors()) {
      return Err(TargetExists), journal;
    }
    var committed: Result<(), Error>;
    committed, journal := CommitAnchors(m, plan, journal, t);
    InvShape(t, m.disk, m.spots);
    if committed.Err? {
      return committed, journal;
    }
    CommitOrderVisitsEachOnce(t.anchors, plan.target.ConfigFile());
    CommittedNoArchives(t, journal, m.spots, CommitOrder(t.anchors, plan.target.ConfigFile()));
    AllCommitted(t, m.disk, m.spots, CommitOrder(t.anchors, plan.target.ConfigFile()));
    SettledVerifies(t, m.disk, m.spots, plan, true);
    SettledLanded(t, m.disk, m.spots);
    InvTargets(t, m.disk, m.spots);
    InvVerifies(t, m.disk, m.spots);
    var verified := m.VerifyCommittedTarget(plan, TargetsOf(journal), journal.transactionId, true);
    if verified.Err? {
      return Err(LayoutMismatch), journal;
    }
    journal := journal.(phase := Verified);
    var recorded := m.Commit(m.disk.(journal := Some(journal)), m.spots);
    if recorded.Err? {
      return recorded, journal;
    }
    r := Conclude(m, plan, journal, t);
  }

  /** Migrate; a failure before verification is rolled back before it is reported. */
  method Execute(m: Machine, plan: Plan, tx: string, ghost t: Transaction) returns (report: Report)
    requires About(t, plan) && t.id == tx && t.base == m.disk.trees && ValidTransactionId(tx) && WellNamed(t.anchors, tx)
    requires JournalPath(t.target) !in t.anchors
    requires |m.spots| == |t.anchors| && forall i | 0 <= i < |m.spots| :: m.spots[i] == Nowhere
    modifies m
    ensures report.Refused? ==> m.disk == old(m.disk) && m.spots == old(m.spots)
    ensures report.Refused? <==> !Clear(t, old(m.disk))
    ensures report.Refused? ==> report.cause == Obstacle(t, old(m.disk))
    ensures report.Migrated? ==> Whole(t, m.disk, m.spots) && Stageable(plan) && LayoutVerifies(plan)
    ensures report.Undone? ==> Archived(t, m.disk, m.spots, report.archives) && FirstNames(t, m.spots)
    ensures report.Undone? || report.Stranded? ==>
              (report.cause == EntryRefused && !Stageable(plan))
              || (report.cause == LayoutMismatch && Stageable(plan) && !LayoutVerifies(plan))
    ensures report.Undone? && report.cause == LayoutMismatch ==> |report.archives| == |t.anchors|
    ensures report.Stranded? ==> Inv(t, m.disk, m.spots) && Stuck(t, m.spots, report.cleanup)
    ensures report.Interrupted? ==> m.fuel == 0
    ensures report.Interrupted? ==> Inv(t, m.disk, m.spots) || (m.disk == old(m.disk) && m.spots == old(m.spots))
    ensures old(m.fuel) - TransactionCost(plan) - 3 * |t.anchors| - 2 <= m.fuel
  {
    hide Inv, Whole, Archived, Kept, ConfigLast, About, StagedWith, Stageable, LayoutVerifies, AnchorsOf, Writes,
      WellNamed, Clear, Obstacle, TransactionCost, FirstJournal, AllLanded, JournalPath, NoArchives,
      FirstNames, NewlySetAside, SetAsideFirst;
    AboutAnchors(t, plan);
    var ready := Prepare(m, plan, tx, t);
    if ready.Err? {
      return if ready.error == PowerCut then Interrupted else Refused(ready.error);
    }
    FirstPhase(plan, tx);
    var done, journal := ExecuteTransaction(m, plan, FirstJournal(plan, tx), t);
    if done.Ok? {
      WholeVerifies(t, m.disk, m.spots);
      return Migrated;
    }
    if done.error == PowerCut {
      return Interrupted;
    }
    ghost var before := m.spots;
    var undone := m.Rollback(journal, t);
    match undone
    case Ok(archives) =>
      AllNewlySetAside(t, journal, m.spots);
      if done.error == LayoutMismatch {
        AllLandedArchived(t, m.disk, before, m.spots, archives);
      }
      return Undone(done.error, archives);
    case Err(cleanup) =>
      return if cleanup == PowerCut then Interrupted else Stranded(done.error, cleanup);
  }

  lemma FirstPhase(plan: Plan, tx: string)
    ensures FirstJournal(plan, tx).phase == Staging
  {
  }

  lemma WholeVerifies(t: Transaction, disk: Disk, spots: seq<Spot>)
    requires Whole(t, disk, spots)
    ensures t.verifies
  {
  }
}
