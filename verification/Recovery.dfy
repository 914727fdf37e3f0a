/** Rolling back or finalizing an interrupted migration, on a machine whose power may fail before any durable write. */
module Recovery {
  import opened Wrappers
  import opened Layout
  import opened Naming
  import opened StagedLayout
  import opened Disk

  datatype Error =
    | PowerCut
    | TargetExists
    | StageExists
    | JournalExists
    | JournalMismatch
    | OutsideLayout
    | LayoutMismatch
    | MarkerMismatch
    | MarkerMissing
    | EntryRefused
    | NoArchiveName
    | CommittedTargetMissing
    | TargetAndArchivePresent
    | TargetAndArchiveMissing

  datatype Outcome = NothingToRecover | Finalized | RolledBack(archives: seq<Path>)

  ghost function TransactionOf(plan: Plan, id: string, base: Trees): Transaction {
    Transaction(id, plan.legacy, plan.target, plan.Anchors(),
                seq(|plan.Anchors()|, i requires 0 <= i < |plan.Anchors()| => Content(plan, i)), base, LayoutVerifies(plan))
  }

  ghost predicate About(t: Transaction, plan: Plan) {
    t == TransactionOf(plan, t.id, t.base)
  }

  function Moved(trees: Trees, from: Path, to: Path): Trees
    requires from in trees
  {
    (trees - {from})[to := trees[from]]
  }

  // ---- One durable step keeps the crash invariant ----

  lemma SpotReplaced(t: Transaction, disk: Disk, spots: seq<Spot>, i: nat, next: Spot)
    requires Inv(t, disk, spots) && i < |spots|
    requires next.At? ==> OwnedSpot(t, i, next.path)
    requires AnchorInv(t, disk.journal.value, spots[i := next], i)
    ensures var cleared := if spots[i].At? then disk.trees - {spots[i].path} else disk.trees;
      Inv(t, disk.(trees := if next.At? then cleared[next.path := next.tree] else cleared), spots[i := next])
  {
    var spots' := spots[i := next];
    InvOwned(t, disk, spots);
    OwnedApart(t, spots');
    OverlayReplace(t.base, spots, i, next);
    forall k | 0 <= k < |spots'|
      ensures AnchorInv(t, disk.journal.value, spots', k)
    {
      assert k != i ==> AnchorInv(t, disk.journal.value, spots, k);
    }
  }

  function WithAnchor(j: Journal, i: nat, a: JournalAnchor): Journal
    requires i < |j.anchors|
  {
    j.(anchors := j.anchors[i := a])
  }

  lemma JournalReplaced(t: Transaction, disk: Disk, spots: seq<Spot>, i: nat, a: JournalAnchor, phase: Phase)
    requires Inv(t, disk, spots) && i < |spots| && disk.journal.value.phase != Verified && phase != Verified
    requires ValidJournalAnchor(a, t.anchors[i], t.id, i) && InFlight(t, i, a, spots[i])
    ensures Inv(t, disk.(journal := Some(WithAnchor(disk.journal.value, i, a).(phase := phase))), spots)
  {
    var j' := WithAnchor(disk.journal.value, i, a).(phase := phase);
    forall k | 0 <= k < |spots|
      ensures AnchorInv(t, j', spots, k)
    {
      assert k != i ==> AnchorInv(t, disk.journal.value, spots, k);
    }
  }

  lemma PhaseReplaced(t: Transaction, disk: Disk, spots: seq<Spot>, phase: Phase)
    requires Inv(t, disk, spots) && disk.journal.value.phase != Verified
    requires phase == Verified ==> t.verifies && forall i | 0 <= i < |spots| :: Settled(t, i, disk.journal.value.anchors[i], spots[i])
    ensures Inv(t, disk.(journal := Some(disk.journal.value.(phase := phase))), spots)
  {
    forall k | 0 <= k < |spots|
      ensures AnchorInv(t, disk.journal.value.(phase := phase), spots, k)
    {
      assert AnchorInv(t, disk.journal.value, spots, k);
    }
  }

  /** With its archive journalled, an anchor's tree is at exactly one of target and archive, and may move on. */
  lemma ArchiveReady(t: Transaction, disk: Disk, spots: seq<Spot>, i: nat, archive: Path)
    requires Inv(t, disk, spots) && i < |spots| && disk.journal.value.phase != Verified
    requires disk.journal.value.anchors[i].archive == Some(archive)
    ensures spots[i].At? && spots[i].tree.marker == Some(t.id) && archive != t.anchors[i]
    ensures t.anchors[i] in disk.trees <==> spots[i].path == t.anchors[i]
    ensures archive in disk.trees <==> spots[i].path == archive
    ensures spots[i].path == t.anchors[i] || spots[i].path == archive
    ensures spots[i].path in disk.trees && disk.trees[spots[i].path] == spots[i].tree
    ensures archive != t.Stage(i) && OwnedSpot(t, i, archive)
  {
    assert AnchorInv(t, disk.journal.value, spots, i);
    InvOwned(t, disk, spots);
    TargetAndStageOwned(t, i);
    HoldsOwnTree(t, disk, spots, i, t.anchors[i]);
    HoldsOwnTree(t, disk, spots, i, archive);
  }

  lemma ArchiveMove(t: Transaction, disk: Disk, spots: seq<Spot>, i: nat, archive: Path)
    requires Inv(t, disk, spots) && i < |spots| && disk.journal.value.phase != Verified
    requires disk.journal.value.anchors[i].archive == Some(archive) && t.anchors[i] in disk.trees
    ensures var next := spots[i := At(archive, disk.trees[t.anchors[i]])];
      Inv(t, disk.(trees := Moved(disk.trees, t.anchors[i], archive)), next) && Kept(t, spots, next)
  {
    ArchiveReady(t, disk, spots, i, archive);
    assert AnchorInv(t, disk.journal.value, spots, i);
    var next := At(archive, spots[i].tree);
    assert InFlight(t, i, disk.journal.value.anchors[i], next);
    SpotReplaced(t, disk, spots, i, next);
    MoveKeeps(t, spots, i, next);
  }

  lemma MoveKeeps(t: Transaction, spots: seq<Spot>, i: nat, next: Spot)
    requires i < |spots| == |t.anchors| && spots[i].At? && next.At?
    requires next.path != t.Stage(i) && next.tree.entries == spots[i].tree.entries
    ensures Kept(t, spots, spots[i := next])
  {
  }

  /** Before an archive is journalled, an anchor's tree is nowhere, staged, or whole at its target. */
  lemma TargetReady(t: Transaction, disk: Disk, spots: seq<Spot>, i: nat)
    requires Inv(t, disk, spots) && i < |spots| && disk.journal.value.phase != Verified
    requires disk.journal.value.anchors[i].archive == None
    ensures t.anchors[i] in disk.trees <==> spots[i].At? && spots[i].path == t.anchors[i]
    ensures t.anchors[i] in disk.trees ==> disk.trees[t.anchors[i]].marker == Some(t.id)
    ensures disk.journal.value.anchors[i].committed ==> t.anchors[i] in disk.trees
    ensures spots[i].At? && t.anchors[i] !in disk.trees ==> spots[i].path == t.Stage(i)
    ensures t.anchors[i] in disk.trees ==> Landed(t, spots, i)
  {
    assert AnchorInv(t, disk.journal.value, spots, i);
    InvOwned(t, disk, spots);
    TargetAndStageOwned(t, i);
    HoldsOwnTree(t, disk, spots, i, t.anchors[i]);
  }

  lemma ArchiveChosen(t: Transaction, disk: Disk, spots: seq<Spot>, i: nat, archive: Path)
    requires Inv(t, disk, spots) && i < |spots| && disk.journal.value.phase != Verified
    requires disk.journal.value.anchors[i].archive == None && t.anchors[i] in disk.trees
    requires IsArchive(t.anchors[i], t.id, i, archive) && archive !in disk.trees
    ensures var a := disk.journal.value.anchors[i].(archive := Some(archive));
      Inv(t, disk.(journal := Some(WithAnchor(disk.journal.value, i, a))), spots)
  {
    var j := disk.journal.value;
    var a := j.anchors[i].(archive := Some(archive));
    TargetReady(t, disk, spots, i);
    OverlayMeaning(t.base, spots, archive);
    assert AnchorInv(t, j, spots, i);
    assert ValidJournalAnchor(j.anchors[i], t.anchors[i], t.id, i);
    var k: nat :| k < ARCHIVE_ATTEMPTS && archive == ArchivePath(t.anchors[i], t.id, i, k);
    ArchivePathAccepted(t.anchors[i], t.id, i, k);
    TargetAndStageOwned(t, i);
    JournalReplaced(t, disk, spots, i, a, j.phase);
    assert WithAnchor(j, i, a).(phase := j.phase) == WithAnchor(j, i, a);
  }

  /** Every archive name for the anchor was taken before the migration began. */
  ghost predicate NoRoom(t: Transaction, i: nat) {
    i < |t.anchors| && forall k: nat | k < ARCHIVE_ATTEMPTS :: ArchivePath(t.anchors[i], t.id, i, k) in t.base
  }

  lemma TakenFromTheStart(t: Transaction, disk: Disk, spots: seq<Spot>, i: nat)
    requires Inv(t, disk, spots) && i < |spots| && disk.journal.value.phase != Verified
    requires disk.journal.value.anchors[i].archive == None && t.anchors[i] in disk.trees
    requires forall k: nat | k < ARCHIVE_ATTEMPTS :: ArchivePath(t.anchors[i], t.id, i, k) in disk.trees
    ensures NoRoom(t, i)
  {
    TargetReady(t, disk, spots, i);
    InvOwned(t, disk, spots);
    forall k: nat | k < ARCHIVE_ATTEMPTS
      ensures ArchivePath(t.anchors[i], t.id, i, k) in t.base
    {
      var p := ArchivePath(t.anchors[i], t.id, i, k);
      assert p != t.anchors[i];
      if p !in t.base {
        assert OwnedSpot(t, i, p);
        HoldsOwnTree(t, disk, spots, i, p);
      }
    }
  }

  /** The least of an anchor's archive names that is free among `trees`. */
  ghost predicate FirstFree(trees: Trees, target: Path, tx: string, i: nat, p: Path) {
    exists k: nat :: k < ARCHIVE_ATTEMPTS && p == ArchivePath(target, tx, i, k) && p !in trees
                     && forall l: nat | l < k :: ArchivePath(target, tx, i, l) in trees
  }

  /** Until an anchor's archive is journalled, its archive names are taken exactly where they were from the start. */
  lemma FirstFreeOfBase(t: Transaction, disk: Disk, spots: seq<Spot>, i: nat, p: Path)
    requires Inv(t, disk, spots) && i < |spots| && disk.journal.value.phase != Verified
    requires disk.journal.value.anchors[i].archive == None
    ensures FirstFree(disk.trees, t.anchors[i], t.id, i, p) <==> FirstFree(t.base, t.anchors[i], t.id, i, p)
  {
    hide Inv, OwnedSpot, StagePath, ArchivePath;
    InvShape(t, disk, spots);
    forall k: nat
      ensures ArchivePath(t.anchors[i], t.id, i, k) in disk.trees <==> ArchivePath(t.anchors[i], t.id, i, k) in t.base
    {
      ArchiveOfBase(t, disk, spots, i, k);
    }
  }

  lemma ArchiveOfBase(t: Transaction, disk: Disk, spots: seq<Spot>, i: nat, k: nat)
    requires Inv(t, disk, spots) && i < |spots| && disk.journal.value.phase != Verified
    requires disk.journal.value.anchors[i].archive == None
    ensures ArchivePath(t.anchors[i], t.id, i, k) in disk.trees <==> ArchivePath(t.anchors[i], t.id, i, k) in t.base
  {
    var p := ArchivePath(t.anchors[i], t.id, i, k);
    TargetReady(t, disk, spots, i);
    InvOwned(t, disk, spots);
    assert p != t.anchors[i] && p != t.Stage(i);
    if p !in t.base {
      assert OwnedSpot(t, i, p);
      HoldsOwnTree(t, disk, spots, i, p);
    } else {
      OverlayMeaning(t.base, spots, p);
    }
  }

  /** An archive once journalled stays; a new one is the first free name. */
  ghost predicate FirstArchive(t: Transaction, before: JournalAnchor, after: JournalAnchor, i: nat)
    requires i < |t.anchors|
  {
    && (before.archive.Some? ==> after.archive == before.archive)
    && (before.archive.None? && after.archive.Some? ==> FirstFree(t.base, t.anchors[i], t.id, i, after.archive.value))
  }

  ghost predicate JournalledFirst(t: Transaction, before: Journal, after: Journal, i: nat)
    requires i < |before.anchors| == |t.anchors|
  {
    exists archive :: FirstFree(t.base, t.anchors[i], t.id, i, archive)
      && after == WithAnchor(before, i, before.anchors[i].(archive := Some(archive)))
  }

  /** Trees without a journalled archive were set aside under the first name free from the start. */
  ghost predicate NewlySetAside(t: Transaction, j: Journal, spots: seq<Spot>) {
    && |spots| == |t.anchors| == |j.anchors|
    && forall i: nat | i < |spots| && spots[i].At? && j.anchors[i].archive.None? ::
         FirstFree(t.base, t.anchors[i], t.id, i, spots[i].path)
  }

  /** Every tree set aside went to the archive journalled for it on `disk`, or else to the first name free there. */
  ghost predicate SetAsideFirst(disk: Disk, spots: seq<Spot>) {
    disk.journal.Some? && |disk.journal.value.anchors| == |spots|
    && forall i | 0 <= i < |spots| && spots[i].At? :: SetAsideAt(disk, spots[i].path, i)
  }

  ghost predicate SetAsideAt(disk: Disk, p: Path, i: nat)
    requires disk.journal.Some? && i < |disk.journal.value.anchors|
  {
    var j := disk.journal.value;
    if j.anchors[i].archive.Some? then p == j.anchors[i].archive.value
    else FirstFree(disk.trees, j.anchors[i].target, j.transactionId, i, p)
  }

  lemma SetAsideFromStart(t: Transaction, start: Disk, before: seq<Spot>, j: Journal, spots: seq<Spot>)
    requires Inv(t, start, before) && start.journal.value.phase != Verified && |spots| == |before| == |j.anchors|
    requires |start.journal.value.anchors| == |t.anchors| == |spots|
    requires forall k: nat | k < |spots| :: RolledOff(t, j, spots, k)
    requires forall k: nat | k < |spots| :: FirstArchive(t, start.journal.value.anchors[k], j.anchors[k], k)
    ensures SetAsideFirst(start, spots) && NewlySetAside(t, start.journal.value, spots)
  {
    hide FirstFree, Inv;
    InvShape(t, start, before);
    forall i: nat | i < |spots| && spots[i].At?
      ensures SetAsideAt(start, spots[i].path, i)
      ensures start.journal.value.anchors[i].archive.None? ==> FirstFree(t.base, t.anchors[i], t.id, i, spots[i].path)
    {
      assert RolledOff(t, j, spots, i) && FirstArchive(t, start.journal.value.anchors[i], j.anchors[i], i);
      AnchorPaths(t, start, before, i);
      if start.journal.value.anchors[i].archive.None? {
        FirstFreeOfBase(t, start, before, i, spots[i].path);
      }
    }
  }

  /** The anchor's tree has left its stage for good: nothing of it remains but, if it had landed, its archive. */
  ghost predicate RolledOff(t: Transaction, j: Journal, spots: seq<Spot>, i: nat)
    requires i < |spots| == |t.anchors| == |j.anchors|
  {
    spots[i] == Nowhere || (j.anchors[i].archive.Some? && spots[i].At? && spots[i].path == j.anchors[i].archive.value)
  }

  /** The archive paths journalled for the first `n` anchors, in order. */
  function ArchivesOf(anchors: seq<JournalAnchor>): seq<Path> {
    if anchors == [] then []
    else
      var n := |anchors| - 1;
      ArchivesOf(anchors[..n]) + if anchors[n].archive.Some? then [anchors[n].archive.value] else []
  }

  /** The tree rests, whole, in a fresh archive. */
  ghost predicate InArchive(t: Transaction, i: nat, spot: Spot)
    requires i < |t.anchors| == |t.contents|
  {
    && spot.At? && IsArchive(t.anchors[i], t.id, i, spot.path) && spot.path !in t.base
    && spot.tree.entries == t.contents[i]
  }

  /** Rolled back: no journal, no stage, nothing at a target, and exactly the landed trees in the listed archives. */
  ghost predicate Archived(t: Transaction, disk: Disk, spots: seq<Spot>, archives: seq<Path>) {
    && t.Valid() && disk.journal == None && |spots| == |t.anchors|
    && Apart(t.base, spots) && disk.trees == Overlay(t.base, spots)
    && (forall i | 0 <= i < |spots| :: spots[i] == Nowhere || InArchive(t, i, spots[i]))
    && archives == PathsOf(spots)
  }

  ghost function PathsOf(spots: seq<Spot>): seq<Path> {
    if spots == [] then []
    else
      var n := |spots| - 1;
      PathsOf(spots[..n]) + if spots[n].At? then [spots[n].path] else []
  }

  lemma {:induction false} ArchivesArePaths(anchors: seq<JournalAnchor>, spots: seq<Spot>)
    requires |anchors| == |spots|
    requires forall i | 0 <= i < |spots| ::
      if spots[i].At? then anchors[i].archive == Some(spots[i].path) else anchors[i].archive == None
    ensures ArchivesOf(anchors) == PathsOf(spots)
  {
    if spots != [] {
      ArchivesArePaths(anchors[..|spots| - 1], spots[..|spots| - 1]);
    }
  }

  lemma AllRolledOff(t: Transaction, disk: Disk, spots: seq<Spot>)
    requires Inv(t, disk, spots) && disk.journal.value.phase != Verified
    requires forall i | 0 <= i < |spots| :: RolledOff(t, disk.journal.value, spots, i)
    ensures Archived(t, disk.(journal := None), spots, ArchivesOf(disk.journal.value.anchors))
  {
    var j := disk.journal.value;
    forall i | 0 <= i < |spots|
      ensures spots[i] == Nowhere || InArchive(t, i, spots[i])
      ensures if spots[i].At? then j.anchors[i].archive == Some(spots[i].path) else j.anchors[i].archive == None
    {
      assert AnchorInv(t, j, spots, i) && RolledOff(t, j, spots, i);
    }
    ArchivesArePaths(j.anchors, spots);
  }

  lemma InvShape(t: Transaction, disk: Disk, spots: seq<Spot>)
    requires Inv(t, disk, spots)
    ensures disk.journal.Some? && |disk.journal.value.anchors| == |t.anchors| == |spots| && Kept(t, spots, spots)
  {
  }

  lemma InvVerifies(t: Transaction, disk: Disk, spots: seq<Spot>)
    requires Inv(t, disk, spots)
    ensures disk.journal.value.transactionId == t.id
    ensures disk.journal.value.phase == Verified ==> t.verifies
  {
  }

  lemma AnchorPaths(t: Transaction, disk: Disk, spots: seq<Spot>, i: nat)
    requires Inv(t, disk, spots) && i < |spots|
    ensures var j := disk.journal.value;
      |j.anchors| == |spots| == |t.anchors| && j.transactionId == t.id
      && j.anchors[i].target == t.anchors[i] && j.anchors[i].stage == t.Stage(i)
  {
    assert ValidJournalAnchor(disk.journal.value.anchors[i], t.anchors[i], t.id, i);
  }

  lemma Unchanged(t: Transaction, j: Journal, j': Journal, before: seq<Spot>, after: seq<Spot>, n: nat)
    requires n <= |before| == |after| == |t.anchors| == |j.anchors| == |j'.anchors|
    requires forall k | 0 <= k < n :: before[k] == after[k] && j.anchors[k] == j'.anchors[k]
    requires forall k | 0 <= k < n :: RolledOff(t, j, before, k)
    ensures forall k | 0 <= k < n :: RolledOff(t, j', after, k)
  {
    forall k | 0 <= k < n
      ensures RolledOff(t, j', after, k)
    {
      assert RolledOff(t, j, before, k);
    }
  }

  lemma NoneArchived(anchors: seq<JournalAnchor>)
    ensures ArchivesOf(anchors[..0]) == []
  {
  }

  lemma ArchivesSnoc(before: seq<JournalAnchor>, after: seq<JournalAnchor>, n: nat)
    requires n < |before| == |after|
    requires forall k | 0 <= k < n :: before[k] == after[k]
    ensures ArchivesOf(after[..n + 1])
            == ArchivesOf(before[..n]) + if after[n].archive.Some? then [after[n].archive.value] else []
  {
    assert before[..n] == after[..n] == after[..n + 1][..n];
  }

  /** Recovery cannot go on: some tree that has landed finds every one of its archive names taken from the start. */
  ghost predicate Stuck(t: Transaction, spots: seq<Spot>, error: Error) {
    error == NoArchiveName && exists i: nat :: NoRoom(t, i) && Landed(t, spots, i)
  }

  lemma StuckForGood(t: Transaction, before: seq<Spot>, after: seq<Spot>)
    requires Stuck(t, before, NoArchiveName) && Kept(t, before, after)
    ensures Stuck(t, after, NoArchiveName)
  {
    var i: nat :| NoRoom(t, i) && Landed(t, before, i);
    assert Landed(t, after, i);
  }

  /** A journalled tree stands at its target, has no archive yet, and all its archive names are taken on the disk as it is. */
  predicate Exhausted(disk: Disk) {
    disk.journal.Some? && exists i | 0 <= i < |disk.journal.value.anchors| :: NamesTaken(disk, i)
  }

  predicate NamesTaken(disk: Disk, i: nat)
    requires disk.journal.Some? && i < |disk.journal.value.anchors|
  {
    var j := disk.journal.value;
    && j.anchors[i].archive.None? && j.anchors[i].target in disk.trees
    && forall k: nat | k < ARCHIVE_ATTEMPTS :: ArchivePath(j.anchors[i].target, j.transactionId, i, k) in disk.trees
  }

  /** What stops a rollback can be read off the disk before it starts. */
  lemma StuckIffExhausted(t: Transaction, disk: Disk, spots: seq<Spot>)
    requires Inv(t, disk, spots) && disk.journal.value.phase != Verified
    ensures Stuck(t, spots, NoArchiveName) <==> Exhausted(disk)
  {
    InvShape(t, disk, spots);
    forall i: nat | i < |spots|
      ensures NoRoom(t, i) && Landed(t, spots, i) <==> NamesTaken(disk, i)
    {
      LandedWithoutRoom(t, disk, spots, i);
    }
  }

  lemma LandedWithoutRoom(t: Transaction, disk: Disk, spots: seq<Spot>, i: nat)
    requires Inv(t, disk, spots) && disk.journal.value.phase != Verified && i < |spots| == |disk.journal.value.anchors|
    ensures NoRoom(t, i) && Landed(t, spots, i) <==> NamesTaken(disk, i)
  {
    hide Overlay, Owned, StagePath, ArchivePath;
    AnchorPaths(t, disk, spots, i);
    if NamesTaken(disk, i) {
      TakenFromTheStart(t, disk, spots, i);
      TargetReady(t, disk, spots, i);
    } else if NoRoom(t, i) && Landed(t, spots, i) {
      assert AnchorInv(t, disk.journal.value, spots, i);
      TargetReady(t, disk, spots, i);
      forall k: nat | k < ARCHIVE_ATTEMPTS
        ensures ArchivePath(t.anchors[i], t.id, i, k) in disk.trees
      {
        OverlayMeaning(t.base, spots, ArchivePath(t.anchors[i], t.id, i, k));
      }
    }
  }

  /** A stuck tree cannot have been archived. */
  lemma StuckNotArchived(t: Transaction, before: seq<Spot>, disk: Disk, after: seq<Spot>, archives: seq<Path>)
    requires Stuck(t, before, NoArchiveName) && Kept(t, before, after)
    ensures !Archived(t, disk, after, archives)
  {
    StuckForGood(t, before, after);
    var i: nat :| NoRoom(t, i) && Landed(t, after, i);
  }

  // ---- Finalizing ----

  /** What the committed target must look like: every planned path, nothing else, and no foreign marker. */
  predicate TargetVerifies(trees: Trees, plan: Plan, targets: seq<Path>, tx: string, requireMarkers: bool) {
    |targets| == |plan.Anchors()| && VendorStands(trees, plan, targets)
    && forall i | 0 <= i < |targets| :: AnchorVerifies(trees, plan, targets, tx, requireMarkers, i)
  }

  /** Below the target's vendor root lie exactly the planned vendor entries. */
  predicate VendorStands(trees: Trees, plan: Plan, targets: seq<Path>) {
    var (i, root) := VendorPlace(plan.target);
    i < |targets| && targets[i] in trees && VendorMatches(trees[targets[i]].entries, root, Planned(plan.vendor))
  }

  predicate AnchorVerifies(trees: Trees, plan: Plan, targets: seq<Path>, tx: string, requireMarkers: bool, i: nat)
    requires i < |targets| == |plan.Anchors()|
  {
    && targets[i] in trees
    && (trees[targets[i]].marker == Some(tx) || (trees[targets[i]].marker == None && !requireMarkers))
    && trees[targets[i]].entries == Expected(plan.Anchors(), Writes(plan), i)
  }

  /** What a failed verification reports: a tree missing or not as planned, a foreign marker, or a required one gone. */
  ghost predicate VerificationFails(trees: Trees, plan: Plan, targets: seq<Path>, tx: string, requireMarkers: bool, error: Error)
    requires |targets| == |plan.Anchors()|
  {
    match error
    case LayoutMismatch =>
      !VendorStands(trees, plan, targets)
      || exists i | 0 <= i < |targets| ::
           targets[i] !in trees || trees[targets[i]].entries != Expected(plan.Anchors(), Writes(plan), i)
    case MarkerMismatch => exists i | 0 <= i < |targets| :: targets[i] in trees && trees[targets[i]].marker !in {None, Some(tx)}
    case MarkerMissing => requireMarkers && exists i | 0 <= i < |targets| :: targets[i] in trees && trees[targets[i]].marker == None
    case _ => false
  }

  /** Every anchor's tree is at its target, whatever its marker. */
  ghost predicate AllSettled(t: Transaction, j: Journal, spots: seq<Spot>) {
    && |spots| == |t.anchors| == |t.contents| == |j.anchors|
    && forall i | 0 <= i < |spots| :: Settled(t, i, j.anchors[i], spots[i])
  }

  function TargetsOf(j: Journal): seq<Path> {
    seq(|j.anchors|, i requires 0 <= i < |j.anchors| => j.anchors[i].target)
  }

  lemma InvTargets(t: Transaction, disk: Disk, spots: seq<Spot>)
    requires Inv(t, disk, spots)
    ensures TargetsOf(disk.journal.value) == t.anchors
  {
    var j := disk.journal.value;
    forall i | 0 <= i < |t.anchors|
      ensures j.anchors[i].target == t.anchors[i]
    {
      assert ValidJournalAnchor(j.anchors[i], t.anchors[i], t.id, i);
    }
  }

  /** A settled target passes verification exactly when the plan's layout does and no required marker is gone. */
  lemma SettledVerifies(t: Transaction, disk: Disk, spots: seq<Spot>, plan: Plan, requireMarkers: bool)
    requires Inv(t, disk, spots) && About(t, plan) && AllSettled(t, disk.journal.value, spots)
    requires requireMarkers ==> forall i | 0 <= i < |spots| :: spots[i].tree.marker == Some(t.id)
    ensures TargetVerifies(disk.trees, plan, t.anchors, t.id, requireMarkers) == t.verifies
  {
    hide AnchorsOf, Writes, Performed, Expected, VendorMatches, VendorPlace, Planned;
    var anchors, writes := plan.Anchors(), Writes(plan);
    forall i | 0 <= i < |spots|
      ensures t.anchors[i] in disk.trees && disk.trees[t.anchors[i]].entries == Content(plan, i)
      ensures AnchorVerifies(disk.trees, plan, t.anchors, t.id, requireMarkers, i) == Alike(anchors, writes, i)
    {
      assert Settled(t, i, disk.journal.value.anchors[i], spots[i]);
      OverlayMeaning(t.base, spots, t.anchors[i]);
      assert t.contents[i] == Content(plan, i);
    }
    assert VendorStands(disk.trees, plan, t.anchors) == VendorExact(plan);
    assert t.verifies == (VendorExact(plan) && forall i | 0 <= i < |anchors| :: Alike(anchors, writes, i));
  }

  /** Finished: no journal, and every anchor's tree whole at its target without a marker. */
  ghost predicate Whole(t: Transaction, disk: Disk, spots: seq<Spot>) {
    && t.Valid() && t.verifies && disk.journal == None && |spots| == |t.anchors|
    && Apart(t.base, spots) && disk.trees == Overlay(t.base, spots)
    && forall i | 0 <= i < |spots| :: spots[i] == At(t.anchors[i], Tree(None, t.contents[i]))
  }

  lemma AboutAnchors(t: Transaction, plan: Plan)
    requires About(t, plan)
    ensures t.anchors == plan.Anchors() && |t.contents| == |t.anchors| && t.verifies == LayoutVerifies(plan)
    ensures t.legacy == plan.legacy && t.target == plan.target
  {
  }

  lemma SettledInVerified(t: Transaction, disk: Disk, spots: seq<Spot>)
    requires Inv(t, disk, spots) && disk.journal.value.phase == Verified
    ensures AllSettled(t, disk.journal.value, spots)
  {
    forall i | 0 <= i < |spots|
      ensures Settled(t, i, disk.journal.value.anchors[i], spots[i])
    {
      assert AnchorInv(t, disk.journal.value, spots, i);
    }
  }

  lemma MarkerRemoved(t: Transaction, disk: Disk, spots: seq<Spot>, i: nat)
    requires Inv(t, disk, spots) && disk.journal.value.phase == Verified && i < |spots|
    ensures var p := t.anchors[i];
      && p in disk.trees && spots[i] == At(p, disk.trees[p])
      && (disk.trees[p].marker == None || disk.trees[p].marker == Some(t.id))
      && t.Stage(i) !in disk.trees
      && var next := spots[i := At(p, disk.trees[p].(marker := None))];
      Inv(t, disk.(trees := disk.trees[p := disk.trees[p].(marker := None)]), next) && Kept(t, spots, next)
  {
    hide Overlay, Apart, Owned, WellNamed, ValidJournal, StagePath;
    var p := t.anchors[i];
    InvShape(t, disk, spots);
    assert AnchorInv(t, disk.journal.value, spots, i);
    InvOwned(t, disk, spots);
    TargetAndStageOwned(t, i);
    HoldsOwnTree(t, disk, spots, i, p);
    HoldsOwnTree(t, disk, spots, i, t.Stage(i));
    var next := At(p, disk.trees[p].(marker := None));
    SpotReplaced(t, disk, spots, i, next);
    assert (disk.trees - {p})[p := next.tree] == disk.trees[p := next.tree];
    MoveKeeps(t, spots, i, next);
  }

  lemma AllUnmarked(t: Transaction, disk: Disk, spots: seq<Spot>)
    requires Inv(t, disk, spots) && disk.journal.value.phase == Verified
    requires forall k | 0 <= k < |spots| :: spots[k].At? && spots[k].tree.marker == None
    ensures Whole(t, disk.(journal := None), spots)
  {
    forall k | 0 <= k < |spots|
      ensures spots[k] == At(t.anchors[k], Tree(None, t.contents[k]))
    {
      assert AnchorInv(t, disk.journal.value, spots, k);
    }
  }

  class Machine {
    var disk: Disk
    /** Durable writes left before the power fails. */
    var fuel: nat
    ghost var spots: seq<Spot>

    constructor (disk: Disk, fuel: nat, ghost spots: seq<Spot>)
      ensures this.disk == disk && this.fuel == fuel && this.spots == spots
    {
      this.disk := disk;
      this.fuel := fuel;
      this.spots := spots;
    }

    /** One atomic durable write, unless the power fails first. */
    method Commit(next: Disk, ghost nextSpots: seq<Spot>) returns (r: Result<(), Error>)
      modifies this
      ensures r.Ok? <==> old(fuel) > 0
      ensures r.Ok? ==> disk == next && spots == nextSpots && fuel == old(fuel) - 1
      ensures r.Err? ==> r.error == PowerCut && disk == old(disk) && spots == old(spots) && fuel == 0
    {
      if fuel == 0 {
        return Err(PowerCut);
      }
      disk, spots, fuel := next, nextSpots, fuel - 1;
      return Ok(());
    }

    // ---- Rollback ----

    /** The first free archive name beside the target. */
    method ChooseArchivePath(target: Path, tx: string, index: nat) returns (r: Result<Path, Error>)
      ensures r.Ok? ==> FirstFree(disk.trees, target, tx, index, r.value)
      ensures r.Ok? ==> IsArchive(target, tx, index, r.value) && r.value !in disk.trees
      ensures r.Err? ==> r.error == NoArchiveName
                         && forall k: nat | k < ARCHIVE_ATTEMPTS :: ArchivePath(target, tx, index, k) in disk.trees
    {
      for k := 0 to ARCHIVE_ATTEMPTS
        invariant forall l: nat | l < k :: ArchivePath(target, tx, index, l) in disk.trees
      {
        var candidate := ArchivePath(target, tx, index, k);
        if candidate !in disk.trees {
          return Ok(candidate);
        }
      }
      return Err(NoArchiveName);
    }

    method ArchiveCommittedTarget(target: Path, archive: Path, tx: string, ghost t: Transaction, ghost i: nat)
      returns (r: Result<(), Error>)
      requires Inv(t, disk, spots) && i < |spots| && disk.journal.value.phase != Verified
      requires target == t.anchors[i] && disk.journal.value.anchors[i].archive == Some(archive) && tx == t.id
      modifies this
      ensures r.Err? ==> r.error == PowerCut && fuel == 0
      ensures old(fuel) - 1 <= fuel
      ensures Inv(t, disk, spots) && disk.journal == old(disk.journal)
      ensures Kept(t, old(spots), spots) && forall k | 0 <= k < |spots| && k != i :: spots[k] == old(spots[k])
      ensures r.Ok? ==> spots[i].At? && spots[i].path == archive
    {
      ArchiveReady(t, disk, spots, i, archive);
      if target in disk.trees && archive !in disk.trees {
        if disk.trees[target].marker != Some(tx) {
          return Err(MarkerMismatch);
        }
        ArchiveMove(t, disk, spots, i, archive);
        var _ :- Commit(disk.(trees := Moved(disk.trees, target, archive)), spots[i := At(archive, disk.trees[target])]);
        if disk.trees[archive].marker != Some(tx) {
          return Err(MarkerMismatch);
        }
      } else if target !in disk.trees && archive in disk.trees {
        if disk.trees[archive].marker != Some(tx) {
          return Err(MarkerMismatch);
        }
      } else if target in disk.trees {
        return Err(TargetAndArchivePresent);
      } else {
        return Err(TargetAndArchiveMissing);
      }
      return Ok(());
    }

    method RemoveOwnedTreeIfPresent(path: Path, tx: string, ghost t: Transaction, ghost i: nat)
      returns (r: Result<(), Error>)
      requires Inv(t, disk, spots) && i < |spots|
      requires path == t.Stage(i) && tx == t.id
      modifies this
      ensures r.Err? ==> r.error == PowerCut && fuel == 0
      ensures old(fuel) - 1 <= fuel
      ensures Inv(t, disk, spots) && disk.journal == old(disk.journal) && Kept(t, old(spots), spots)
      ensures r.Err? ==> spots == old(spots)
      ensures r.Ok? ==> spots == if old(spots[i]).At? && old(spots[i]).path == path then old(spots)[i := Nowhere] else old(spots)
    {
      assert AnchorInv(t, disk.journal.value, spots, i);
      InvOwned(t, disk, spots);
      TargetAndStageOwned(t, i);
      HoldsOwnTree(t, disk, spots, i, path);
      if path !in disk.trees {
        return Ok(());
      }
      if disk.trees[path].marker != Some(tx) {
        return Err(MarkerMismatch);
      }
      SpotReplaced(t, disk, spots, i, Nowhere);
      var _ :- Commit(disk.(trees := disk.trees - {path}), spots[i := Nowhere]);
      return Ok(());
    }

    /** Choose an archive name for the tree at the target and journal it. */
    method JournalArchive(migration: Journal, index: nat, ghost t: Transaction)
      returns (r: Result<(), Error>, next: Journal)
      requires Inv(t, disk, spots) && disk.journal == Some(migration) && migration.phase != Verified
      requires index < |spots| && |migration.anchors| == |spots| == |t.anchors|
      requires migration.anchors[index].archive.None? && t.anchors[index] in disk.trees
      modifies this
      ensures r.Err? ==> (r.error == PowerCut && fuel == 0)
                         || (r.error == NoArchiveName && NoRoom(t, index) && Landed(t, spots, index))
      ensures old(fuel) - 1 <= fuel && spots == old(spots) && disk.trees == old(disk.trees)
      ensures Inv(t, disk, spots) && disk.journal == Some(next)
      ensures r.Err? ==> next == migration
      ensures r.Ok? ==> JournalledFirst(t, migration, next, index)
    {
      hide Inv, OwnedSpot, IsArchive, NoRoom, Landed, ArchivePath, FirstFree;
      next := migration;
      AnchorPaths(t, disk, spots, index);
      TargetReady(t, disk, spots, index);
      var target, tx := migration.anchors[index].target, migration.transactionId;
      if disk.trees[target].marker != Some(tx) {
        return Err(MarkerMismatch), next;
      }
      var chosen := ChooseArchivePath(target, tx, index);
      if chosen.Err? {
        TakenFromTheStart(t, disk, spots, index);
        return Err(chosen.error), next;
      }
      FirstFreeOfBase(t, disk, spots, index, chosen.value);
      ArchiveChosen(t, disk, spots, index, chosen.value);
      var journalled := WithAnchor(migration, index, migration.anchors[index].(archive := Some(chosen.value)));
      var _ :- Commit(disk.(journal := Some(journalled)), spots);
      return Ok(()), journalled;
    }

    method RollbackAnchor(migration: Journal, index: nat, ghost t: Transaction)
      returns (r: Result<(), Error>, next: Journal)
      requires Inv(t, disk, spots) && disk.journal == Some(migration) && migration.phase != Verified
      requires index < |spots|
      modifies this
      ensures r.Err? ==> (r.error == PowerCut && fuel == 0)
                         || (r.error == NoArchiveName && NoRoom(t, index) && Landed(t, old(spots), index))
      ensures old(fuel) - 3 <= fuel
      ensures Inv(t, disk, spots) && disk.journal == Some(next) && next.phase == migration.phase
      ensures Kept(t, old(spots), spots)
      ensures forall k | 0 <= k < |spots| && k != index :: spots[k] == old(spots[k]) && next.anchors[k] == migration.anchors[k]
      ensures r.Ok? ==> RolledOff(t, next, spots, index)
      ensures FirstArchive(t, migration.anchors[index], next.anchors[index], index)
    {
      hide Inv, Kept, OwnedSpot, IsArchive, NoRoom, Landed, ArchivePath, FirstFree;
      InvShape(t, disk, spots);
      AnchorPaths(t, disk, spots, index);
      next := migration;
      var target, tx := migration.anchors[index].target, migration.transactionId;
      var targetExists := target in disk.trees;
      if next.anchors[index].archive.None? {
        TargetReady(t, disk, spots, index);
      }
      if targetExists && next.anchors[index].archive.None? {
        var journalled: Result<(), Error>;
        journalled, next := JournalArchive(next, index, t);
        if journalled.Err? {
          return journalled, next;
        }
      }
      if !targetExists && next.anchors[index].committed && next.anchors[index].archive.None? {
        return Err(CommittedTargetMissing), next;
      }
      if next.anchors[index].archive.Some? {
        var _ :- ArchiveCommittedTarget(target, next.anchors[index].archive.value, tx, t, index);
        ArchiveReady(t, disk, spots, index, next.anchors[index].archive.value);
      }
      InvShape(t, disk, spots);
      ghost var before := spots;
      var _ :- RemoveOwnedTreeIfPresent(next.anchors[index].stage, tx, t, index);
      KeptTransitive(t, old(spots), before, spots);
      return Ok(()), next;
    }

    method Rollback(migration: Journal, ghost t: Transaction) returns (r: Result<seq<Path>, Error>)
      requires Inv(t, disk, spots) && disk.journal == Some(migration) && migration.phase != Verified
      modifies this
      ensures Kept(t, old(spots), spots)
      ensures r.Err? ==> Inv(t, disk, spots) && disk.journal.Some? && disk.journal.value.phase == migration.phase
      ensures r.Err? ==> (r.error == PowerCut && fuel == 0) || (Stuck(t, old(spots), r.error) && Stuck(t, spots, r.error))
      ensures r.Ok? ==> Archived(t, disk, spots, r.value) && SetAsideFirst(old(disk), spots)
                        && NewlySetAside(t, migration, spots)
      ensures old(fuel) - 3 * |t.anchors| - 1 <= fuel
    {
      hide Inv, Kept, RolledOff, Archived, NoRoom, FirstArchive, SetAsideFirst, NewlySetAside, ArchivesOf, WithAnchor;
      InvShape(t, disk, spots);
      var current := migration;
      var archives := [];
      NoneArchived(migration.anchors);
      for index := 0 to |migration.anchors|
        invariant Inv(t, disk, spots) && disk.journal == Some(current) && current.phase == migration.phase
        invariant |current.anchors| == |migration.anchors| == |t.anchors| == |spots|
        invariant Kept(t, old(spots), spots)
        invariant forall k | index <= k < |spots| :: spots[k] == old(spots)[k] && current.anchors[k] == migration.anchors[k]
        invariant forall k: nat | k < index :: FirstArchive(t, migration.anchors[k], current.anchors[k], k)
        invariant forall k | 0 <= k < index :: RolledOff(t, current, spots, k)
        invariant archives == ArchivesOf(current.anchors[..index])
        invariant old(fuel) - 3 * index <= fuel
      {
        ghost var before, previous := spots, current;
        var step: Result<(), Error>;
        step, current := RollbackAnchor(current, index, t);
        InvShape(t, disk, spots);
        KeptTransitive(t, old(spots), before, spots);
        Unchanged(t, previous, current, before, spots, index);
        if step.Err? {
          if step.error == NoArchiveName {
            assert Landed(t, old(spots), index);
            StuckForGood(t, old(spots), spots);
          }
          return Err(step.error);
        }
        ArchivesSnoc(previous.anchors, current.anchors, index);
        if current.anchors[index].archive.Some? {
          archives := archives + [current.anchors[index].archive.value];
        }
      }
      assert current.anchors[..|migration.anchors|] == current.anchors;
      AllRolledOff(t, disk, spots);
      SetAsideFromStart(t, old(disk), old(spots), current, spots);
      var _ :- Commit(disk.(journal := None), spots);
      return Ok(archives);
    }

    // ---- Recovery ----

    /** Compare the copied vendor tree, then every anchor's target, with the plan. */
    method VerifyCommittedTarget(plan: Plan, targets: seq<Path>, tx: string, requireMarkers: bool)
      returns (r: Result<(), Error>)
      requires |targets| == |plan.Anchors()|
      ensures r.Ok? <==> TargetVerifies(disk.trees, plan, targets, tx, requireMarkers)
      ensures r.Err? ==> VerificationFails(disk.trees, plan, targets, tx, requireMarkers, r.error)
    {
      hide AnchorsOf, Writes, Expected, VendorMatches, VendorPlace, Planned;
      var (place, root) := VendorPlace(plan.target);
      if place >= |targets| || targets[place] !in disk.trees
         || !VendorMatches(disk.trees[targets[place]].entries, root, Planned(plan.vendor)) {
        return Err(LayoutMismatch);
      }
      for i := 0 to |targets|
        invariant forall k | 0 <= k < i :: AnchorVerifies(disk.trees, plan, targets, tx, requireMarkers, k)
      {
        assert TargetVerifies(disk.trees, plan, targets, tx, requireMarkers) ==>
            AnchorVerifies(disk.trees, plan, targets, tx, requireMarkers, i);
        if targets[i] !in disk.trees {
          return Err(LayoutMismatch);
        }
        var tree := disk.trees[targets[i]];
        if tree.entries != Expected(plan.Anchors(), Writes(plan), i) {
          return Err(LayoutMismatch);
        }
        if tree.marker.Some? && tree.marker.value != tx {
          return Err(MarkerMismatch);
        }
        if tree.marker.None? && requireMarkers {
          return Err(MarkerMissing);
        }
      }
      return Ok(());
    }

    method RemoveOwnerMarkerIfPresent(path: Path, tx: string, ghost t: Transaction, ghost i: nat)
      returns (r: Result<(), Error>)
      requires Inv(t, disk, spots) && disk.journal.value.phase == Verified && i < |spots|
      requires path == t.anchors[i] && tx == t.id
      modifies this
      ensures Inv(t, disk, spots) && disk.journal == old(disk.journal) && Kept(t, old(spots), spots)
      ensures r.Err? ==> r.error == PowerCut && fuel == 0 && spots == old(spots)
      ensures r.Ok? ==> spots[i].At? && spots[i].tree.marker == None
      ensures forall k | 0 <= k < |spots| && k != i :: spots[k] == old(spots[k])
      ensures old(fuel) - 1 <= fuel
    {
      MarkerRemoved(t, disk, spots, i);
      if path !in disk.trees || disk.trees[path].marker.None? {
        return Ok(());
      }
      if disk.trees[path].marker != Some(tx) {
        return Err(MarkerMismatch);
      }
      var unmarked := disk.trees[path].(marker := None);
      var _ :- Commit(disk.(trees := disk.trees[path := unmarked]), spots[i := At(path, unmarked)]);
      return Ok(());
    }

    /** Remove every marker and leftover stage, then the journal. */
    method Finalize(migration: Journal, ghost t: Transaction) returns (r: Result<(), Error>)
      requires Inv(t, disk, spots) && disk.journal == Some(migration) && migration.phase == Verified
      modifies this
      ensures Kept(t, old(spots), spots)
      ensures r.Err? ==> r.error == PowerCut && fuel == 0 && Inv(t, disk, spots) && disk.journal == old(disk.journal)
      ensures r.Ok? ==> Whole(t, disk, spots)
      ensures old(fuel) - 3 * |t.anchors| - 1 <= fuel
    {
      hide Inv, Kept, Whole;
      InvShape(t, disk, spots);
      InvTargets(t, disk, spots);
      for i := 0 to |migration.anchors|
        invariant Inv(t, disk, spots) && disk.journal == Some(migration)
        invariant |migration.anchors| == |t.anchors| == |spots|
        invariant Kept(t, old(spots), spots)
        invariant forall k | 0 <= k < i :: spots[k].At? && spots[k].tree.marker == None
        invariant old(fuel) - 3 * i <= fuel
      {
        ghost var before := spots;
        AnchorPaths(t, disk, spots, i);
        var _ :- RemoveOwnerMarkerIfPresent(migration.anchors[i].target, migration.transactionId, t, i);
        InvShape(t, disk, spots);
        KeptTransitive(t, old(spots), before, spots);
        MarkerRemoved(t, disk, spots, i);
        ghost var unmarked := spots;
        var _ :- RemoveOwnedTreeIfPresent(migration.anchors[i].stage, migration.transactionId, t, i);
        assert spots == unmarked;
      }
      AllUnmarked(t, disk, spots);
      var _ :- Commit(disk.(journal := None), spots);
      return Ok(());
    }

    /** Finish or undo whatever an interrupted migration left behind. */
    method Recover(plan: Plan, ghost t: Transaction) returns (r: Result<Outcome, Error>)
      requires About(t, plan) && |spots| == |t.anchors|
      requires disk.journal.Some? && ValidJournal(disk.journal.value, plan.legacy, plan.target, plan.Anchors())
               ==> Inv(t, disk, spots)
      modifies this
      ensures r == Ok(NothingToRecover) <==> old(disk.journal.None?)
      ensures (r.Err? && r.error == JournalMismatch) <==>
              old(disk.journal.Some? && !ValidJournal(disk.journal.value, plan.legacy, plan.target, plan.Anchors()))
      ensures r == Ok(NothingToRecover) || (r.Err? && r.error == JournalMismatch) ==> disk == old(disk) && spots == old(spots)
      ensures Kept(t, old(spots), spots)
      ensures r.Ok? && r.value == Finalized ==> Whole(t, disk, spots) && old(disk.journal.value.phase) == Verified
      ensures r.Ok? && r.value.RolledBack? ==>
                Archived(t, disk, spots, r.value.archives) && old(disk.journal.value.phase) != Verified
                && SetAsideFirst(old(disk), spots)
      ensures r.Err? && r.error != JournalMismatch ==>
                Inv(t, disk, spots) && ((r.error == PowerCut && fuel == 0) || Stuck(t, spots, r.error))
      ensures r.Err? ==> disk.journal.Some? && disk.journal.value.phase == old(disk.journal.value.phase)
      ensures old(disk.journal.Some? && ValidJournal(disk.journal.value, plan.legacy, plan.target, plan.Anchors())
                  && fuel > 3 * |t.anchors| + 1) ==>
                (r.Err? <==> old(disk.journal.value.phase != Verified && Exhausted(disk)))
      ensures old(fuel) - 3 * |t.anchors| - 1 <= fuel
    {
      hide Inv, Whole, Archived, About, ValidJournal, AnchorsOf, TargetVerifies, AllSettled, Exhausted, NoRoom, SetAsideFirst;
      if disk.journal.None? {
        return Ok(NothingToRecover);
      }
      var migration := disk.journal.value;
      if !ValidJournal(migration, plan.legacy, plan.target, plan.Anchors()) {
        return Err(JournalMismatch);
      }
      InvShape(t, disk, spots);
      if migration.phase == Verified {
        SettledInVerified(t, disk, spots);
        InvTargets(t, disk, spots);
        InvVerifies(t, disk, spots);
        SettledVerifies(t, disk, spots, plan, false);
        AboutAnchors(t, plan);
        var verified := VerifyCommittedTarget(plan, TargetsOf(migration), migration.transactionId, false);
        match verified
        case Err(mismatch) =>
          return Err(mismatch);
        case Ok(_) =>
          var _ :- Finalize(migration, t);
          return Ok(Finalized);
      }
      StuckIffExhausted(t, disk, spots);
      var rolled := Rollback(migration, t);
      if rolled.Err? {
        return Err(rolled.error);
      }
      if Stuck(t, old(spots), NoArchiveName) {
        StuckNotArchived(t, old(spots), disk, spots, rolled.value);
      }
      return Ok(RolledBack(rolled.value));
    }
  }
}
