/** What others may do to the disk between boots, and how they can keep an interrupted migration from ever being undone. */
module StrandedRuns {
  import opened Wrappers
  import opened Layout
  import opened Naming
  import opened StagedLayout
  import opened Disk
  import opened Recovery
  import opened Commit
  import opened CrashRuns

  // ---- Others at work between boots ----

  /** Nothing of `extra` stands at anchor `i`'s target, stage or journalled archive. */
  ghost predicate Avoids(t: Transaction, j: Journal, extra: Trees, i: nat)
    requires i < |t.anchors| == |j.anchors|
  {
    t.anchors[i] !in extra && t.Stage(i) !in extra && (j.anchors[i].archive.Some? ==> j.anchors[i].archive.value !in extra)
  }

  lemma {:induction false} OverlayGrown(extra: Trees, base: Trees, spots: seq<Spot>)
    ensures Overlay(extra + base, spots) == extra + Overlay(base, spots)
  {
    if spots != [] {
      OverlayGrown(extra, base, spots[..|spots| - 1]);
    }
  }

  /** Trees that appear at free paths which are not the transaction's own leave the disk as recoverable as it was. */
  lemma StrangersKeepInv(t: Transaction, disk: Disk, spots: seq<Spot>, extra: Trees)
    requires Inv(t, disk, spots) && |disk.journal.value.anchors| == |t.anchors|
    requires forall p | p in extra :: p !in disk.trees
    requires forall i: nat | i < |t.anchors| :: Avoids(t, disk.journal.value, extra, i)
    ensures Inv(t.(base := extra + t.base), disk.(trees := extra + disk.trees), spots)
  {
    hide Overlay, WellNamed, StagePath;
    var t', j := t.(base := extra + t.base), disk.journal.value;
    OverlayGrown(extra, t.base, spots);
    forall i: nat | i < |spots|
      ensures AnchorInv(t', j, spots, i) && (spots[i].At? ==> spots[i].path !in t'.base)
    {
      assert AnchorInv(t, j, spots, i) && Avoids(t, j, extra, i);
      if spots[i].At? {
        OverlayMeaning(t.base, spots, spots[i].path);
      }
    }
    forall i: nat | i < |t.anchors|
      ensures t.anchors[i] !in t'.base && t'.Stage(i) !in t'.base
    {
      assert Avoids(t, j, extra, i) && t.anchors[i] !in t.base && t.Stage(i) !in t.base;
    }
  }

  // ---- A power cut right after the first rename ----

  /** The anchor committed first. */
  function FirstCommitted(plan: Plan): (c: nat)
    ensures c < |plan.Anchors()|
  {
    ConfigCommitsLast(plan.target);
    var order := CommitOrder(plan.Anchors(), plan.target.ConfigFile());
    assert order[0] in order;
    order[0]
  }

  function CutSpots(plan: Plan, tx: string): seq<Spot> {
    var anchors := plan.Anchors();
    seq(|anchors|, i requires 0 <= i < |anchors| =>
          At(if i == FirstCommitted(plan) then anchors[i] else StagePath(anchors[i], tx, i), Tree(Some(tx), Content(plan, i))))
  }

  /** One anchor renamed to its target, not yet recorded; the others staged. */
  function CutDisk(plan: Plan, tx: string, trees: Trees): Disk {
    Disk(Overlay(trees, CutSpots(plan, tx)), Some(FirstJournal(plan, tx).(phase := Staged)))
  }

  /** That disk is what committing the first anchor makes of a staged migration. */
  lemma CutHolds(plan: Plan, t: Transaction)
    requires About(t, plan) && t.Valid()
    ensures var disk, spots := CutDisk(plan, t.id, t.base), CutSpots(plan, t.id);
      Inv(t, disk, spots) && CommittedExactly(t, disk.journal.value, spots, [FirstCommitted(plan)])
  {
    hide AnchorsOf, Content, WellNamed, LayoutVerifies, FirstJournal, FirstCommitted, Overlay, ValidJournal;
    AboutAnchors(t, plan);
    FirstJournalValid(plan, t);
    var spots, j := CutSpots(plan, t.id), FirstJournal(plan, t.id).(phase := Staged);
    StagedJournalValid(t, FirstJournal(plan, t.id));
    forall i: nat | i < |spots|
      ensures AnchorInv(t, j, spots, i) && CommittedAt(t, j, spots, [FirstCommitted(plan)], i)
      ensures OwnedSpot(t, i, spots[i].path)
    {
      TargetAndStageOwned(t, i);
      assert Fresh(j.anchors[i]) && t.contents[i] == Content(plan, i);
    }
    OwnedApart(t, spots);
    FirstJournalId(plan, t.id);
  }

  lemma FirstJournalId(plan: Plan, tx: string)
    ensures FirstJournal(plan, tx).transactionId == tx
  {
  }

  lemma StagedJournalValid(t: Transaction, j: Journal)
    requires ValidJournal(j, t.legacy, t.target, t.anchors)
    ensures ValidJournal(j.(phase := Staged), t.legacy, t.target, t.anchors)
  {
  }

  // ---- Every archive name taken before recovery ----

  function ArchiveNames(target: Path, tx: string, index: nat): set<Path> {
    set k: nat | k < ARCHIVE_ATTEMPTS :: ArchivePath(target, tx, index, k)
  }

  /** Empty directories at every archive name that was still free. */
  function Squatters(trees: Trees, target: Path, tx: string, index: nat): Trees {
    map p | p in ArchiveNames(target, tx, index) && p !in trees :: Tree(None, map[])
  }

  lemma NotAnArchive(targets: seq<Path>, tx: string, c: nat, i: nat, p: Path)
    requires WellNamed(targets, tx) && i < |targets| && c < |targets| && (p == targets[i] || p == StagePath(targets[i], tx, i))
    ensures p !in ArchiveNames(targets[c], tx, c)
  {
    hide ArchivePath, StagePath;
    assert Owned(targets[i], tx, i, p);
    forall k: nat
      ensures p != ArchivePath(targets[c], tx, c, k)
    {
      assert Owned(targets[c], tx, c, ArchivePath(targets[c], tx, c, k));
    }
  }

  /** The interrupted disk once someone has taken the first committed anchor's archive names. */
  function BesetDisk(plan: Plan, tx: string, trees: Trees): Disk {
    var cut, c := CutDisk(plan, tx, trees), FirstCommitted(plan);
    cut.(trees := Squatters(cut.trees, plan.Anchors()[c], tx, c) + cut.trees)
  }

  lemma BesetHolds(plan: Plan, t: Transaction) returns (t': Transaction)
    requires About(t, plan) && t.Valid()
    ensures About(t', plan) && t'.anchors == t.anchors
    ensures var disk := BesetDisk(plan, t.id, t.base);
      Inv(t', disk, CutSpots(plan, t.id)) && disk.journal.value.phase != Verified && Exhausted(disk)
  {
    hide AnchorsOf, LayoutVerifies, WellNamed, CommittedExactly, Inv, Content, CutSpots, CutDisk, Overlay, FirstCommitted,
      ArchivePath, StagePath, Exhausted;
    CutHolds(plan, t);
    AboutAnchors(t, plan);
    var cut, spots, c := CutDisk(plan, t.id, t.base), CutSpots(plan, t.id), FirstCommitted(plan);
    var extra := Squatters(cut.trees, t.anchors[c], t.id, c);
    InvShape(t, cut, spots);
    CutJournal(plan, t.id, t.base);
    assert WellNamed(t.anchors, t.id) by { InvValid(t, cut, spots); }
    forall i: nat | i < |t.anchors|
      ensures Avoids(t, cut.journal.value, extra, i)
    {
      NotAnArchive(t.anchors, t.id, c, i, t.anchors[i]);
      NotAnArchive(t.anchors, t.id, c, i, t.Stage(i));
      assert Fresh(cut.journal.value.anchors[i]);
    }
    StrangersKeepInv(t, cut, spots, extra);
    t' := t.(base := extra + t.base);
    CutLanded(plan, t);
    BesetExhausted(plan, t.id, t.base);
  }

  lemma CutJournal(plan: Plan, tx: string, trees: Trees)
    ensures var disk := CutDisk(plan, tx, trees);
      disk.journal.Some? && disk.journal.value.phase == Staged && disk.journal.value.transactionId == tx
      && |disk.journal.value.anchors| == |plan.Anchors()|
      && forall i | 0 <= i < |plan.Anchors()| ::
           Fresh(disk.journal.value.anchors[i]) && disk.journal.value.anchors[i].target == plan.Anchors()[i]
  {
    hide AnchorsOf, Overlay, CutSpots, StagePath;
  }

  lemma CutLanded(plan: Plan, t: Transaction)
    requires About(t, plan) && t.Valid()
    ensures plan.Anchors()[FirstCommitted(plan)] in CutDisk(plan, t.id, t.base).trees
  {
    hide AnchorsOf, LayoutVerifies, WellNamed, Content, FirstCommitted, Overlay, CutDisk, CutSpots;
    CutHolds(plan, t);
    AboutAnchors(t, plan);
    var disk, spots, c := CutDisk(plan, t.id, t.base), CutSpots(plan, t.id), FirstCommitted(plan);
    assert CommittedAt(t, disk.journal.value, spots, [c], c);
    OverlayMeaning(t.base, spots, spots[c].path);
  }

  lemma BesetExhausted(plan: Plan, tx: string, trees: Trees)
    requires plan.Anchors()[FirstCommitted(plan)] in CutDisk(plan, tx, trees).trees
    ensures Exhausted(BesetDisk(plan, tx, trees)) && BesetDisk(plan, tx, trees).journal.value.phase == Staged
  {
    hide AnchorsOf, CutDisk, FirstCommitted, ArchivePath;
    CutJournal(plan, tx, trees);
    var cut, disk, c := CutDisk(plan, tx, trees), BesetDisk(plan, tx, trees), FirstCommitted(plan);
    var target := plan.Anchors()[c];
    assert Fresh(cut.journal.value.anchors[c]);
    forall k: nat | k < ARCHIVE_ATTEMPTS
      ensures ArchivePath(target, tx, c, k) in disk.trees
    {
      assert ArchivePath(target, tx, c, k) in ArchiveNames(target, tx, c);
    }
    assert NamesTaken(disk, c);
  }

  method Retry(m: Machine, plan: Plan, ghost t: Transaction) returns (r: Result<Outcome, Error>)
    requires About(t, plan) && Inv(t, m.disk, m.spots) && m.disk.journal.Some? && m.disk.journal.value.phase != Verified
    requires Exhausted(m.disk) && m.fuel > 3 * |t.anchors| + 1
    modifies m
    ensures r == Err(NoArchiveName) && Inv(t, m.disk, m.spots) && Exhausted(m.disk)
    ensures m.disk.journal.Some? && m.disk.journal.value.phase != Verified
  {
    hide AnchorsOf, About, LayoutVerifies, Inv, Exhausted, Whole, Archived, ValidJournal, NoRoom, Kept;
    AboutAnchors(t, plan);
    InvShape(t, m.disk, m.spots);
    JournalAccepted(t, m.disk, m.spots, plan);
    r := m.Recover(plan, t);
    StuckIffExhausted(t, m.disk, m.spots);
  }

  lemma JournalAccepted(t: Transaction, disk: Disk, spots: seq<Spot>, plan: Plan)
    requires Inv(t, disk, spots) && About(t, plan)
    ensures disk.journal.Some? && ValidJournal(disk.journal.value, plan.legacy, plan.target, plan.Anchors())
  {
    hide AnchorsOf, LayoutVerifies;
    AboutAnchors(t, plan);
  }

  /** Cut off right after its first rename and then robbed of every archive name the journal now gives away, a migration into
      any layout is left where it stands: recovery fails, however often it runs. */
  method StrandForGood(plan: Plan, tx: string, trees: Trees, boots: seq<nat>)
    returns (m: Machine, outcomes: seq<Result<Outcome, Error>>)
    requires PlainTargets(plan) && ValidTransactionId(tx)
    requires AllAbsent(trees, plan.Anchors()) && AllAbsent(trees, StagesOf(plan.Anchors(), tx))
    requires forall k | 0 <= k < |boots| :: boots[k] > 3 * |plan.Anchors()| + 1
    ensures fresh(m) && Exhausted(m.disk)
    ensures |outcomes| == |boots| && forall k | 0 <= k < |boots| :: outcomes[k] == Err(NoArchiveName)
  {
    hide PlainTargets, WellNamed, AnchorsOf, About, TransactionOf, LayoutVerifies, AllAbsent, Inv, BesetDisk, CutSpots,
      Exhausted, Whole, Archived, ValidJournal, NoRoom, Kept;
    ghost var t := TransactionOf(plan, tx, trees);
    Described(plan, tx, trees, t);
    AboutAnchors(t, plan);
    PlainTargetsWellNamed(plan, tx);
    TransactionValid(t);
    ghost var t' := BesetHolds(plan, t);
    m := new Machine(BesetDisk(plan, tx, trees), 0, CutSpots(plan, tx));
    outcomes := [];
    InvShape(t', m.disk, m.spots);
    for k := 0 to |boots|
      invariant Inv(t', m.disk, m.spots) && m.disk.journal.Some? && m.disk.journal.value.phase != Verified
      invariant Exhausted(m.disk) && |outcomes| == k && forall i | 0 <= i < k :: outcomes[i] == Err(NoArchiveName)
    {
      m.fuel := boots[k];
      var outcome := Retry(m, plan, t');
      outcomes := outcomes + [outcome];
    }
  }
}
