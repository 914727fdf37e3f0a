/** Whole histories: one migration, cut anywhere, then recovered boot after boot, each of which may be cut again. */
module CrashRuns {
  import opened Wrappers
  import opened Layout
  import opened Naming
  import opened StagedLayout
  import opened Disk
  import opened Recovery
  import opened Commit

  datatype Ending = Untouched | InPlace | SetAside(archives: seq<Path>) | Unfinished

  /** No target directory is the root or the journal's path, and none is named like a transaction's own trees. */
  ghost predicate PlainTargets(plan: Plan) {
    JournalPath(plan.target) !in plan.Anchors()
    && forall i | 0 <= i < |plan.Anchors()| :: plan.Anchors()[i] != [] && Plain(FileName(plan.Anchors()[i]))
  }

  lemma PlainTargetsWellNamed(plan: Plan, tx: string)
    requires PlainTargets(plan)
    ensures WellNamed(plan.Anchors(), tx) && JournalPath(plan.target) !in plan.Anchors()
  {
    hide AnchorsOf, WellNamed;
    AnchorsApartAndCovering(plan.target);
    ApartDistinct(plan.Anchors());
    PlainNamesAreWellNamed(plan.Anchors(), tx);
  }

  /** How a history may have left the disk. */
  ghost predicate EndsAs(t: Transaction, disk: Disk, spots: seq<Spot>, ending: Ending) {
    match ending
    case Untouched => disk.trees == t.base && disk.journal == None && forall i | 0 <= i < |spots| :: spots[i] == Nowhere
    case InPlace => Whole(t, disk, spots)
    case SetAside(archives) => Archived(t, disk, spots, archives)
    case Unfinished => Inv(t, disk, spots)
  }

  /** Each anchor's tree, once landed, is kept from every boot to every later one. */
  ghost predicate KeptThroughout(t: Transaction, trace: seq<seq<Spot>>) {
    forall a, b | 0 <= a <= b < |trace| :: Kept(t, trace[a], trace[b])
  }

  lemma KeptExtended(t: Transaction, trace: seq<seq<Spot>>, next: seq<Spot>)
    requires trace != [] && KeptThroughout(t, trace) && Kept(t, trace[|trace| - 1], next)
    ensures KeptThroughout(t, trace + [next])
  {
    hide Kept;
    var longer, n := trace + [next], |trace|;
    KeptReflexive(t, trace[n - 1], next);
    forall a, b | 0 <= a <= b < |longer|
      ensures Kept(t, longer[a], longer[b])
    {
      if b == n && a < n {
        assert Kept(t, trace[a], trace[n - 1]);
        KeptTransitive(t, trace[a], trace[n - 1], next);
      }
    }
  }

  lemma KeptReflexive(t: Transaction, before: seq<Spot>, after: seq<Spot>)
    requires Kept(t, before, after)
    ensures Kept(t, after, after)
  {
  }

  /** Durable writes an uninterrupted recovery may need. */
  function RecoveryCost(t: Transaction): nat {
    3 * |t.anchors| + 1
  }

  lemma Shape(t: Transaction, disk: Disk, spots: seq<Spot>, ending: Ending)
    requires EndsAs(t, disk, spots, ending) && |spots| == |t.anchors|
    ensures ending == Unfinished <==> disk.journal.Some?
    ensures ending == Unfinished ==> Inv(t, disk, spots) && ValidJournal(disk.journal.value, t.legacy, t.target, t.anchors)
    ensures Kept(t, spots, spots)
  {
  }

  /** The first boot. */
  method Begin(m: Machine, plan: Plan, tx: string, ghost t: Transaction) returns (ending: Ending)
    requires About(t, plan) && t.id == tx && m.disk == Disk(t.base, None)
    requires ValidTransactionId(tx) && WellNamed(t.anchors, tx) && JournalPath(t.target) !in t.anchors
    requires |m.spots| == |t.anchors| && forall i | 0 <= i < |m.spots| :: m.spots[i] == Nowhere
    modifies m
    ensures EndsAs(t, m.disk, m.spots, ending) && |m.spots| == |t.anchors|
    ensures ending == InPlace ==> LayoutVerifies(plan) && Stageable(plan)
    ensures ending == Unfinished ==>
              old(m.fuel) <= TransactionCost(plan) + RecoveryCost(t) + 1 || Stuck(t, m.spots, NoArchiveName)
  {
    hide Inv, Whole, Archived, AnchorsOf, LayoutVerifies, Writes, WellNamed, Clear, About, TransactionCost, Stageable;
    var report := Execute(m, plan, tx, t);
    match report
    case Migrated =>
      ending := InPlace;
      WholeShape(t, m.disk, m.spots);
    case Refused(_) => ending := Untouched;
    case Undone(_, archives) =>
      ending := SetAside(archives);
      ArchivedShape(t, m.disk, m.spots, archives);
    case Stranded(_, _) =>
      ending := Unfinished;
      InvShape(t, m.disk, m.spots);
    case Interrupted =>
      ending := if m.disk.journal.Some? then Unfinished else Untouched;
      if Inv(t, m.disk, m.spots) {
        InvShape(t, m.disk, m.spots);
      }
  }

  lemma WholeShape(t: Transaction, disk: Disk, spots: seq<Spot>)
    requires Whole(t, disk, spots)
    ensures |spots| == |t.anchors|
  {
  }

  lemma ArchivedShape(t: Transaction, disk: Disk, spots: seq<Spot>, archives: seq<Path>)
    requires Archived(t, disk, spots, archives)
    ensures |spots| == |t.anchors|
  {
  }

  /** A later boot. */
  method Boot(m: Machine, plan: Plan, ghost t: Transaction, before: Ending) returns (ending: Ending)
    requires About(t, plan) && |m.spots| == |t.anchors| && EndsAs(t, m.disk, m.spots, before)
    modifies m
    ensures EndsAs(t, m.disk, m.spots, ending) && Kept(t, old(m.spots), m.spots)
    ensures before != Unfinished ==> ending == before
    ensures ending == InPlace && before == Unfinished ==> LayoutVerifies(plan)
    ensures ending == Unfinished ==> old(m.fuel) <= RecoveryCost(t) || Stuck(t, m.spots, NoArchiveName)
  {
    hide Inv, Whole, Archived, Kept, AnchorsOf, LayoutVerifies, About, Stuck, ValidJournal;
    AboutAnchors(t, plan);
    Shape(t, m.disk, m.spots, before);
    var outcome := m.Recover(plan, t);
    match outcome
    case Ok(NothingToRecover) => ending := before;
    case Ok(Finalized) =>
      WholeVerifies(t, m.disk, m.spots);
      ending := InPlace;
    case Ok(RolledBack(archives)) => ending := SetAside(archives);
    case Err(error) =>
      ending := Unfinished;
      StuckName(t, m.spots, error);
  }

  lemma StuckName(t: Transaction, spots: seq<Spot>, error: Error)
    ensures Stuck(t, spots, error) ==> error == NoArchiveName
  {
  }

  /** What holds after the first `n` boots. */
  ghost predicate After(plan: Plan, t: Transaction, cuts: seq<nat>, n: nat, disk: Disk, spots: seq<Spot>, ending: Ending,
                        trace: seq<seq<Spot>>)
  {
    && |spots| == |t.anchors| && EndsAs(t, disk, spots, ending)
    && (ending == InPlace ==> LayoutVerifies(plan))
    && |trace| == n > 0 && trace[n - 1] == spots && KeptThroughout(t, trace)
    && (ending == Unfinished ==> Stuck(t, spots, NoArchiveName) || NeverEnough(plan, t, cuts, n))
  }

  lemma AfterFirst(plan: Plan, t: Transaction, cuts: seq<nat>, disk: Disk, spots: seq<Spot>, ending: Ending)
    requires cuts != [] && |spots| == |t.anchors| && EndsAs(t, disk, spots, ending)
    requires ending == InPlace ==> LayoutVerifies(plan)
    requires ending == Unfinished ==> Stuck(t, spots, NoArchiveName) || cuts[0] <= TransactionCost(plan) + RecoveryCost(t) + 1
    ensures After(plan, t, cuts, 1, disk, spots, ending, [spots])
  {
    hide EndsAs, LayoutVerifies, Stuck, TransactionCost;
    Shape(t, disk, spots, ending);
  }

  lemma AfterNext(plan: Plan, t: Transaction, cuts: seq<nat>, n: nat, d: Disk, spots: seq<Spot>, before: Ending,
                  trace: seq<seq<Spot>>, d': Disk, spots': seq<Spot>, ending: Ending)
    requires n < |cuts| && After(plan, t, cuts, n, d, spots, before, trace)
    requires EndsAs(t, d', spots', ending) && Kept(t, spots, spots')
    requires before != Unfinished ==> ending == before
    requires ending == InPlace && before == Unfinished ==> LayoutVerifies(plan)
    requires ending == Unfinished ==> cuts[n] <= RecoveryCost(t) || Stuck(t, spots', NoArchiveName)
    ensures After(plan, t, cuts, n + 1, d', spots', ending, trace + [spots'])
  {
    hide EndsAs, LayoutVerifies, Stuck, TransactionCost, RecoveryCost;
    KeptExtended(t, trace, spots');
    if Stuck(t, spots, NoArchiveName) {
      StuckForGood(t, spots, spots');
    }
  }

  /** The first boot migrates with `cuts[0]` durable writes before the power fails, boot `k` recovers with `cuts[k]`. */
  method MigrateThroughCrashes(plan: Plan, tx: string, trees: Trees, cuts: seq<nat>)
    returns (m: Machine, ending: Ending, ghost t: Transaction, ghost trace: seq<seq<Spot>>)
    requires cuts != [] && ValidTransactionId(tx) && PlainTargets(plan)
    ensures fresh(m) && t == TransactionOf(plan, tx, trees)
    ensures EndsAs(t, m.disk, m.spots, ending)
    ensures ending == InPlace ==> LayoutVerifies(plan)
    ensures |trace| == |cuts| && trace[|trace| - 1] == m.spots && KeptThroughout(t, trace)
    ensures ending == Unfinished ==> Stuck(t, m.spots, NoArchiveName) || NeverEnough(plan, t, cuts, |cuts|)
  {
    hide EndsAs, After, KeptThroughout, Kept, Stuck, AnchorsOf, LayoutVerifies, WellNamed, PlainTargets, TransactionOf,
      NeverEnough, Stageable, About, TransactionCost, RecoveryCost;
    t := TransactionOf(plan, tx, trees);
    Described(plan, tx, trees, t);
    AboutAnchors(t, plan);
    PlainTargetsWellNamed(plan, tx);
    ghost var nowhere := seq(|t.anchors|, _ => Nowhere);
    m := new Machine(Disk(trees, None), cuts[0], nowhere);
    ending := Begin(m, plan, tx, t);
    trace := [m.spots];
    AfterFirst(plan, t, cuts, m.disk, m.spots, ending);
    for k := 1 to |cuts|
      invariant After(plan, t, cuts, k, m.disk, m.spots, ending, trace)
    {
      ghost var disk, spots, before := m.disk, m.spots, ending;
      AfterParts(plan, t, cuts, k, m.disk, m.spots, ending, trace);
      m.fuel := cuts[k];
      ending := Boot(m, plan, t, ending);
      AfterNext(plan, t, cuts, k, disk, spots, before, trace, m.disk, m.spots, ending);
      trace := trace + [m.spots];
    }
    AfterParts(plan, t, cuts, |cuts|, m.disk, m.spots, ending, trace);
  }

  lemma AfterParts(plan: Plan, t: Transaction, cuts: seq<nat>, n: nat, disk: Disk, spots: seq<Spot>, ending: Ending,
                   trace: seq<seq<Spot>>)
    requires After(plan, t, cuts, n, disk, spots, ending, trace)
    ensures |spots| == |t.anchors| && EndsAs(t, disk, spots, ending)
    ensures ending == InPlace ==> LayoutVerifies(plan)
    ensures |trace| == n > 0 && trace[n - 1] == spots && KeptThroughout(t, trace)
    ensures ending == Unfinished ==> Stuck(t, spots, NoArchiveName) || NeverEnough(plan, t, cuts, n)
  {
  }

  lemma Described(plan: Plan, tx: string, trees: Trees, t: Transaction)
    requires t == TransactionOf(plan, tx, trees)
    ensures About(t, plan) && t.id == tx && t.base == trees
  {
  }

  /** Every one of the first `n` boots lost power before a full migration or recovery could be written. */
  predicate NeverEnough(plan: Plan, t: Transaction, cuts: seq<nat>, n: nat) {
    n <= |cuts| && forall k | 0 <= k < n ::
      cuts[k] <= if k == 0 then TransactionCost(plan) + RecoveryCost(t) + 1 else RecoveryCost(t)
  }
}
