/** The durable state of a migration: trees by path, the journal, and where each anchor's tree lies. */
module Disk {
  import opened Wrappers
  import opened Layout
  import opened Naming
  import opened StagedLayout

  const JOURNAL_VERSION := 1
  const ARCHIVE_ATTEMPTS := 10_000

  /** One directory tree: the owner marker at its root, if any, and every other entry by relative path. */
  datatype Tree = Tree(marker: Option<string>, entries: map<Path, Entry>)

  type Trees = map<Path, Tree>

  datatype Phase = Staging | Staged | Committing | Verified

  datatype JournalAnchor = JournalAnchor(target: Path, stage: Path, committed: bool, archive: Option<Path>)

  datatype Journal = Journal(version: nat, transactionId: string, legacy: AppPaths, target: AppPaths, phase: Phase,
                             anchors: seq<JournalAnchor>)

  datatype Disk = Disk(trees: Trees, journal: Option<Journal>)

  /** Where the single tree belonging to one anchor currently lies. */
  datatype Spot = Nowhere | At(path: Path, tree: Tree)

  /** The trees found before the migration, plus each anchor's tree. */
  function Overlay(base: Trees, spots: seq<Spot>): Trees {
    if spots == [] then base
    else
      var below := Overlay(base, spots[..|spots| - 1]);
      match spots[|spots| - 1]
      case Nowhere => below
      case At(path, tree) => below[path := tree]
  }

  /** Anchor trees avoid the original trees and one another. */
  ghost predicate Apart(base: Trees, spots: seq<Spot>) {
    && (forall i | 0 <= i < |spots| && spots[i].At? :: spots[i].path !in base)
    && (forall i, j | 0 <= i < j < |spots| && spots[i].At? && spots[j].At? :: spots[i].path != spots[j].path)
  }

  lemma {:induction false} OverlayMeaning(base: Trees, spots: seq<Spot>, p: Path)
    requires Apart(base, spots)
    ensures p in Overlay(base, spots) <==> p in base || exists i :: 0 <= i < |spots| && spots[i].At? && spots[i].path == p
    ensures p in base ==> Overlay(base, spots)[p] == base[p]
    ensures forall i | 0 <= i < |spots| && spots[i].At? && spots[i].path == p ::
              p in Overlay(base, spots) && Overlay(base, spots)[p] == spots[i].tree
  {
    if spots != [] {
      var n := |spots| - 1;
      OverlayMeaning(base, spots[..n], p);
      assert forall i | 0 <= i < n :: spots[..n][i] == spots[i];
    }
  }

  lemma OverlayReplace(base: Trees, spots: seq<Spot>, i: nat, next: Spot)
    requires i < |spots| && Apart(base, spots) && Apart(base, spots[i := next])
    ensures var cleared := if spots[i].At? then Overlay(base, spots) - {spots[i].path} else Overlay(base, spots);
      Overlay(base, spots[i := next]) == if next.At? then cleared[next.path := next.tree] else cleared
  {
    var cleared := if spots[i].At? then Overlay(base, spots) - {spots[i].path} else Overlay(base, spots);
    var after := if next.At? then cleared[next.path := next.tree] else cleared;
    forall p
      ensures p in Overlay(base, spots[i := next]) <==> p in after
      ensures p in after ==> Overlay(base, spots[i := next])[p] == after[p]
    {
      OverlayAtPath(base, spots, i, next, p);
    }
    assert Overlay(base, spots[i := next]) == after;
  }

  lemma OverlayAtPath(base: Trees, spots: seq<Spot>, i: nat, next: Spot, p: Path)
    requires i < |spots| && Apart(base, spots) && Apart(base, spots[i := next])
    ensures var here := spots[i].At? && spots[i].path == p;
      var goes := next.At? && next.path == p;
      var o, o' := Overlay(base, spots), Overlay(base, spots[i := next]);
      && (p in o' <==> goes || (p in o && !here))
      && (goes ==> o'[p] == next.tree) && (p in o && !here && !goes ==> o'[p] == o[p])
  {
    var spots' := spots[i := next];
    OverlayMeaning(base, spots, p);
    OverlayMeaning(base, spots', p);
    assert spots'[i] == next && forall k | 0 <= k < |spots| && k != i :: spots'[k] == spots[k];
  }

  // ---- What a journalled disk satisfies at every instant ----

  /** What one transaction is about, fixed from before its journal is written until after it is removed. */
  datatype Transaction = Transaction(id: string, legacy: AppPaths, target: AppPaths, anchors: seq<Path>,
                                     contents: seq<map<Path, Entry>>, base: Trees, verifies: bool)
  {
    function Stage(i: nat): Path
      requires i < |anchors|
    {
      StagePath(anchors[i], id, i)
    }

    /** The transaction's own paths are distinct, and its targets and stages are absent to begin with. */
    ghost predicate Valid() {
      && |contents| == |anchors| && ValidTransactionId(id) && WellNamed(anchors, id)
      && forall i | 0 <= i < |anchors| :: anchors[i] !in base && Stage(i) !in base
    }
  }

  predicate IsArchive(target: Path, tx: string, i: nat, p: Path) {
    exists k: nat :: k < ARCHIVE_ATTEMPTS && p == ArchivePath(target, tx, i, k)
  }

  /** The checks `validate` makes on a journal read back from disk. */
  predicate ValidJournal(j: Journal, legacy: AppPaths, target: AppPaths, anchors: seq<Path>) {
    && j.version == JOURNAL_VERSION && ValidTransactionId(j.transactionId)
    && j.legacy == legacy && j.target == target && |j.anchors| == |anchors|
    && forall i | 0 <= i < |anchors| :: ValidJournalAnchor(j.anchors[i], anchors[i], j.transactionId, i)
  }

  predicate ValidJournalAnchor(a: JournalAnchor, target: Path, tx: string, i: nat) {
    && a.target == target && a.stage == StagePath(target, tx, i)
    && (a.archive.Some? ==> ValidArchivePath(target, a.archive.value, tx, i))
  }

  /** Before `Verified`: the tree is staged, at its target, or at the archive journalled before the move. */
  ghost predicate InFlight(t: Transaction, i: nat, a: JournalAnchor, spot: Spot)
    requires i < |t.anchors| == |t.contents|
  {
    && (spot.At? ==>
          && spot.path !in t.base && spot.tree.marker == Some(t.id)
          && (spot.path == t.Stage(i) || spot.path == t.anchors[i] || a.archive == Some(spot.path))
          && (spot.path != t.Stage(i) ==> spot.tree.entries == t.contents[i]))
    && (a.archive.Some? ==> IsArchive(t.anchors[i], t.id, i, a.archive.value) && a.archive.value !in t.base
                            && spot.At? && spot.path != t.Stage(i))
    && (a.committed && a.archive.None? ==> spot.At? && spot.path == t.anchors[i])
  }

  /** From `Verified` on: the whole tree is at its target; only the owner marker may be gone. */
  ghost predicate Settled(t: Transaction, i: nat, a: JournalAnchor, spot: Spot)
    requires i < |t.anchors| == |t.contents|
  {
    && spot.At? && spot.path == t.anchors[i] && spot.tree.entries == t.contents[i]
    && (spot.tree.marker == None || spot.tree.marker == Some(t.id)) && a.archive == None
  }

  ghost predicate AnchorInv(t: Transaction, j: Journal, spots: seq<Spot>, i: nat)
    requires i < |t.anchors| == |t.contents| == |spots| == |j.anchors|
  {
    if j.phase == Verified then Settled(t, i, j.anchors[i], spots[i]) else InFlight(t, i, j.anchors[i], spots[i])
  }

  /** The crash invariant: true of the disk at every instant while the journal exists. */
  ghost predicate Inv(t: Transaction, disk: Disk, spots: seq<Spot>) {
    && t.Valid() && disk.journal.Some? && |spots| == |t.anchors|
    && disk.journal.value.transactionId == t.id
    && ValidJournal(disk.journal.value, t.legacy, t.target, t.anchors)
    && Apart(t.base, spots) && disk.trees == Overlay(t.base, spots)
    && (disk.journal.value.phase == Verified ==> t.verifies)
    && forall i | 0 <= i < |spots| :: AnchorInv(t, disk.journal.value, spots, i)
  }

  /** A tree has landed once it has been renamed away from its stage. */
  ghost predicate Landed(t: Transaction, spots: seq<Spot>, i: nat) {
    i < |spots| == |t.anchors| && spots[i].At? && spots[i].path != t.Stage(i)
  }

  /** Landed trees stay landed with their contents. */
  ghost predicate Kept(t: Transaction, before: seq<Spot>, after: seq<Spot>) {
    && |before| == |after| == |t.anchors|
    && forall i: nat | i < |before| && Landed(t, before, i) ::
         Landed(t, after, i) && after[i].tree.entries == before[i].tree.entries
  }

  lemma KeptTransitive(t: Transaction, a: seq<Spot>, b: seq<Spot>, c: seq<Spot>)
    requires Kept(t, a, b) && Kept(t, b, c)
    ensures Kept(t, a, c)
  {
  }

  /** Anchor trees that lie on their own anchor's paths are apart. */
  lemma OwnedApart(t: Transaction, spots: seq<Spot>)
    requires |spots| == |t.anchors| && t.Valid()
    requires forall i | 0 <= i < |spots| && spots[i].At? :: OwnedSpot(t, i, spots[i].path)
    ensures Apart(t.base, spots)
  {
  }

  ghost predicate OwnedSpot(t: Transaction, i: nat, p: Path)
    requires i < |t.anchors|
  {
    p !in t.base && Owned(t.anchors[i], t.id, i, p)
  }

  lemma InvOwned(t: Transaction, disk: Disk, spots: seq<Spot>)
    requires Inv(t, disk, spots)
    ensures forall i | 0 <= i < |spots| && spots[i].At? :: OwnedSpot(t, i, spots[i].path)
  {
    forall i | 0 <= i < |spots| && spots[i].At?
      ensures OwnedSpot(t, i, spots[i].path)
    {
      assert AnchorInv(t, disk.journal.value, spots, i);
      assert t.anchors[i] !in t.base && t.Stage(i) !in t.base;
    }
  }

  /** A path owned by anchor `i` holds a tree exactly when `i`'s own tree lies there. */
  lemma HoldsOwnTree(t: Transaction, disk: Disk, spots: seq<Spot>, i: nat, p: Path)
    requires |spots| == |t.anchors| && t.Valid() && Apart(t.base, spots) && disk.trees == Overlay(t.base, spots)
    requires forall k | 0 <= k < |spots| && spots[k].At? :: OwnedSpot(t, k, spots[k].path)
    requires i < |spots| && OwnedSpot(t, i, p)
    ensures p in disk.trees <==> spots[i].At? && spots[i].path == p
    ensures p in disk.trees ==> disk.trees[p] == spots[i].tree
  {
    hide Owned, StagePath, Overlay, Transaction.Stage;
    OverlayMeaning(t.base, spots, p);
  }

  lemma TargetAndStageOwned(t: Transaction, i: nat)
    requires t.Valid() && i < |t.anchors|
    ensures OwnedSpot(t, i, t.anchors[i]) && OwnedSpot(t, i, t.Stage(i)) && t.anchors[i] != t.Stage(i)
  {
    assert t.anchors[i] !in t.base;
  }

  /** At every instant a landed tree is whole, at exactly one of its target and its journalled archive. */
  lemma OneHome(t: Transaction, disk: Disk, spots: seq<Spot>, i: nat)
    requires Inv(t, disk, spots) && i < |spots| && Landed(t, spots, i)
    ensures var a, target := disk.journal.value.anchors[i], t.anchors[i];
      && (a.archive.Some? ==> (target in disk.trees) != (a.archive.value in disk.trees))
      && (a.archive.None? ==> target in disk.trees)
      && t.Stage(i) !in disk.trees
      && var home := if target in disk.trees then target else a.archive.value;
      home in disk.trees && disk.trees[home].entries == t.contents[i]
  {
    var a := disk.journal.value.anchors[i];
    assert AnchorInv(t, disk.journal.value, spots, i);
    InvOwned(t, disk, spots);
    TargetAndStageOwned(t, i);
    HoldsOwnTree(t, disk, spots, i, t.anchors[i]);
    HoldsOwnTree(t, disk, spots, i, t.Stage(i));
    HoldsOwnTree(t, disk, spots, i, spots[i].path);
    if a.archive.Some? {
      assert OwnedSpot(t, i, a.archive.value);
      HoldsOwnTree(t, disk, spots, i, a.archive.value);
      assert a.archive.value != t.anchors[i];
    }
  }

  /** Nothing that was on disk before the migration is ever changed, and nothing else appears but the anchor trees. */
  lemma OthersUntouched(t: Transaction, disk: Disk, spots: seq<Spot>, p: Path)
    requires Inv(t, disk, spots)
    ensures p in t.base ==> p in disk.trees && disk.trees[p] == t.base[p]
    ensures p in disk.trees && p !in t.base ==> exists i: nat :: i < |t.anchors| && Owned(t.anchors[i], t.id, i, p)
  {
    OverlayMeaning(t.base, spots, p);
    InvOwned(t, disk, spots);
  }
}
