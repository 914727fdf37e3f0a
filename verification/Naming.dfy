/** Sibling names of a transaction's staging and archive trees, and why they never collide. */
module Naming {
  import opened Layout

  const FRAGMENT := "ctxlane-migration-"

  function Digit(d: nat): (c: char)
    requires d < 10
    ensures '0' <= c <= '9'
  {
    '0' + d as char
  }

  function Decimal(n: nat): (s: string)
    ensures s != [] && forall c | c in s :: '0' <= c <= '9'
  {
    if n < 10 then [Digit(n)] else Decimal(n / 10) + [Digit(n % 10)]
  }

  function FileName(p: Path): string {
    if p == [] then "ctxlane" else p[|p| - 1]
  }

  function Parent(p: Path): Path {
    if p == [] then [] else p[..|p| - 1]
  }

  function StageName(name: string, tx: string, index: nat): string {
    "." + name + "." + FRAGMENT + "stage-" + tx + "-" + Decimal(index)
  }

  function ArchiveStem(name: string, tx: string, index: nat): string {
    "." + name + "." + FRAGMENT + "rollback-" + tx + "-" + Decimal(index) + "-"
  }

  function StagePath(target: Path, tx: string, index: nat): Path {
    Parent(target) + [StageName(FileName(target), tx, index)]
  }

  function ArchivePath(target: Path, tx: string, index: nat, collision: nat): Path {
    Parent(target) + [ArchiveStem(FileName(target), tx, index) + Decimal(collision)]
  }

  predicate HexOrDash(c: char) {
    '0' <= c <= '9' || 'a' <= c <= 'f' || 'A' <= c <= 'F' || c == '-'
  }

  predicate ValidTransactionId(tx: string) {
    0 < |tx| <= 80 && forall c | c in tx :: HexOrDash(c)
  }

  /** A journalled archive path is accepted only beside its target, under this transaction's stem, with a number. */
  predicate ValidArchivePath(target: Path, archive: Path, tx: string, index: nat) {
    var stem := ArchiveStem(FileName(target), tx, index);
    && target != [] && archive != [] && Parent(archive) == Parent(target)
    && stem <= FileName(archive) && |FileName(archive)| > |stem|
    && forall c | c in FileName(archive)[|stem|..] :: '0' <= c <= '9'
  }

  lemma ArchivePathAccepted(target: Path, tx: string, index: nat, collision: nat)
    requires target != []
    ensures ValidArchivePath(target, ArchivePath(target, tx, index, collision), tx, index)
  {
    var archive := ArchivePath(target, tx, index, collision);
    var stem := ArchiveStem(FileName(target), tx, index);
    assert FileName(archive)[|stem|..] == Decimal(collision);
  }

  predicate Digits(s: string) {
    s != "" && forall c | c in s :: c in "0123456789"
  }

  /** The target's own name with the transaction's fragment and a number, beside the target. */
  ghost predicate AcceptableArchive(target: Path, archive: Path, tx: string, index: nat) {
    target != [] && exists number :: Digits(number) && archive == Parent(target) + [ArchiveStem(FileName(target), tx, index) + number]
  }

  lemma ArchiveAcceptedIff(target: Path, archive: Path, tx: string, index: nat)
    ensures ValidArchivePath(target, archive, tx, index) <==> AcceptableArchive(target, archive, tx, index)
  {
    hide ArchiveStem;
    var stem := ArchiveStem(FileName(target), tx, index);
    DecimalDigits();
    if ValidArchivePath(target, archive, tx, index) {
      var number := FileName(archive)[|stem|..];
      assert FileName(archive) == stem + number;
      assert archive == Parent(archive) + [FileName(archive)];
      assert Digits(number);
    }
    if target != [] {
      if number :| Digits(number) && archive == Parent(target) + [stem + number] {
        assert FileName(archive)[|stem|..] == number && Parent(archive) == Parent(target);
      }
    }
  }

  lemma DecimalDigits()
    ensures forall c: char :: '0' <= c <= '9' <==> c in "0123456789"
  {
    forall c: char | '0' <= c <= '9'
      ensures c in "0123456789"
    {
      assert "0123456789"[(c - '0') as int] == c;
    }
  }

  predicate OccursAt(s: string, part: string, at: nat) {
    at + |part| <= |s| && s[at..at + |part|] == part
  }

  /** No occurrence of the transaction fragment inside a name. */
  ghost predicate Plain(name: string) {
    forall at: nat :: !OccursAt(name, FRAGMENT, at)
  }

  ghost predicate DecoratedBy(s: string, name: string, tail: string) {
    s == "." + name + "." + FRAGMENT + tail
  }

  /** In a decorated plain name the fragment first occurs right after the name. */
  lemma FirstOccurrence(s: string, name: string, tail: string, at: nat)
    requires Plain(name) && DecoratedBy(s, name, tail) && OccursAt(s, FRAGMENT, at)
    ensures at >= |name| + 2
  {
    assert s[0] == '.' && s[|name| + 1] == '.' && '.' !in FRAGMENT;
    if 1 <= at && at + |FRAGMENT| <= |name| + 1 {
      assert name[at - 1..at - 1 + |FRAGMENT|] == s[at..at + |FRAGMENT|];
      assert OccursAt(name, FRAGMENT, at - 1);
    }
  }

  lemma DecoratedOccurs(s: string, name: string, tail: string)
    requires DecoratedBy(s, name, tail)
    ensures OccursAt(s, FRAGMENT, |name| + 2)
  {
  }

  /** Equal decorated plain names have equal names and equal tails. */
  lemma DecorationInjective(s: string, n1: string, t1: string, n2: string, t2: string)
    requires Plain(n1) && Plain(n2) && DecoratedBy(s, n1, t1) && DecoratedBy(s, n2, t2)
    ensures n1 == n2 && t1 == t2
  {
    DecoratedOccurs(s, n1, t1);
    DecoratedOccurs(s, n2, t2);
    FirstOccurrence(s, n1, t1, |n2| + 2);
    FirstOccurrence(s, n2, t2, |n1| + 2);
    assert n1 == s[1..|n1| + 1] && n2 == s[1..|n2| + 1];
    assert t1 == s[|n1| + 2 + |FRAGMENT|..] && t2 == s[|n2| + 2 + |FRAGMENT|..];
  }

  function StageTail(tx: string, index: nat): string {
    "stage-" + tx + "-" + Decimal(index)
  }

  function ArchiveTail(tx: string, index: nat, collision: nat): string {
    "rollback-" + tx + "-" + Decimal(index) + "-" + Decimal(collision)
  }

  lemma Decorations(target: Path, tx: string, index: nat, collision: nat)
    ensures DecoratedBy(StageName(FileName(target), tx, index), FileName(target), StageTail(tx, index))
    ensures DecoratedBy(ArchiveStem(FileName(target), tx, index) + Decimal(collision), FileName(target),
                        ArchiveTail(tx, index, collision))
  {
    assert ArchiveStem(FileName(target), tx, index) + Decimal(collision)
      == "." + FileName(target) + "." + FRAGMENT + ArchiveTail(tx, index, collision);
    assert StageName(FileName(target), tx, index) == "." + FileName(target) + "." + FRAGMENT + StageTail(tx, index);
  }

  /** The paths one transaction may create for its `index`-th anchor. */
  ghost predicate Owned(target: Path, tx: string, index: nat, p: Path) {
    p == target || p == StagePath(target, tx, index) || exists k: nat :: p == ArchivePath(target, tx, index, k)
  }

  /** Every path the transaction may create belongs to one anchor, and each anchor's three kinds differ. */
  ghost predicate WellNamed(targets: seq<Path>, tx: string) {
    && (forall i, j, p | 0 <= i < j < |targets| && Owned(targets[i], tx, i, p) :: !Owned(targets[j], tx, j, p))
    && (forall i | 0 <= i < |targets| ::
          && targets[i] != [] && targets[i] != StagePath(targets[i], tx, i)
          && (forall k: nat :: ArchivePath(targets[i], tx, i, k) != targets[i]
               && ArchivePath(targets[i], tx, i, k) != StagePath(targets[i], tx, i)))
  }

  lemma TailsDiffer(tx: string, i: nat, j: nat, k: nat, l: nat)
    requires i < 10 && j < 10
    ensures StageTail(tx, i) != ArchiveTail(tx, j, k)
    ensures i != j ==> StageTail(tx, i) != StageTail(tx, j)
    ensures i != j ==> ArchiveTail(tx, i, k) != ArchiveTail(tx, j, l)
  {
    assert StageTail(tx, i)[0] == 's' && ArchiveTail(tx, j, k)[0] == 'r';
    if i != j {
      assert Digit(i) != Digit(j);
      assert StageTail(tx, i)[|tx| + 7] == Digit(i) && StageTail(tx, j)[|tx| + 7] == Digit(j);
      assert ArchiveTail(tx, i, k)[|tx| + 10] == Digit(i) && ArchiveTail(tx, j, l)[|tx| + 10] == Digit(j);
    }
  }

  /** A plain name is never a decorated one. */
  lemma PlainNotDecorated(s: string, name: string, tail: string)
    requires DecoratedBy(s, name, tail)
    ensures !Plain(s)
  {
    DecoratedOccurs(s, name, tail);
  }

  ghost predicate IsTail(tx: string, index: nat, tail: string) {
    tail == StageTail(tx, index) || exists k: nat :: tail == ArchiveTail(tx, index, k)
  }

  /** The decorated tail of an owned path, or nothing for the target itself. */
  lemma OwnedName(target: Path, tx: string, index: nat, p: Path) returns (tail: string)
    requires target != [] && Plain(FileName(target)) && Owned(target, tx, index, p) && p != target
    ensures p != [] && DecoratedBy(FileName(p), FileName(target), tail)
    ensures IsTail(tx, index, tail)
  {
    if p == StagePath(target, tx, index) {
      Decorations(target, tx, index, 0);
      tail := StageTail(tx, index);
    } else {
      var k: nat :| p == ArchivePath(target, tx, index, k);
      Decorations(target, tx, index, k);
      tail := ArchiveTail(tx, index, k);
    }
  }

  lemma ApartOwned(t1: Path, t2: Path, tx: string, i: nat, j: nat, p: Path)
    requires t1 != [] && t2 != [] && t1 != t2 && i != j && i < 10 && j < 10
    requires Plain(FileName(t1)) && Plain(FileName(t2))
    requires Owned(t1, tx, i, p)
    ensures !Owned(t2, tx, j, p)
  {
    if Owned(t2, tx, j, p) {
      if p == t1 {
        var tail := OwnedName(t2, tx, j, p);
        PlainNotDecorated(FileName(p), FileName(t2), tail);
      } else if p == t2 {
        var tail := OwnedName(t1, tx, i, p);
        PlainNotDecorated(FileName(p), FileName(t1), tail);
      } else {
        var u := OwnedName(t1, tx, i, p);
        var v := OwnedName(t2, tx, j, p);
        DecorationInjective(FileName(p), FileName(t1), u, FileName(t2), v);
        NoSharedTail(tx, i, j, u);
      }
      assert false;
    }
  }

  lemma NoSharedTail(tx: string, i: nat, j: nat, tail: string)
    requires i < 10 && j < 10 && i != j && IsTail(tx, i, tail)
    ensures !IsTail(tx, j, tail)
  {
    TailsDiffer(tx, i, j, 0, 0);
    forall k: nat, l: nat
      ensures ArchiveTail(tx, i, k) != ArchiveTail(tx, j, l)
      ensures StageTail(tx, i) != ArchiveTail(tx, j, k) && StageTail(tx, j) != ArchiveTail(tx, i, k)
    {
      TailsDiffer(tx, i, j, k, l);
      TailsDiffer(tx, j, i, k, l);
    }
  }

  /** Target names that do not themselves contain the fragment keep every transaction path apart. */
  lemma PlainNamesAreWellNamed(targets: seq<Path>, tx: string)
    requires |targets| <= 10
    requires forall i | 0 <= i < |targets| :: targets[i] != [] && Plain(FileName(targets[i]))
    requires forall i, j | 0 <= i < j < |targets| :: targets[i] != targets[j]
    ensures WellNamed(targets, tx)
  {
    forall i, j, p | 0 <= i < j < |targets| && Owned(targets[i], tx, i, p)
      ensures !Owned(targets[j], tx, j, p)
    {
      ApartOwned(targets[i], targets[j], tx, i, j, p);
    }
    forall i | 0 <= i < |targets|
      ensures targets[i] != StagePath(targets[i], tx, i)
      ensures forall k: nat :: ArchivePath(targets[i], tx, i, k) != targets[i]
    {
      OwnPathsDiffer(targets[i], tx, i);
    }
    forall i, k: nat | 0 <= i < |targets|
      ensures ArchivePath(targets[i], tx, i, k) != StagePath(targets[i], tx, i)
    {
      StageNotArchive(targets[i], tx, i, k);
    }
  }

  lemma OwnPathsDiffer(target: Path, tx: string, i: nat)
    requires target != [] && Plain(FileName(target))
    ensures target != StagePath(target, tx, i)
    ensures forall k: nat :: ArchivePath(target, tx, i, k) != target
  {
    Decorations(target, tx, i, 0);
    PlainNotDecorated(StageName(FileName(target), tx, i), FileName(target), StageTail(tx, i));
    forall k: nat
      ensures ArchivePath(target, tx, i, k) != target
    {
      Decorations(target, tx, i, k);
      PlainNotDecorated(ArchiveStem(FileName(target), tx, i) + Decimal(k), FileName(target), ArchiveTail(tx, i, k));
    }
  }

  lemma StageNotArchive(target: Path, tx: string, i: nat, k: nat)
    requires i < 10
    ensures ArchivePath(target, tx, i, k) != StagePath(target, tx, i)
  {
    Decorations(target, tx, i, k);
    TailsDiffer(tx, i, i, k, k);
    var stem, name := "." + FileName(target) + "." + FRAGMENT, FileName(target);
    assert StageName(name, tx, i)[|stem|..] == StageTail(tx, i);
    assert (ArchiveStem(name, tx, i) + Decimal(k))[|stem|..] == ArchiveTail(tx, i, k);
    assert FileName(ArchivePath(target, tx, i, k)) != FileName(StagePath(target, tx, i));
  }
}
