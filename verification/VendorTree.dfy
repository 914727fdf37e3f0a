/** Vendor-state trees, their manifest, and the copy made from it. */
module VendorTree {
  import opened Wrappers
  import opened Sorting
  import opened Layout

  /** What a directory holds, in name order. */
  datatype Forest = Nil | Cons(name: string, node: Node, rest: Forest)

  datatype Node =
    | File(bytes: seq<int>, modified: Option<int>, executable: bool)
    | Folder(children: Forest)
    | Link
    | Special

  datatype Fingerprint = Fingerprint(length: nat, modified: Option<int>, executable: bool)

  datatype Kind = Directory | RegularFile(seen: Fingerprint)

  datatype VendorEntry = VendorEntry(relative: Path, kind: Kind)

  datatype Error = LinkRefused | SpecialRefused | NoParent | Exists | SourceChanged

  datatype Manifest = Manifest(entries: seq<VendorEntry>, skipped: seq<Path>) {
    function Then(later: Manifest): Manifest {
      Manifest(entries + later.entries, skipped + later.skipped)
    }
  }

  function Prepend(before: Manifest, r: Result<Manifest, Error>): Result<Manifest, Error> {
    if r.Ok? then Ok(before.Then(r.value)) else r
  }

  const NOTHING := Manifest([], [])

  function Names(f: Forest): set<string> {
    match f
    case Nil => {}
    case Cons(name, _, rest) => {name} + Names(rest)
  }

  /** Names strictly increase in every directory. */
  predicate WellFormed(f: Forest) {
    match f
    case Nil => true
    case Cons(name, node, rest) =>
      && (forall n | n in Names(rest) :: n != name && NameLe(name, n))
      && (node.Folder? ==> WellFormed(node.children)) && WellFormed(rest)
  }

  /** The name's extension, after its last dot, is `lock`. */
  predicate RuntimeLockName(name: string) {
    |name| > 5 && name[|name| - 5..] == ".lock"
  }

  /** Where a name's last dot is. */
  function LastDot(name: string): (d: Option<nat>)
    ensures d.Some? ==> d.value < |name| && name[d.value] == '.' && forall k | d.value < k < |name| :: name[k] != '.'
    ensures d.None? ==> forall k | 0 <= k < |name| :: name[k] != '.'
  {
    if name == "" then None
    else if name[|name| - 1] == '.' then Some(|name| - 1)
    else LastDot(name[..|name| - 1])
  }

  /** What follows a name's last dot, unless the name starts there. */
  function Extension(name: string): Option<string> {
    var d := LastDot(name);
    if d.None? || d.value == 0 then None else Some(name[d.value + 1..])
  }

  lemma LastDotIs(name: string, n: nat)
    requires n < |name| && name[n] == '.' && forall k | n < k < |name| :: name[k] != '.'
    ensures LastDot(name) == Some(n)
  {
    hide LastDot;
    var d := LastDot(name);
    assert d.Some?;
    assert d.value == n;
  }

  lemma LockSuffix(name: string)
    requires |name| >= 5
    ensures name[|name| - 5..] == ".lock" <==> name[|name| - 5] == '.' && name[|name| - 4..] == "lock"
  {
    var n := |name| - 5;
    assert name[n..] == [name[n]] + name[n + 1..];
    assert ".lock" == ['.'] + "lock";
  }

  lemma NoDotAfter(name: string, n: nat)
    requires n + 5 == |name| && name[n + 1..] == "lock"
    ensures forall k | n < k < |name| :: name[k] != '.'
  {
    forall k | n < k < |name|
      ensures name[k] != '.'
    {
      assert name[k] == name[n + 1..][k - n - 1];
    }
  }

  /** Exactly the names with the extension `lock` are those of runtime locks: a stem that is not empty, and `.lock`. */
  lemma LockNameIff(name: string)
    ensures RuntimeLockName(name) <==> Extension(name) == Some("lock")
    ensures RuntimeLockName(name) <==> |name| >= 5 && name[..|name| - 5] != "" && name == name[..|name| - 5] + ".lock"
  {
    hide LastDot;
    if |name| >= 5 {
      var n := |name| - 5;
      LockSuffix(name);
      assert name == name[..n] + name[n..];
      if name[n] == '.' && name[n + 1..] == "lock" {
        NoDotAfter(name, n);
        LastDotIs(name, n);
      }
    }
  }

  function PrintOf(n: Node): Fingerprint
    requires n.File?
  {
    Fingerprint(|n.bytes|, n.modified, n.executable)
  }

  predicate Skipped(name: string, node: Node) {
    node.File? && RuntimeLockName(name)
  }

  // ---- The manifest ----

  function InspectNode(node: Node, path: Path): Result<Manifest, Error> {
    match node
    case Link => Err(LinkRefused)
    case Special => Err(SpecialRefused)
    case File(_, _, _) => Ok(Manifest([VendorEntry(path, RegularFile(PrintOf(node)))], []))
    case Folder(children) =>
      Prepend(Manifest([VendorEntry(path, Directory)], []), Inspect(children, path))
  }

  function Inspect(f: Forest, relative: Path): Result<Manifest, Error> {
    match f
    case Nil => Ok(NOTHING)
    case Cons(name, node, rest) =>
      var here :- if Skipped(name, node) then Ok(Manifest([], [relative + [name]])) else InspectNode(node, relative + [name]);
      Prepend(here, Inspect(rest, relative))
  }

  lemma PrependNothing(r: Result<Manifest, Error>)
    ensures Prepend(NOTHING, r) == r
  {
    if r.Ok? {
      assert [] + r.value.entries == r.value.entries && [] + r.value.skipped == r.value.skipped;
    }
  }

  lemma PrependErrors(before: Manifest)
    ensures forall error :: Prepend(before, Err(error)) == Err(error)
  {
  }

  lemma PrependToNothing(before: Manifest)
    ensures Prepend(before, Ok(NOTHING)) == Ok(before)
  {
    assert before.entries + [] == before.entries && before.skipped + [] == before.skipped;
  }

  lemma PrependTwice(a: Manifest, b: Manifest, r: Result<Manifest, Error>)
    ensures Prepend(a, Prepend(b, r)) == Prepend(a.Then(b), r)
  {
    if r.Ok? {
      assert a.entries + (b.entries + r.value.entries) == a.entries + b.entries + r.value.entries;
      assert a.skipped + (b.skipped + r.value.skipped) == a.skipped + b.skipped + r.value.skipped;
    }
  }

  lemma InspectNil(relative: Path)
    ensures Inspect(Nil, relative) == Ok(NOTHING)
  {
  }

  lemma InspectStep(f: Forest, relative: Path)
    requires f.Cons?
    ensures var path := relative + [f.name];
      Inspect(f, relative) ==
      match f.node
      case Link => Err(LinkRefused)
      case Special => Err(SpecialRefused)
      case File(_, _, _) =>
        Prepend(if RuntimeLockName(f.name) then Manifest([], [path])
                else Manifest([VendorEntry(path, RegularFile(PrintOf(f.node)))], []), Inspect(f.rest, relative))
      case Folder(children) =>
        match Inspect(children, path)
        case Err(error) => Err(error)
        case Ok(inside) => Prepend(Manifest([VendorEntry(path, Directory)], []).Then(inside), Inspect(f.rest, relative))
  {
  }

  /** The two lists the walk pushes into. */
  class Walk {
    var entries: seq<VendorEntry>
    var skipped: seq<Path>

    constructor ()
      ensures entries == [] && skipped == []
    {
      entries, skipped := [], [];
    }

    method InspectVendorTree(f: Forest, relative: Path) returns (r: Result<(), Error>)
      modifies this
      ensures match Inspect(f, relative)
              case Err(error) => r == Err(error)
              case Ok(m) => r.Ok? && entries == old(entries) + m.entries && skipped == old(skipped) + m.skipped
      decreases f
    {
      hide Inspect, RuntimeLockName, PrintOf, Prepend;
      var left := f;
      ghost var done := NOTHING;
      PrependNothing(Inspect(f, relative));
      while left.Cons?
        invariant left == f || left < f
        invariant entries == old(entries) + done.entries && skipped == old(skipped) + done.skipped
        invariant Inspect(f, relative) == Prepend(done, Inspect(left, relative))
        decreases left
      {
        var path, node := relative + [left.name], left.node;
        InspectStep(left, relative);
        PrependErrors(done);
        ghost var here := NOTHING;
        match node {
          case Link => return Err(LinkRefused);
          case Special => return Err(SpecialRefused);
          case File(_, _, _) =>
            if RuntimeLockName(left.name) {
              skipped := skipped + [path];
              here := Manifest([], [path]);
            } else {
              entries := entries + [VendorEntry(path, RegularFile(PrintOf(node)))];
              here := Manifest([VendorEntry(path, RegularFile(PrintOf(node)))], []);
            }
          case Folder(children) =>
            entries := entries + [VendorEntry(path, Directory)];
            var _ :- InspectVendorTree(children, path);
            here := Manifest([VendorEntry(path, Directory)], []).Then(Inspect(children, path).value);
        }
        PrependTwice(done, here, Inspect(left.rest, relative));
        done := done.Then(here);
        left := left.rest;
      }
      InspectNil(relative);
      PrependToNothing(done);
      return Ok(());
    }
  }
}
