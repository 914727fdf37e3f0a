/** Replaying a manifest makes exactly the lock-free copy of the tree, and verification accepts exactly such copies. */
module VendorCopy {
  import opened Wrappers
  import opened Sorting
  import opened Layout
  import opened StagedLayout
  import opened VendorTree

  type Made = map<Path, Entry>

  function Find(f: Forest, p: Path): Option<Node>
    decreases |p|, f
  {
    if p == [] then None
    else
      match f
      case Nil => None
      case Cons(name, node, rest) =>
        if p[0] != name then Find(rest, p)
        else if |p| == 1 then Some(node)
        else if node.Folder? then Find(node.children, p[1..])
        else None
  }

  predicate SourceUnchanged(source: Forest, e: VendorEntry) {
    e.kind.RegularFile? ==>
      var found := Find(source, e.relative);
      found.Some? && found.value.File? && PrintOf(found.value) == e.kind.seen
  }

  /** What copying a manifest entry stores. */
  function EntryOf(source: Forest, e: VendorEntry): Entry
    requires SourceUnchanged(source, e)
  {
    if e.kind.Directory? then MadeDirectory else MadeFile(Find(source, e.relative).value.bytes, e.kind.seen.executable)
  }

  /** Create one entry: a file's source must be unchanged, its name free and its parent a directory. */
  function Place(source: Forest, made: Made, e: VendorEntry): Result<Made, Error> {
    var p := e.relative;
    if !SourceUnchanged(source, e) then Err(SourceChanged)
    else if Blocked(made, p) then Err(if p == [] || p in made then Exists else NoParent)
    else Ok(Perform(made, p, Put(p, EntryOf(source, e))))
  }

  function Replay(source: Forest, made: Made, entries: seq<VendorEntry>): Result<Made, Error>
    decreases entries
  {
    if entries == [] then Ok(made)
    else
      var next :- Place(source, made, entries[0]);
      Replay(source, next, entries[1..])
  }

  /** The copy: runtime locks dropped, modification times new. */
  function CopyOf(f: Forest, now: Option<int>): Forest {
    match f
    case Nil => Nil
    case Cons(name, node, rest) =>
      if Skipped(name, node) then CopyOf(rest, now) else Cons(name, CopyOfNode(node, now), CopyOf(rest, now))
  }

  function CopyOfNode(node: Node, now: Option<int>): Node {
    match node
    case Folder(children) => Folder(CopyOf(children, now))
    case File(_, _, _) => node.(modified := now)
    case _ => node
  }

  /** A tree as the map from its paths to what is stored there. */
  function Flatten(f: Forest, relative: Path): Made {
    match f
    case Nil => map[]
    case Cons(name, node, rest) => FlattenNode(node, relative + [name]) + Flatten(rest, relative)
  }

  function FlattenNode(node: Node, path: Path): Made {
    match node
    case File(bytes, _, executable) => map[path := MadeFile(bytes, executable)]
    case Folder(children) => map[path := MadeDirectory] + Flatten(children, path)
    case _ => map[]
  }

  predicate Under(p: Path, relative: Path, names: set<string>) {
    |p| > |relative| && p[..|relative|] == relative && p[|relative|] in names
  }

  lemma Deeper(p: Path, relative: Path, name: string, inside: set<string>, names: set<string>)
    requires name in names
    ensures Under(p, relative + [name], inside) ==> Under(p, relative, names)
  {
    var path := relative + [name];
    if Under(p, path, inside) {
      assert p[..|path|][..|relative|] == relative && p[..|path|][|relative|] == name;
    }
  }

  lemma {:induction false} FlattenKeys(f: Forest, relative: Path)
    ensures forall p | p in Flatten(f, relative) :: Under(p, relative, Names(f))
    decreases f
  {
    if f.Cons? {
      FlattenKeys(f.rest, relative);
      FlattenNodeKeys(f.node, relative, f.name);
    }
  }

  lemma {:induction false} FlattenNodeKeys(node: Node, relative: Path, name: string)
    ensures forall p | p in FlattenNode(node, relative + [name]) :: Under(p, relative, {name})
    decreases node
  {
    if node.Folder? {
      var path := relative + [name];
      FlattenKeys(node.children, path);
      forall p | p in FlattenNode(node, path)
        ensures Under(p, relative, {name})
      {
        if p != path {
          assert p in Flatten(node.children, path);
          Deeper(p, relative, name, Names(node.children), {name});
        }
      }
    }
  }

  lemma {:induction false} ReplayAppend(source: Forest, made: Made, a: seq<VendorEntry>, b: seq<VendorEntry>)
    requires Replay(source, made, a).Ok?
    ensures Replay(source, made, a + b) == Replay(source, Replay(source, made, a).value, b)
    decreases a
  {
    hide Place;
    if a == [] {
      assert a + b == b;
    } else {
      assert (a + b)[1..] == a[1..] + b;
      ReplayAppend(source, Place(source, made, a[0]).value, a[1..], b);
    }
  }

  /** Below `relative`, the source holds `f`. */
  ghost predicate Holds(source: Forest, f: Forest, relative: Path) {
    forall q: Path | q != [] && q[0] in Names(f) :: Find(source, relative + q) == Find(f, q)
  }

  lemma HoldsRest(source: Forest, f: Forest, relative: Path)
    requires f.Cons? && WellFormed(f) && Holds(source, f, relative)
    ensures Holds(source, f.rest, relative)
  {
    forall q: Path | q != [] && q[0] in Names(f.rest)
      ensures Find(source, relative + q) == Find(f.rest, q)
    {
      assert q[0] in Names(f);
    }
  }

  lemma HoldsInside(source: Forest, f: Forest, relative: Path)
    requires f.Cons? && f.node.Folder? && Holds(source, f, relative)
    ensures Holds(source, f.node.children, relative + [f.name])
  {
    forall q: Path | q != [] && q[0] in Names(f.node.children)
      ensures Find(source, relative + [f.name] + q) == Find(f.node.children, q)
    {
      var longer := [f.name] + q;
      assert relative + [f.name] + q == relative + longer && longer[1..] == q;
      assert longer[0] in Names(f);
    }
  }

  lemma HoldsHead(source: Forest, f: Forest, relative: Path)
    requires f.Cons? && Holds(source, f, relative)
    ensures Find(source, relative + [f.name]) == Some(f.node)
  {
    assert [f.name][0] in Names(f);
  }

  /** The directory at `relative` exists and none of `f` is there yet. */
  ghost predicate Awaits(made: Made, f: Forest, relative: Path) {
    && (relative != [] ==> relative in made && made[relative].MadeDirectory?)
    && forall p | p in made :: !Under(p, relative, Names(f))
  }

  lemma AwaitsHead(made: Made, f: Forest, relative: Path)
    requires f.Cons? && Awaits(made, f, relative)
    ensures var path := relative + [f.name];
      && path !in made && path[..|path| - 1] == relative
      && (f.node.Folder? ==> Awaits(made[path := MadeDirectory], f.node.children, path))
  {
    var path := relative + [f.name];
    assert path !in made by {
      if path in made { assert Under(path, relative, Names(f)); }
    }
    if f.node.Folder? {
      forall p | p in made[path := MadeDirectory]
        ensures !Under(p, path, Names(f.node.children))
      {
        Deeper(p, relative, f.name, Names(f.node.children), Names(f));
        assert p == path || !Under(p, relative, Names(f));
      }
    }
  }

  lemma AwaitsRest(made: Made, f: Forest, relative: Path, placed: Made)
    requires f.Cons? && WellFormed(f) && Awaits(made, f, relative)
    requires forall p | p in placed :: Under(p, relative, {f.name})
    ensures Awaits(made + placed, f.rest, relative)
  {
    forall p | p in made + placed
      ensures !Under(p, relative, Names(f.rest))
    {
      if p in made { assert !Under(p, relative, Names(f)); }
    }
  }

  lemma ReplayOne(source: Forest, made: Made, e: VendorEntry)
    requires Place(source, made, e).Ok?
    ensures Replay(source, made, [e]) == Place(source, made, e)
  {
    assert [e][1..] == [];
  }

  lemma Associates(a: Made, b: Made, c: Made)
    ensures (a + b) + c == a + (b + c)
  {
  }

  /** Replaying the manifest of a subtree adds exactly its copy; every parent is found, no name is taken. */
  lemma {:induction false} ReplayForest(source: Forest, made: Made, f: Forest, relative: Path, now: Option<int>)
    requires WellFormed(f) && Inspect(f, relative).Ok? && Holds(source, f, relative) && Awaits(made, f, relative)
    ensures Replay(source, made, Inspect(f, relative).value.entries) == Ok(made + Flatten(CopyOf(f, now), relative))
    decreases f
  {
    hide Holds, Awaits, Place, Under, RuntimeLockName;
    if f.Nil? {
      assert made + map[] == made;
    } else {
      InspectStep(f, relative);
      HoldsRest(source, f, relative);
      var rest := Inspect(f.rest, relative).value.entries;
      if Skipped(f.name, f.node) {
        AwaitsSkipped(made, f, relative);
        assert Inspect(f, relative).value.entries == rest;
        ReplayForest(source, made, f.rest, relative, now);
      } else {
        var here := ReplayHead(source, made, f, relative, now);
        assert Inspect(f, relative).value.entries == here + rest;
        var placed := FlattenNode(CopyOfNode(f.node, now), relative + [f.name]);
        FlattenNodeKeys(CopyOfNode(f.node, now), relative, f.name);
        AwaitsRest(made, f, relative, placed);
        ReplayForest(source, made + placed, f.rest, relative, now);
        ReplayAppend(source, made, here, rest);
        Associates(made, placed, Flatten(CopyOf(f.rest, now), relative));
      }
    }
  }

  lemma AwaitsSkipped(made: Made, f: Forest, relative: Path)
    requires f.Cons? && Awaits(made, f, relative)
    ensures Awaits(made, f.rest, relative)
  {
    forall p | p in made
      ensures !Under(p, relative, Names(f.rest))
    {
      assert !Under(p, relative, Names(f));
    }
  }

  lemma {:induction false} ReplayHead(source: Forest, made: Made, f: Forest, relative: Path, now: Option<int>)
    returns (here: seq<VendorEntry>)
    requires f.Cons? && !Skipped(f.name, f.node) && WellFormed(f) && Inspect(f, relative).Ok?
    requires Holds(source, f, relative) && Awaits(made, f, relative)
    ensures InspectNode(f.node, relative + [f.name]).Ok? && here == InspectNode(f.node, relative + [f.name]).value.entries
    ensures Replay(source, made, here) == Ok(made + FlattenNode(CopyOfNode(f.node, now), relative + [f.name]))
    decreases f, 0
  {
    var path := relative + [f.name];
    AwaitsHead(made, f, relative);
    HoldsHead(source, f, relative);
    PlaceHead(source, made, f, relative);
    if f.node.Folder? {
      var folder, inside := VendorEntry(path, Directory), Inspect(f.node.children, path).value.entries;
      here := [folder] + inside;
      HoldsInside(source, f, relative);
      ReplayForest(source, made[path := MadeDirectory], f.node.children, path, now);
      ReplayOne(source, made, folder);
      ReplayAppend(source, made, [folder], inside);
      Associates(made, map[path := MadeDirectory], Flatten(CopyOf(f.node.children, now), path));
      assert made[path := MadeDirectory] == made + map[path := MadeDirectory];
    } else {
      here := [VendorEntry(path, RegularFile(PrintOf(f.node)))];
      ReplayOne(source, made, here[0]);
    }
  }

  lemma PlaceHead(source: Forest, made: Made, f: Forest, relative: Path)
    requires f.Cons? && Find(source, relative + [f.name]) == Some(f.node) && Awaits(made, f, relative)
    ensures f.node.Folder? ==>
              Place(source, made, VendorEntry(relative + [f.name], Directory)) == Ok(made[relative + [f.name] := MadeDirectory])
    ensures f.node.File? ==>
              Place(source, made, VendorEntry(relative + [f.name], RegularFile(PrintOf(f.node))))
              == Ok(made + map[relative + [f.name] := MadeFile(f.node.bytes, f.node.executable)])
  {
    var path := relative + [f.name];
    AwaitsHead(made, f, relative);
    if f.node.File? {
      var stored := MadeFile(f.node.bytes, f.node.executable);
      assert made + map[path := stored] == made[path := stored];
    }
  }

  lemma HoldsWhole(f: Forest)
    ensures Holds(f, f, [])
  {
    forall q: Path | q != [] && q[0] in Names(f)
      ensures Find(f, [] + q) == Find(f, q)
    {
      assert [] + q == q;
    }
  }

  /** Replaying a tree's manifest from an empty root never fails and makes exactly the tree's copy. */
  lemma ReplayMakesCopy(f: Forest, now: Option<int>)
    requires WellFormed(f) && Inspect(f, []).Ok?
    ensures Replay(f, map[], Inspect(f, []).value.entries) == Ok(Flatten(CopyOf(f, now), []))
  {
    hide Replay, Flatten;
    HoldsWhole(f);
    ReplayForest(f, map[], f, [], now);
    assert map[] + Flatten(CopyOf(f, now), []) == Flatten(CopyOf(f, now), []);
  }

  // ---- What the copy stores ----

  /** What the tree has at this path, unless it is a runtime lock. */
  function Worth(f: Forest, q: Path): Option<Entry>
    requires q != []
  {
    match Find(f, q)
    case Some(File(bytes, _, executable)) =>
      if Extension(q[|q| - 1]) == Some("lock") then None else Some(MadeFile(bytes, executable))
    case Some(Folder(_)) => Some(MadeDirectory)
    case _ => None
  }

  ghost predicate StoresAt(made: Made, relative: Path, f: Forest, q: Path)
    requires q != []
  {
    if relative + q in made then Worth(f, q) == Some(made[relative + q]) else Worth(f, q) == None
  }

  lemma WorthSteps(f: Forest, q: Path)
    requires f.Cons? && q != []
    ensures q[0] != f.name ==> Worth(f, q) == Worth(f.rest, q)
    ensures q[0] == f.name && |q| > 1 ==> Worth(f, q) == if f.node.Folder? then Worth(f.node.children, q[1..]) else None
    ensures q == [f.name] ==>
              Worth(f, q) == match f.node
                             case File(bytes, _, executable) =>
                               if RuntimeLockName(f.name) then None else Some(MadeFile(bytes, executable))
                             case Folder(_) => Some(MadeDirectory)
                             case _ => None
  {
    hide Extension, RuntimeLockName;
    LockNameIff(f.name);
  }

  lemma {:induction false} NothingElsewhere(f: Forest, q: Path)
    requires q != [] && q[0] !in Names(f)
    ensures Worth(f, q) == None
    decreases f
  {
    hide Extension;
    if f.Cons? { NothingElsewhere(f.rest, q); }
  }

  /** At every path the copy stores a directory for a directory, a file's bytes and executable bit for a file that is not a lock,
      and nothing for anything else. */
  lemma {:induction false} CopyStores(f: Forest, relative: Path, now: Option<int>, q: Path)
    requires WellFormed(f) && q != []
    ensures StoresAt(Flatten(CopyOf(f, now), relative), relative, f, q)
    decreases f
  {
    hide Worth, RuntimeLockName;
    var made, p := Flatten(CopyOf(f, now), relative), relative + q;
    FlattenKeys(CopyOf(f, now), relative);
    if f.Nil? {
      NothingElsewhere(f, q);
    } else {
      WorthSteps(f, q);
      CopyStores(f.rest, relative, now, q);
      FlattenKeys(CopyOf(f.rest, now), relative);
      CopyNames(f.rest, now);
      assert p[..|relative|] == relative && p[|relative|] == q[0];
      if q[0] == f.name {
        assert p !in Flatten(CopyOf(f.rest, now), relative);
        if !Skipped(f.name, f.node) {
          HeadStores(f, relative, now, q);
        } else if |q| == 1 {
          assert q == [f.name];
        }
      } else if !Skipped(f.name, f.node) {
        FlattenNodeKeys(CopyOfNode(f.node, now), relative, f.name);
      }
    }
  }

  lemma {:induction false} HeadStores(f: Forest, relative: Path, now: Option<int>, q: Path)
    requires f.Cons? && WellFormed(f) && q != [] && q[0] == f.name && !Skipped(f.name, f.node)
    ensures var made := FlattenNode(CopyOfNode(f.node, now), relative + [f.name]);
      StoresAt(made, relative, f, q)
    decreases f, 0
  {
    hide Worth, RuntimeLockName;
    var path := relative + [f.name];
    WorthSteps(f, q);
    if |q| == 1 {
      assert q == [f.name];
      if f.node.Folder? {
        FlattenKeys(CopyOf(f.node.children, now), path);
      }
    } else {
      assert relative + q == path + q[1..] && relative + q != path;
      if f.node.Folder? {
        CopyStores(f.node.children, path, now, q[1..]);
      }
    }
  }

  lemma {:induction false} CopyNames(f: Forest, now: Option<int>)
    ensures Names(CopyOf(f, now)) <= Names(f)
    decreases f
  {
    if f.Cons? { CopyNames(f.rest, now); }
  }

  // ---- A source that changed ----

  /** A file listed in the manifest is still there with the length, time and executable bit it was listed with. */
  predicate StillThere(source: Forest, e: VendorEntry) {
    e.kind.RegularFile? ==>
      match Find(source, e.relative)
      case Some(File(bytes, modified, executable)) =>
        |bytes| == e.kind.seen.length && modified == e.kind.seen.modified && executable == e.kind.seen.executable
      case _ => false
  }

  ghost predicate SameShape(a: Made, b: Made) {
    a.Keys == b.Keys && forall p | p in a :: a[p].MadeDirectory? == b[p].MadeDirectory?
  }

  lemma {:induction false} ReplayFrom(f: Forest, source: Forest, a: Made, b: Made, entries: seq<VendorEntry>)
    requires Replay(f, a, entries).Ok? && SameShape(a, b)
    ensures Replay(source, b, entries).Ok? <==> forall e | e in entries :: StillThere(source, e)
    ensures Replay(source, b, entries).Err? ==> Replay(source, b, entries).error == SourceChanged
    decreases entries
  {
    if entries != [] {
      var e := entries[0];
      assert entries == [e] + entries[1..];
      assert SourceUnchanged(source, e) <==> StillThere(source, e);
      if StillThere(source, e) {
        ReplayFrom(f, source, Place(f, a, e).value, Place(source, b, e).value, entries[1..]);
      }
    }
  }

  /** Replaying a manifest against a later state of the tree fails exactly when a listed file is gone or differs from its listing,
      and says so. */
  lemma ReplayLater(f: Forest, source: Forest)
    requires WellFormed(f) && Inspect(f, []).Ok?
    ensures var entries := Inspect(f, []).value.entries;
      && (Replay(source, map[], entries).Ok? <==> forall e | e in entries :: StillThere(source, e))
      && (Replay(source, map[], entries).Err? ==> Replay(source, map[], entries).error == SourceChanged)
  {
    hide Replay, StillThere;
    ReplayMakesCopy(f, None);
    ReplayFrom(f, source, map[], map[], Inspect(f, []).value.entries);
  }
}
