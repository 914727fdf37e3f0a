/** Comparing a copied vendor tree with its manifest and its source. */
module VendorVerify {
  import opened Wrappers
  import opened Sorting
  import opened Layout
  import opened StagedLayout
  import opened VendorTree
  import opened VendorCopy

  predicate KindsMatch(a: Kind, b: Kind) {
    match (a, b)
    case (Directory, Directory) => true
    case (RegularFile(x), RegularFile(y)) => x.length == y.length && x.executable == y.executable
    case _ => false
  }

  predicate ContentsMatch(expected: seq<VendorEntry>, actual: seq<VendorEntry>) {
    && |expected| == |actual|
    && forall i | 0 <= i < |expected| ::
         expected[i].relative == actual[i].relative && KindsMatch(expected[i].kind, actual[i].kind)
  }

  predicate SameBytes(a: Option<Node>, b: Option<Node>) {
    a.Some? && b.Some? && a.value.File? && b.value.File? && a.value.bytes == b.value.bytes
  }

  predicate FileMatches(source: Forest, target: Forest, e: VendorEntry) {
    e.kind.RegularFile? ==> SameBytes(Find(source, e.relative), Find(target, e.relative))
  }

  predicate CopyVerifies(expected: seq<VendorEntry>, source: Forest, target: Forest) {
    var actual := Inspect(target, []);
    && actual.Ok? && ContentsMatch(expected, actual.value.entries) && actual.value.skipped == []
    && forall i | 0 <= i < |expected| :: FileMatches(source, target, expected[i])
  }

  method VerifyVendorCopy(expected: seq<VendorEntry>, source: Forest, target: Forest) returns (ok: bool)
    ensures ok == CopyVerifies(expected, source, target)
  {
    hide Inspect, Find, ContentsMatch, SameBytes;
    var walk := new Walk();
    var inspected := walk.InspectVendorTree(target, []);
    if inspected.Err? {
      return false;
    }
    assert walk.entries == Inspect(target, []).value.entries && walk.skipped == Inspect(target, []).value.skipped;
    if !ContentsMatch(expected, walk.entries) || walk.skipped != [] {
      return false;
    }
    for i := 0 to |expected|
      invariant forall k | 0 <= k < i :: FileMatches(source, target, expected[k])
    {
      if expected[i].kind.RegularFile? && !SameBytes(Find(source, expected[i].relative), Find(target, expected[i].relative)) {
        assert !FileMatches(source, target, expected[i]);
        return false;
      }
    }
    return true;
  }

  // ---- The copy's own manifest ----

  lemma MatchAppend(a: seq<VendorEntry>, a': seq<VendorEntry>, b: seq<VendorEntry>, b': seq<VendorEntry>)
    requires ContentsMatch(a, a') && ContentsMatch(b, b')
    ensures ContentsMatch(a + b, a' + b')
  {
  }

  /** The copy's manifest lists the same paths, kinds, lengths and executable bits, and skips no lock. */
  lemma {:induction false} CopyInspects(f: Forest, relative: Path, now: Option<int>)
    requires Inspect(f, relative).Ok?
    ensures Inspect(CopyOf(f, now), relative).Ok?
    ensures ContentsMatch(Inspect(f, relative).value.entries, Inspect(CopyOf(f, now), relative).value.entries)
    ensures Inspect(CopyOf(f, now), relative).value.skipped == []
    decreases f
  {
    hide ContentsMatch, RuntimeLockName;
    EmptyMatches();
    if f.Cons? {
      InspectStep(f, relative);
      CopyInspects(f.rest, relative, now);
      if !Skipped(f.name, f.node) {
        var path := relative + [f.name];
        InspectStep(CopyOf(f, now), relative);
        if f.node.Folder? {
          CopyInspects(f.node.children, path, now);
          OneMatches(VendorEntry(path, Directory), VendorEntry(path, Directory));
          MatchAppend([VendorEntry(path, Directory)], [VendorEntry(path, Directory)],
                      Inspect(f.node.children, path).value.entries,
                      Inspect(CopyOf(f.node.children, now), path).value.entries);
        } else {
          OneMatches(VendorEntry(path, RegularFile(PrintOf(f.node))),
                     VendorEntry(path, RegularFile(PrintOf(CopyOfNode(f.node, now)))));
        }
        MatchAppend(InspectNode(f.node, path).value.entries, InspectNode(CopyOfNode(f.node, now), path).value.entries,
                    Inspect(f.rest, relative).value.entries, Inspect(CopyOf(f.rest, now), relative).value.entries);
      } else {
        assert [] + Inspect(f.rest, relative).value.entries == Inspect(f.rest, relative).value.entries;
      }
    }
  }

  lemma EmptyMatches()
    ensures ContentsMatch([], [])
  {
  }

  lemma OneMatches(a: VendorEntry, b: VendorEntry)
    requires a.relative == b.relative && KindsMatch(a.kind, b.kind)
    ensures ContentsMatch([a], [b])
  {
  }

  lemma {:induction false} CopyWellFormed(f: Forest, now: Option<int>)
    requires WellFormed(f)
    ensures WellFormed(CopyOf(f, now)) && Names(CopyOf(f, now)) <= Names(f)
    decreases f
  {
    if f.Cons? {
      CopyWellFormed(f.rest, now);
      if f.node.Folder? {
        CopyWellFormed(f.node.children, now);
      }
    }
  }

  /** Without locks to drop, copying changes no path, byte or executable bit. */
  lemma {:induction false} CopyKeepsFlat(f: Forest, relative: Path, now: Option<int>)
    requires Inspect(f, relative).Ok? && Inspect(f, relative).value.skipped == []
    ensures Flatten(CopyOf(f, now), relative) == Flatten(f, relative)
    decreases f
  {
    if f.Cons? {
      InspectStep(f, relative);
      assert !Skipped(f.name, f.node);
      CopyKeepsFlat(f.rest, relative, now);
      if f.node.Folder? {
        CopyKeepsFlat(f.node.children, relative + [f.name], now);
      }
    }
  }

  // ---- What a successful replay says ----

  predicate PlacedFrom(source: Forest, made: Made, e: VendorEntry) {
    e.kind.RegularFile? ==>
      && Find(source, e.relative).Some? && Find(source, e.relative).value.File?
      && e.relative in made
      && made[e.relative] == MadeFile(Find(source, e.relative).value.bytes, e.kind.seen.executable)
  }

  lemma {:induction false} ReplayPlaces(source: Forest, made: Made, entries: seq<VendorEntry>)
    requires Replay(source, made, entries).Ok?
    ensures var final := Replay(source, made, entries).value;
      && (forall p | p in made :: p in final && final[p] == made[p])
      && forall i | 0 <= i < |entries| :: PlacedFrom(source, final, entries[i])
    decreases entries
  {
    if entries != [] {
      var next := Place(source, made, entries[0]).value;
      ReplayPlaces(source, next, entries[1..]);
      var final := Replay(source, made, entries).value;
      forall i | 0 <= i < |entries|
        ensures PlacedFrom(source, final, entries[i])
      {
        if i > 0 { assert entries[i] == entries[1..][i - 1]; }
      }
    }
  }

  /** The copy made from a manifest always passes verification against it. */
  lemma CopyAlwaysVerifies(f: Forest, now: Option<int>)
    requires WellFormed(f) && Inspect(f, []).Ok?
    ensures CopyVerifies(Inspect(f, []).value.entries, f, CopyOf(f, now))
  {
    hide Replay, Flatten, Inspect, Find, Place;
    var c := CopyOf(f, now);
    var expected := Inspect(f, []).value.entries;
    CopyInspects(f, [], now);
    CopyWellFormed(f, now);
    var actual := Inspect(c, []).value.entries;
    ReplayMakesCopy(f, now);
    ReplayMakesCopy(c, now);
    CopyKeepsFlat(c, [], now);
    ReplayPlaces(f, map[], expected);
    ReplayPlaces(c, map[], actual);
    forall i | 0 <= i < |expected|
      ensures FileMatches(f, c, expected[i])
    {
      assert PlacedFrom(f, Flatten(c, []), expected[i]) && PlacedFrom(c, Flatten(c, []), actual[i]);
      assert KindsMatch(expected[i].kind, actual[i].kind);
    }
  }

  lemma SamePlace(f: Forest, g: Forest, made: Made, a: VendorEntry, b: VendorEntry)
    requires a.relative == b.relative && KindsMatch(a.kind, b.kind) && FileMatches(f, g, a)
    requires Place(f, made, a).Ok? && Place(g, made, b).Ok?
    ensures Place(f, made, a) == Place(g, made, b)
  {
  }

  lemma {:induction false} SameReplay(f: Forest, g: Forest, made: Made, a: seq<VendorEntry>, b: seq<VendorEntry>)
    requires ContentsMatch(a, b) && forall i | 0 <= i < |a| :: FileMatches(f, g, a[i])
    requires Replay(f, made, a).Ok? && Replay(g, made, b).Ok?
    ensures Replay(f, made, a) == Replay(g, made, b)
    decreases a
  {
    hide Place, FileMatches;
    if a != [] {
      SamePlace(f, g, made, a[0], b[0]);
      assert forall i | 0 <= i < |a[1..]| :: a[1..][i] == a[i + 1];
      SameReplay(f, g, Place(f, made, a[0]).value, a[1..], b[1..]);
    }
  }

  /** Any target that passes verification stores exactly what the copy of the source would. */
  lemma VerifiedIsCopy(f: Forest, g: Forest, now: Option<int>)
    requires WellFormed(f) && WellFormed(g) && Inspect(f, []).Ok?
    requires CopyVerifies(Inspect(f, []).value.entries, f, g)
    ensures Flatten(g, []) == Flatten(CopyOf(f, now), [])
  {
    hide Replay, Flatten, Inspect, Find, FileMatches, ContentsMatch;
    ReplayMakesCopy(f, now);
    ReplayMakesCopy(g, now);
    CopyKeepsFlat(g, [], now);
    SameReplay(f, g, map[], Inspect(f, []).value.entries, Inspect(g, []).value.entries);
  }
}
