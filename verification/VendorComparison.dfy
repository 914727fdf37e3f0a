/** The two forms of the vendor comparison agree: a walk of the target against the manifest, and what lies below a path. */
module VendorComparison {
  import opened Wrappers
  import opened Sorting
  import opened Layout
  import SL = StagedLayout
  import opened StagingRules
  import opened VerifiedLayout
  import opened VendorTree
  import opened VendorCopy
  import opened VendorVerify
  import opened VendorMigration

  predicate LinkFree(f: Forest) {
    match f
    case Nil => true
    case Cons(_, node, rest) => !node.Link? && !node.Special? && (node.Folder? ==> LinkFree(node.children)) && LinkFree(rest)
  }

  /** The same names, bytes and executable bits; modification times may differ. */
  predicate SameTree(f: Forest, g: Forest) {
    if f.Nil? || g.Nil? then f.Nil? && g.Nil?
    else f.name == g.name && SameNode(f.node, g.node) && SameTree(f.rest, g.rest)
  }

  predicate SameNode(m: Node, n: Node) {
    || (m.File? && n.File? && m.bytes == n.bytes && m.executable == n.executable)
    || (m.Folder? && n.Folder? && SameTree(m.children, n.children))
  }

  lemma {:induction false} InspectedIsLinkFree(f: Forest, relative: Path)
    requires Inspect(f, relative).Ok?
    ensures LinkFree(f)
    decreases f
  {
    if f.Cons? {
      InspectStep(f, relative);
      InspectedIsLinkFree(f.rest, relative);
      if f.node.Folder? {
        InspectedIsLinkFree(f.node.children, relative + [f.name]);
      }
    }
  }

  // ---- A tree is known from what is stored where ----

  ghost function Part(m: Made, relative: Path, names: set<string>): Made {
    map p | p in m && Under(p, relative, names) :: m[p]
  }

  /** The first entry's paths and the others' are apart. */
  lemma FlattenSplits(f: Forest, relative: Path)
    requires f.Cons? && WellFormed(f)
    ensures Part(Flatten(f, relative), relative, {f.name}) == FlattenNode(f.node, relative + [f.name])
    ensures Part(Flatten(f, relative), relative, Names(f.rest)) == Flatten(f.rest, relative)
  {
    FlattenNodeKeys(f.node, relative, f.name);
    FlattenKeys(f.rest, relative);
    var first, others := FlattenNode(f.node, relative + [f.name]), Flatten(f.rest, relative);
    assert Flatten(f, relative) == first + others;
    SplitByName(first, others, relative, f.name, Names(f.rest));
  }

  lemma SplitByName(first: Made, others: Made, relative: Path, name: string, names: set<string>)
    requires name !in names && (forall p | p in first :: Under(p, relative, {name}))
    requires forall p | p in others :: Under(p, relative, names)
    ensures Part(first + others, relative, {name}) == first && Part(first + others, relative, names) == others
  {
  }

  /** Every name of a tree without links stores something. */
  lemma {:induction false} NameStored(f: Forest, relative: Path, name: string)
    requires LinkFree(f)
    ensures name in Names(f) <==> relative + [name] in Flatten(f, relative)
    decreases f
  {
    if f.Cons? {
      NameStored(f.rest, relative, name);
      FlattenNodeKeys(f.node, relative, f.name);
      if relative + [name] in FlattenNode(f.node, relative + [f.name]) {
        assert (relative + [name])[|relative|] == name;
      }
    }
  }

  lemma SameNames(f: Forest, g: Forest, relative: Path)
    requires LinkFree(f) && LinkFree(g) && Flatten(f, relative) == Flatten(g, relative)
    ensures Names(f) == Names(g)
  {
    forall name
      ensures name in Names(f) <==> name in Names(g)
    {
      NameStored(f, relative, name);
      NameStored(g, relative, name);
    }
  }

  /** The first name of a well-formed tree is its least. */
  lemma Least(f: Forest, name: string)
    requires f.Cons? && WellFormed(f) && name in Names(f)
    ensures NameLe(f.name, name)
  {
    hide NameLe;
    NameLeOrder();
    assert NameLe(name, name);
  }

  lemma SameFirstName(f: Forest, g: Forest)
    requires f.Cons? && g.Cons? && WellFormed(f) && WellFormed(g) && Names(f) == Names(g)
    ensures f.name == g.name && Names(f.rest) == Names(g.rest)
  {
    hide NameLe;
    NameLeOrder();
    Least(f, g.name);
    Least(g, f.name);
    assert Names(f.rest) == Names(f) - {f.name} && Names(g.rest) == Names(g) - {g.name};
  }

  lemma FolderSplits(children: Forest, path: Path)
    ensures FlattenNode(Folder(children), path) - {path} == Flatten(children, path)
    ensures path in FlattenNode(Folder(children), path) && FlattenNode(Folder(children), path)[path] == SL.MadeDirectory
  {
    FlattenKeys(children, path);
    assert !Under(path, path, Names(children));
  }

  /** Well-formed trees without links that store the same are the same. */
  lemma {:induction false} StoredDecides(f: Forest, g: Forest, relative: Path)
    requires WellFormed(f) && WellFormed(g) && LinkFree(f) && LinkFree(g)
    requires Flatten(f, relative) == Flatten(g, relative)
    ensures SameTree(f, g)
    decreases f
  {
    hide Flatten, FlattenNode;
    SameNames(f, g, relative);
    if f.Nil? || g.Nil? {
      OnlyNilIsEmpty(f, g);
    } else {
      SameFirstName(f, g);
      FlattenSplits(f, relative);
      FlattenSplits(g, relative);
      StoredDecides(f.rest, g.rest, relative);
      NodeDecides(f.node, g.node, relative + [f.name]);
    }
  }

  lemma OnlyNilIsEmpty(f: Forest, g: Forest)
    requires Names(f) == Names(g) && (f.Nil? || g.Nil?)
    ensures f.Nil? && g.Nil?
  {
    NamesOfCons(f);
    NamesOfCons(g);
  }

  lemma NamesOfCons(f: Forest)
    ensures f.Cons? ==> Names(f) != {}
  {
    if f.Cons? {
      assert f.name in Names(f);
    }
  }

  lemma {:induction false} NodeDecides(m: Node, n: Node, path: Path)
    requires !m.Link? && !m.Special? && !n.Link? && !n.Special?
    requires m.Folder? ==> WellFormed(m.children) && LinkFree(m.children)
    requires n.Folder? ==> WellFormed(n.children) && LinkFree(n.children)
    requires FlattenNode(m, path) == FlattenNode(n, path)
    ensures SameNode(m, n)
    decreases m
  {
    if m.Folder? {
      FolderSplits(m.children, path);
    }
    if n.Folder? {
      FolderSplits(n.children, path);
    }
    if m.File? {
      assert FlattenNode(m, path)[path] == SL.MadeFile(m.bytes, m.executable);
    }
    if n.File? {
      assert FlattenNode(n, path)[path] == SL.MadeFile(n.bytes, n.executable);
    }
    if m.Folder? && n.Folder? {
      StoredDecides(m.children, n.children, path);
    }
  }

  // ---- Verification cannot tell the same trees apart ----

  lemma {:induction false} SameInspection(f: Forest, g: Forest, relative: Path)
    requires SameTree(f, g) && Inspect(f, relative).Ok?
    ensures Inspect(g, relative).Ok?
    ensures ContentsMatch(Inspect(f, relative).value.entries, Inspect(g, relative).value.entries)
    ensures Inspect(f, relative).value.skipped == Inspect(g, relative).value.skipped
    decreases f
  {
    hide ContentsMatch, RuntimeLockName;
    EmptyMatches();
    if f.Cons? {
      InspectStep(f, relative);
      InspectStep(g, relative);
      SameInspection(f.rest, g.rest, relative);
      var path := relative + [f.name];
      if Skipped(f.name, f.node) {
        assert [] + Inspect(f.rest, relative).value.entries == Inspect(f.rest, relative).value.entries;
        assert [] + Inspect(g.rest, relative).value.entries == Inspect(g.rest, relative).value.entries;
      } else {
        SameNodeInspection(f.node, g.node, path);
        MatchAppend(InspectNode(f.node, path).value.entries, InspectNode(g.node, path).value.entries,
                    Inspect(f.rest, relative).value.entries, Inspect(g.rest, relative).value.entries);
      }
    }
  }

  lemma {:induction false} SameNodeInspection(m: Node, n: Node, path: Path)
    requires SameNode(m, n) && InspectNode(m, path).Ok?
    ensures InspectNode(n, path).Ok?
    ensures ContentsMatch(InspectNode(m, path).value.entries, InspectNode(n, path).value.entries)
    ensures InspectNode(m, path).value.skipped == InspectNode(n, path).value.skipped
    decreases m
  {
    hide ContentsMatch;
    if m.Folder? {
      SameInspection(m.children, n.children, path);
      OneMatches(VendorEntry(path, Directory), VendorEntry(path, Directory));
      MatchAppend([VendorEntry(path, Directory)], [VendorEntry(path, Directory)],
                  Inspect(m.children, path).value.entries, Inspect(n.children, path).value.entries);
    } else {
      OneMatches(VendorEntry(path, RegularFile(PrintOf(m))), VendorEntry(path, RegularFile(PrintOf(n))));
    }
  }

  lemma {:induction false} SameFound(f: Forest, g: Forest, p: Path)
    requires SameTree(f, g)
    ensures Find(f, p).Some? <==> Find(g, p).Some?
    ensures Find(f, p).Some? ==> SameNode(Find(f, p).value, Find(g, p).value)
    decreases |p|, f
  {
    if p != [] && f.Cons? {
      if p[0] != f.name {
        SameFound(f.rest, g.rest, p);
      } else if |p| > 1 && f.node.Folder? {
        SameFound(f.node.children, g.node.children, p[1..]);
      }
    }
  }

  lemma MatchesCompose(a: seq<VendorEntry>, b: seq<VendorEntry>, c: seq<VendorEntry>)
    requires ContentsMatch(a, b) && ContentsMatch(b, c)
    ensures ContentsMatch(a, c)
  {
  }

  lemma SameVerification(expected: seq<VendorEntry>, source: Forest, f: Forest, g: Forest)
    requires SameTree(f, g) && CopyVerifies(expected, source, f)
    ensures CopyVerifies(expected, source, g)
  {
    hide Inspect, Find, ContentsMatch;
    SameInspection(f, g, []);
    MatchesCompose(expected, Inspect(f, []).value.entries, Inspect(g, []).value.entries);
    forall i | 0 <= i < |expected|
      ensures FileMatches(source, g, expected[i])
    {
      assert FileMatches(source, f, expected[i]);
      SameFound(f, g, expected[i].relative);
    }
  }

  /** A target without links passes the walk against the manifest exactly when it stores what the source's copy does. */
  lemma VerifiesIffStored(f: Forest, g: Forest, now: Option<int>)
    requires WellFormed(f) && WellFormed(g) && Inspect(f, []).Ok? && Inspect(g, []).Ok?
    ensures CopyVerifies(Inspect(f, []).value.entries, f, g) <==> Flatten(g, []) == Flatten(CopyOf(f, now), [])
  {
    hide Flatten, Inspect, CopyVerifies, WellFormed;
    var c := CopyOf(f, now);
    if CopyVerifies(Inspect(f, []).value.entries, f, g) {
      VerifiedIsCopy(f, g, now);
    }
    if Flatten(g, []) == Flatten(c, []) {
      CopyInspects(f, [], now);
      CopyWellFormed(f, now);
      InspectedIsLinkFree(c, []);
      InspectedIsLinkFree(g, []);
      StoredDecides(c, g, []);
      CopyAlwaysVerifies(f, now);
      SameVerification(Inspect(f, []).value.entries, f, c, g);
    }
  }

  /** The comparison of what lies below the vendor root with the plan is the walk of the tree `g` that lies there. */
  lemma ComparisonIsTheWalk(plan: SL.Plan, f: Forest, g: Forest, entries: map<Path, SL.Entry>, root: Path)
    requires CarriesTree(plan, f) && WellFormed(g) && Inspect(g, []).Ok? && Mirrors(entries, root, Flatten(g, []))
    ensures SL.VendorMatches(entries, root, SL.Planned(plan.vendor)) <==> CopyVerifies(Inspect(f, []).value.entries, f, g)
  {
    hide Flatten, Inspect, CopyVerifies, WellFormed, SL.VendorMatches, SL.Planned;
    MirrorsBelowRoot(entries, root, SL.Planned(plan.vendor));
    CarriedIsCopy(plan, f, None);
    VerifiesIffStored(f, g, None);
    MirrorsDecide(entries, root, SL.Planned(plan.vendor), Flatten(g, []));
  }

  lemma MirrorsDecide(entries: map<Path, SL.Entry>, root: Path, made: Made, other: Made)
    requires Mirrors(entries, root, other)
    ensures Mirrors(entries, root, made) <==> made == other
  {
    if Mirrors(entries, root, made) {
      forall q: Path
        ensures (q in made <==> q in other) && (q in made ==> made[q] == other[q])
      {
        assert MirrorsAt(entries, root, made, q) && MirrorsAt(entries, root, other, q);
      }
      assert made == other;
    }
  }
}
