/** The rolling-row distance used for suggestions, and the edit scripts it measures. */
module Levenshtein {

  datatype Edit = Insert(at: nat, c: char) | Delete(at: nat) | Substitute(at: nat, c: char)

  predicate Fits(s: string, e: Edit) {
    if e.Insert? then e.at <= |s| else e.at < |s|
  }

  function Apply(s: string, e: Edit): string
    requires Fits(s, e)
  {
    match e
    case Insert(at, c) => s[..at] + [c] + s[at..]
    case Delete(at) => s[..at] + s[at + 1..]
    case Substitute(at, c) => s[at := c]
  }

  /** Each edit fits the text left by the ones before it. */
  predicate AllFit(s: string, edits: seq<Edit>)
    decreases edits
  {
    edits == [] || (Fits(s, edits[0]) && AllFit(Apply(s, edits[0]), edits[1..]))
  }

  function ApplyAll(s: string, edits: seq<Edit>): string
    requires AllFit(s, edits)
    decreases edits
  {
    if edits == [] then s else ApplyAll(Apply(s, edits[0]), edits[1..])
  }

  function Min(a: nat, b: nat): nat {
    if b < a then b else a
  }

  /** The distance between two texts, by their last characters. */
  function Distance(a: string, b: string): nat
    decreases |a| + |b|
  {
    if a == [] then |b|
    else if b == [] then |a|
    else
      var m, n := |a| - 1, |b| - 1;
      Min(Min(Distance(a, b[..n]) + 1, Distance(a[..m], b) + 1), Distance(a[..m], b[..n]) + if a[m] == b[n] then 0 else 1)
  }

  /** Row by row, keeping only the previous row and the one being filled. */
  method Rolling(left: string, right: string) returns (distance: nat)
    ensures distance == Distance(left, right)
  {
    hide Distance;
    var width := |right| + 1;
    var previous := new nat[width](j => j);
    var current := new nat[width](_ => 0);
    FirstRow(left, right);
    for i := 0 to |left|
      invariant fresh(previous) && fresh(current)
      invariant previous.Length == current.Length == width && previous != current
      invariant forall j | 0 <= j < width :: previous[j] == Distance(left[..i], right[..j])
    {
      current[0] := i + 1;
      FirstColumn(left, right, i + 1);
      for j := 0 to |right|
        invariant forall k | 0 <= k < width :: previous[k] == Distance(left[..i], right[..k])
        invariant forall k | 0 <= k <= j :: current[k] == Distance(left[..i + 1], right[..k])
      {
        var substitution := previous[j] + if left[i] != right[j] then 1 else 0;
        current[j + 1] := Min(Min(current[j] + 1, previous[j + 1] + 1), substitution);
        Cell(left, right, i, j);
      }
      previous, current := current, previous;
    }
    assert left[..|left|] == left && right[..|right|] == right;
    distance := previous[|right|];
  }

  lemma FirstRow(left: string, right: string)
    ensures forall j | 0 <= j <= |right| :: Distance(left[..0], right[..j]) == j
  {
  }

  lemma FirstColumn(left: string, right: string, i: nat)
    requires 1 <= i <= |left|
    ensures Distance(left[..i], right[..0]) == i
  {
  }

  lemma Cell(left: string, right: string, i: nat, j: nat)
    requires i < |left| && j < |right|
    ensures Distance(left[..i + 1], right[..j + 1])
            == Min(Min(Distance(left[..i + 1], right[..j]) + 1, Distance(left[..i], right[..j + 1]) + 1),
                   Distance(left[..i], right[..j]) + if left[i] != right[j] then 1 else 0)
  {
    hide Distance;
    Unfold(left[..i], left[i], right[..j], right[j]);
    assert left[..i] + [left[i]] == left[..i + 1] && right[..j] + [right[j]] == right[..j + 1];
  }

  lemma Unfold(a: string, x: char, b: string, y: char)
    ensures Distance(a + [x], b + [y])
            == Min(Min(Distance(a + [x], b) + 1, Distance(a, b + [y]) + 1), Distance(a, b) + if x != y then 1 else 0)
  {
    var s, t := a + [x], b + [y];
    var m, n := |a|, |b|;
    assert |s| - 1 == m && |t| - 1 == n && s[m] == x && t[n] == y;
    assert s[..m] == a && t[..n] == b;
  }

  lemma Empty(a: string)
    ensures Distance(a, []) == |a| == Distance([], a)
  {
  }

  // ---- No shorter script ----

  lemma {:induction false} SelfDistance(s: string)
    ensures Distance(s, s) == 0
  {
    if s != [] {
      SelfDistance(s[..|s| - 1]);
    }
  }

  /** One edit changes the distance to any text by at most one. */
  lemma {:induction false} OneEdit(a: string, e: Edit, c: string)
    requires Fits(a, e)
    ensures Distance(a, c) <= Distance(Apply(a, e), c) + 1
    decreases |a| + |c|
  {
    hide Distance, Apply;
    Empty(a);
    Empty(Apply(a, e));
    Empty(c);
    ApplyLength(a, e);
    if c != [] {
      var n := |c| - 1;
      assert c == c[..n] + [c[n]];
      OneEdit(a, e, c[..n]);
      if e.at == |a| {
        ApplyAtEnd(a, e);
        Unfold(a, e.c, c[..n], c[n]);
        Smaller(a, c[..n], c[n]);
      } else {
        var m := |a| - 1;
        assert a == a[..m] + [a[m]];
        if e.at == m && !e.Insert? {
          EditLast(a[..m], a[m], e, c[..n], c[n]);
        } else {
          OneEdit(a[..m], e, c);
          OneEdit(a[..m], e, c[..n]);
          ApplyEarlier(a[..m], a[m], e);
          Unfold(a[..m], a[m], c[..n], c[n]);
          Unfold(Apply(a[..m], e), a[m], c[..n], c[n]);
        }
      }
    }
  }

  lemma ApplyEarlier(p: string, x: char, e: Edit)
    requires Fits(p, e)
    ensures Fits(p + [x], e) && Apply(p + [x], e) == Apply(p, e) + [x]
  {
  }

  lemma ApplyLength(a: string, e: Edit)
    requires Fits(a, e)
    ensures |a| <= |Apply(a, e)| + 1
  {
  }

  lemma ApplyAtEnd(a: string, e: Edit)
    requires Fits(a, e) && e.at == |a|
    ensures Apply(a, e) == a + [e.c]
  {
  }

  lemma Smaller(a: string, c: string, y: char)
    ensures Distance(a, c + [y]) <= Distance(a, c) + 1
  {
    if a != [] {
      assert a == a[..|a| - 1] + [a[|a| - 1]];
      Unfold(a[..|a| - 1], a[|a| - 1], c, y);
    }
  }

  lemma EditLast(p: string, x: char, e: Edit, c: string, y: char)
    requires e.at == |p| && !e.Insert? && Distance(p + [x], c) <= Distance(Apply(p + [x], e), c) + 1
    ensures Distance(p + [x], c + [y]) <= Distance(Apply(p + [x], e), c + [y]) + 1
  {
    hide Distance;
    Unfold(p, x, c, y);
    if e.Delete? {
      assert Apply(p + [x], e) == p;
    } else {
      assert Apply(p + [x], e) == p + [e.c];
      Unfold(p, e.c, c, y);
    }
  }

  /** No script is shorter than the distance. */
  lemma {:induction false} NoShorterScript(a: string, edits: seq<Edit>)
    requires AllFit(a, edits)
    ensures Distance(a, ApplyAll(a, edits)) <= |edits|
    decreases edits
  {
    if edits == [] {
      SelfDistance(a);
    } else {
      NoShorterScript(Apply(a, edits[0]), edits[1..]);
      OneEdit(a, edits[0], ApplyAll(a, edits));
    }
  }

  // ---- A script that short ----

  lemma {:induction false} Sequenced(s: string, first: seq<Edit>, second: seq<Edit>)
    requires AllFit(s, first) && AllFit(ApplyAll(s, first), second)
    ensures AllFit(s, first + second) && ApplyAll(s, first + second) == ApplyAll(ApplyAll(s, first), second)
    decreases first
  {
    if first == [] {
      assert first + second == second;
    } else {
      Sequenced(Apply(s, first[0]), first[1..], second);
      assert (first + second)[1..] == first[1..] + second;
    }
  }

  /** A script still does its work with one more character at the end. */
  lemma {:induction false} Framed(s: string, edits: seq<Edit>, x: char)
    requires AllFit(s, edits)
    ensures AllFit(s + [x], edits) && ApplyAll(s + [x], edits) == ApplyAll(s, edits) + [x]
    decreases edits
  {
    if edits != [] {
      var e := edits[0];
      ApplyEarlier(s, x, e);
      Framed(Apply(s, e), edits[1..], x);
    }
  }

  lemma Once(s: string, e: Edit)
    requires Fits(s, e)
    ensures AllFit(s, [e]) && ApplyAll(s, [e]) == Apply(s, e)
  {
    assert [e][1..] == [];
  }

  ghost predicate Turns(a: string, edits: seq<Edit>, b: string) {
    AllFit(a, edits) && ApplyAll(a, edits) == b
  }

  lemma AppendStep(a: string, edits: seq<Edit>, b: string, e: Edit, c: string)
    requires Turns(a, edits, b) && Fits(b, e) && Apply(b, e) == c
    ensures Turns(a, edits + [e], c)
  {
    Once(b, e);
    Sequenced(a, edits, [e]);
  }

  /** Some script of exactly that many edits turns one text into the other. */
  lemma {:induction false} ShortestScript(a: string, b: string) returns (edits: seq<Edit>)
    ensures Turns(a, edits, b) && |edits| == Distance(a, b)
    decreases |a| + |b|
  {
    hide Distance;
    Empty(a);
    Empty(b);
    var m, n := |a| - 1, |b| - 1;
    if a != [] && b != [] {
      assert a == a[..m] + [a[m]] && b == b[..n] + [b[n]];
      Unfold(a[..m], a[m], b[..n], b[n]);
    }
    if b != [] && (a == [] || Distance(a, b) == Distance(a, b[..n]) + 1) {
      edits := ShortestScript(a, b[..n]);
      Empty(b[..n]);
      assert Apply(b[..n], Insert(n, b[n])) == b;
      AppendStep(a, edits, b[..n], Insert(n, b[n]), b);
      edits := edits + [Insert(n, b[n])];
    } else if a != [] && (b == [] || Distance(a, b) == Distance(a[..m], b) + 1) {
      edits := ShortestScript(a[..m], b);
      Empty(a[..m]);
      assert Apply(a, Delete(m)) == a[..m];
      assert ([Delete(m)] + edits)[1..] == edits;
      edits := [Delete(m)] + edits;
    } else if a == [] {
      edits := [];
    } else {
      edits := ShortestScript(a[..m], b[..n]);
      Framed(a[..m], edits, a[m]);
      assert a[..m] + [a[m]] == a && b[..n] + [b[n]] == b;
      if a[m] != b[n] {
        assert Apply(b[..n] + [a[m]], Substitute(n, b[n])) == b;
        AppendStep(a, edits, b[..n] + [a[m]], Substitute(n, b[n]), b);
        edits := edits + [Substitute(n, b[n])];
      }
    }
  }

  /** The distance is the least number of single-character edits turning `a` into `b`. */
  lemma DistanceIsLeast(a: string, b: string)
    ensures exists edits :: Turns(a, edits, b) && |edits| == Distance(a, b)
    ensures forall edits :: Turns(a, edits, b) ==> Distance(a, b) <= |edits|
  {
    var shortest := ShortestScript(a, b);
    forall edits | Turns(a, edits, b)
      ensures Distance(a, b) <= |edits|
    {
      NoShorterScript(a, edits);
    }
  }
}
