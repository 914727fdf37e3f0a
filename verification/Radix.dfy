/** Fixed-width positional notation, most significant digit first. */
module Radix {

  function Power(base: nat, width: nat): nat {
    if width == 0 then 1 else base * Power(base, width - 1)
  }

  predicate AllBelow(ds: seq<nat>, base: nat) {
    forall i | 0 <= i < |ds| :: ds[i] < base
  }

  /** The low `width` digits of `n`. */
  function Digits(n: nat, base: nat, width: nat): (ds: seq<nat>)
    requires base > 0
    ensures |ds| == width
    decreases width
  {
    if width == 0 then [] else Digits(n / base, base, width - 1) + [n % base]
  }

  function Value(ds: seq<nat>, base: nat): nat {
    if ds == [] then 0 else Value(ds[..|ds| - 1], base) * base + ds[|ds| - 1]
  }

  lemma {:induction false} DigitsBelow(n: nat, base: nat, width: nat)
    requires base > 0
    ensures AllBelow(Digits(n, base, width), base)
    decreases width
  {
    if width > 0 {
      DigitsBelow(n / base, base, width - 1);
    }
  }

  lemma MultiplyLe(a: nat, b: nat, c: nat)
    requires a <= b
    ensures a * c <= b * c
  {
  }

  lemma QuotientBelow(n: nat, base: nat, limit: nat)
    requires base > 0 && n < base * limit
    ensures n / base < limit
  {
    if limit <= n / base {
      MultiplyLe(limit, n / base, base);
    }
  }

  lemma {:induction false} ValueOfDigits(n: nat, base: nat, width: nat)
    requires base > 0 && n < Power(base, width)
    ensures Value(Digits(n, base, width), base) == n
    decreases width
  {
    if width > 0 {
      QuotientBelow(n, base, Power(base, width - 1));
      ValueOfDigits(n / base, base, width - 1);
      ValueSnoc(Digits(n / base, base, width - 1), n % base, base);
    }
  }

  lemma ValueSnoc(ds: seq<nat>, d: nat, base: nat)
    ensures Value(ds + [d], base) == Value(ds, base) * base + d
  {
    assert (ds + [d])[..|ds|] == ds;
  }

  lemma SplitLast(q: nat, r: nat, base: nat)
    requires r < base
    ensures (q * base + r) / base == q && (q * base + r) % base == r
  {
    var n := q * base + r;
    if n / base + 1 <= q {
      MultiplyLe(n / base + 1, q, base);
    } else if q + 1 <= n / base {
      MultiplyLe(q + 1, n / base, base);
    }
  }

  lemma {:induction false} DigitsOfValue(ds: seq<nat>, base: nat)
    requires base > 0 && AllBelow(ds, base)
    ensures Digits(Value(ds, base), base, |ds|) == ds
  {
    if ds != [] {
      var front, last := ds[..|ds| - 1], ds[|ds| - 1];
      DigitsOfValue(front, base);
      SplitLast(Value(front, base), last, base);
      assert ds == front + [last];
    }
  }

  /** The value is the first digit at full weight plus the value of the rest, which stays below that weight. */
  lemma {:induction false} LeadingDigit(ds: seq<nat>, base: nat)
    requires ds != [] && AllBelow(ds, base)
    ensures Value(ds, base) == ds[0] * Power(base, |ds| - 1) + Value(ds[1..], base)
    ensures Value(ds[1..], base) < Power(base, |ds| - 1)
  {
    var n := |ds| - 1;
    if n > 0 {
      var front, last := ds[..n], ds[n];
      LeadingDigit(front, base);
      assert front[1..] == ds[1..][..n - 1] && ds[1..][n - 1] == last;
      Weighted(ds[0], Power(base, n - 1), Value(front[1..], base), base, last);
    }
  }

  lemma Weighted(d: nat, p: nat, v: nat, base: nat, last: nat)
    requires v < p && last < base
    ensures (d * p + v) * base + last == d * (base * p) + (v * base + last)
    ensures v * base + last < base * p
  {
    assert (d * p) * base == d * (p * base);
    MultiplyLe(v + 1, p, base);
  }
}
