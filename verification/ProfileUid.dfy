/** Crockford identifiers: 128-bit values as 26 letters, and exactly the bodies the parser accepts. */
module ProfileUid {
  import opened Wrappers
  import opened Contracts
  import opened Radix

  const CROCKFORD := "0123456789ABCDEFGHJKMNPQRSTVWXYZ"
  const WIDTH := 26

  predicate IsSymbol(c: char) {
    || '0' <= c <= '9' || 'A' <= c <= 'H' || 'J' <= c <= 'K' || 'M' <= c <= 'N' || 'P' <= c <= 'T' || 'V' <= c <= 'Z'
  }

  /** What `parse_uid` demands of the part after the prefix. */
  predicate ValidBody(body: string) {
    |body| == WIDTH && '0' <= body[0] <= '7' && forall i | 1 <= i < WIDTH :: IsSymbol(body[i])
  }

  function ParseUid(value: string, prefix: string): Option<string> {
    if prefix <= value && ValidBody(value[|prefix|..]) then Some(value) else None
  }

  function SymbolOf(d: nat): char
    requires d < 32
  {
    CROCKFORD[d]
  }

  function DigitOf(c: char): (d: nat)
    requires IsSymbol(c)
    ensures d < 32 && (c <= '7' <==> d < 8)
  {
    var n := c as int;
    if c <= '9' then n - 48
    else if c <= 'H' then n - 55
    else if c <= 'K' then n - 56
    else if c <= 'N' then n - 57
    else if c <= 'T' then n - 58
    else n - 59
  }

  lemma SymbolsAndDigits(d: nat, c: char)
    ensures d < 32 ==> IsSymbol(SymbolOf(d)) && DigitOf(SymbolOf(d)) == d
    ensures IsSymbol(c) ==> SymbolOf(DigitOf(c)) == c
  {
  }

  function Symbols(ds: seq<nat>): (s: string)
    requires AllBelow(ds, 32)
    ensures |s| == |ds|
  {
    seq(|ds|, i requires 0 <= i < |ds| => SymbolOf(ds[i]))
  }

  function DigitsOf(body: string): (ds: seq<nat>)
    requires ValidBody(body)
    ensures |ds| == WIDTH && AllBelow(ds, 32)
  {
    seq(WIDTH, i requires 0 <= i < WIDTH => DigitOf(body[i]))
  }

  /** The 26-letter form of a value. */
  function Crockford(value: nat): (body: string)
    ensures |body| == WIDTH
  {
    DigitsBelow(value, 32, WIDTH);
    Symbols(Digits(value, 32, WIDTH))
  }

  function Decode(body: string): nat
    requires ValidBody(body)
  {
    Value(DigitsOf(body), 32)
  }

  /** Fill the letters from the last to the first, taking five bits at a time. */
  method EncodeCrockford(bytes: seq<byte>) returns (body: string)
    requires |bytes| == 16
    ensures body == Crockford(Value(bytes, 256))
  {
    hide Digits, Value, SymbolOf;
    var value := Value(bytes, 256);
    var encoded := new char[WIDTH](_ => '0');
    var i := WIDTH;
    DigitsBelow(value, 32, WIDTH);
    ghost var ds := Digits(value, 32, WIDTH);
    assert ds[..WIDTH] == ds;
    while i > 0
      invariant 0 <= i <= WIDTH && encoded.Length == WIDTH
      invariant Digits(value, 32, i) == ds[..i]
      invariant forall k | i <= k < WIDTH :: encoded[k] == SymbolOf(ds[k])
    {
      i := i - 1;
      LastDigit(value, i, ds);
      encoded[i] := SymbolOf(value % 32);
      value := value / 32;
    }
    body := encoded[..];
  }

  lemma LastDigit(value: nat, i: nat, ds: seq<nat>)
    requires i < |ds| && Digits(value, 32, i + 1) == ds[..i + 1]
    ensures ds[i] == value % 32 && Digits(value / 32, 32, i) == ds[..i]
  {
    assert ds[..i + 1][i] == ds[i];
    assert ds[..i + 1][..i] == ds[..i];
    assert (Digits(value / 32, 32, i) + [value % 32])[..i] == Digits(value / 32, 32, i);
  }

  const LIMIT := 0x1_0000_0000_0000_0000_0000_0000_0000_0000

  lemma Powers()
    ensures Power(256, 16) == LIMIT && Power(32, 25) * 8 == LIMIT && Power(32, 26) == 32 * Power(32, 25)
  {
    assert Power(256, 8) == 0x1_0000_0000_0000_0000;
    assert Power(256, 16) == LIMIT by { PowerSum(256, 8, 8); }
    assert Power(32, 5) == 0x200_0000;
    assert Power(32, 10) == 0x200_0000 * 0x200_0000 by { PowerSum(32, 5, 5); }
    PowerSum(32, 10, 10);
    PowerSum(32, 20, 5);
  }

  lemma {:induction false} PowerSum(base: nat, m: nat, n: nat)
    ensures Power(base, m + n) == Power(base, m) * Power(base, n)
    decreases m
  {
    if m > 0 {
      PowerSum(base, m - 1, n);
      assert base * (Power(base, m - 1) * Power(base, n)) == (base * Power(base, m - 1)) * Power(base, n);
    }
  }

  /** Every 128-bit value encodes to a body the parser accepts, and decoding inverts the encoding. */
  lemma EncodedIsAccepted(value: nat)
    requires value < LIMIT
    ensures ValidBody(Crockford(value)) && Decode(Crockford(value)) == value
  {
    var ds := Digits(value, 32, WIDTH);
    Powers();
    DigitsBelow(value, 32, WIDTH);
    ValueOfDigits(value, 32, WIDTH);
    LeadingDigit(ds, 32);
    LeadingAtMostSeven(ds[0], Power(32, 25), value);
    forall i | 0 <= i < WIDTH
      ensures IsSymbol(Crockford(value)[i]) && DigitOf(Crockford(value)[i]) == ds[i]
    {
      SymbolsAndDigits(ds[i], '0');
    }
    assert DigitsOf(Crockford(value)) == ds;
  }

  lemma LeadingAtMostSeven(d: nat, weight: nat, value: nat)
    requires d * weight <= value < 8 * weight
    ensures d < 8
  {
    if 8 <= d {
      MultiplyLe(8, d, weight);
    }
  }

  /** Every body the parser accepts is the encoding of one 128-bit value. */
  lemma AcceptedIsEncoded(body: string)
    requires ValidBody(body)
    ensures Decode(body) < LIMIT && Crockford(Decode(body)) == body
  {
    var ds := DigitsOf(body);
    Powers();
    LeadingDigit(ds, 32);
    MultiplyLe(ds[0], 7, Power(32, 25));
    DigitsOfValue(ds, 32);
    forall i | 0 <= i < WIDTH
      ensures Crockford(Decode(body))[i] == body[i]
    {
      SymbolsAndDigits(0, body[i]);
    }
    assert Crockford(Decode(body)) == body;
  }

  /** Identifiers made from different values differ. */
  lemma EncodingInjective(a: nat, b: nat)
    requires a < LIMIT && b < LIMIT && Crockford(a) == Crockford(b)
    ensures a == b
  {
    EncodedIsAccepted(a);
    EncodedIsAccepted(b);
  }

  /** Sixteen bytes always make an accepted identifier. */
  lemma BytesAreAccepted(bytes: seq<byte>, prefix: string)
    requires |bytes| == 16
    ensures var uid := prefix + Crockford(Value(bytes, 256)); ParseUid(uid, prefix) == Some(uid)
  {
    Powers();
    ValueBelow(bytes, 256);
    EncodedIsAccepted(Value(bytes, 256));
    var uid := prefix + Crockford(Value(bytes, 256));
    assert uid[|prefix|..] == Crockford(Value(bytes, 256));
  }

  lemma ValueBelow(ds: seq<nat>, base: nat)
    requires base > 0 && AllBelow(ds, base)
    ensures Value(ds, base) < Power(base, |ds|)
  {
    LeadingDigit([0] + ds, base);
    assert ([0] + ds)[1..] == ds;
  }

  /** Parsing accepts exactly the prefix followed by the form of a 128-bit value, and returns it as it is. */
  lemma ParsedIff(value: string, prefix: string)
    ensures ParseUid(value, prefix).Some? <==> exists n: nat :: n < LIMIT && value == prefix + Crockford(n)
    ensures ParseUid(value, prefix).Some? ==> ParseUid(value, prefix).value == value
  {
    hide ValidBody, Crockford, Decode;
    if ParseUid(value, prefix).Some? {
      var body := value[|prefix|..];
      AcceptedIsEncoded(body);
      assert value == prefix + body;
    }
    if n: nat :| n < LIMIT && value == prefix + Crockford(n) {
      EncodedIsAccepted(n);
      assert value[|prefix|..] == Crockford(n);
    }
  }
}
