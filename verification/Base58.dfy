/** Numbers in a base, and the base-58 text of a byte string. */
module Base58 {
  import opened Prelude
  import opened Hex

  type Digit = d: int | 0 <= d < 58

  function Pow(base: nat, n: nat): nat {
    if n == 0 then 1 else Pow(base, n - 1) * base
  }

  lemma {:induction false} PowAdd(base: nat, m: nat, n: nat)
    ensures Pow(base, m + n) == Pow(base, m) * Pow(base, n)
  {
    if n > 0 {
      PowAdd(base, m, n - 1);
      Regroup(Pow(base, m), Pow(base, n - 1), base);
    }
  }

  lemma Regroup(a: int, b: int, c: int)
    ensures a * (b * c) == (a * b) * c
  {
  }

  lemma {:induction false} PowPositive(base: nat, n: nat)
    requires base > 0
    ensures Pow(base, n) > 0
  {
    if n > 0 { PowPositive(base, n - 1); }
  }

  // ---------------------------------------------------------------------------
  // Bytes, most significant first.

  function Value(bytes: seq<Byte>): nat {
    if bytes == [] then 0 else Value(bytes[..|bytes| - 1]) * 256 + bytes[|bytes| - 1]
  }

  function BytesOf(n: nat, count: nat): (bytes: seq<Byte>)
    ensures |bytes| == count
  {
    if count == 0 then [] else BytesOf(n / 256, count - 1) + [n % 256]
  }

  lemma {:induction false} BytesRoundTrip(bytes: seq<Byte>)
    ensures Value(bytes) < Pow(256, |bytes|)
    ensures BytesOf(Value(bytes), |bytes|) == bytes
  {
    if bytes != [] {
      BytesRoundTrip(bytes[..|bytes| - 1]);
    }
  }

  lemma {:induction false} ValueJoin(a: seq<Byte>, b: seq<Byte>)
    ensures Value(a + b) == Value(a) * Pow(256, |b|) + Value(b)
  {
    if b == [] {
      assert a + b == a;
    } else {
      var init := b[..|b| - 1];
      assert (a + b)[..|a + b| - 1] == a + init;
      ValueJoin(a, init);
      var p := Pow(256, |init|);
      assert Value(a) * (p * 256) == (Value(a) * p) * 256;
    }
  }

  // ---------------------------------------------------------------------------
  // Digits, most significant first, without leading zeros.

  function Digits(n: nat): seq<Digit> {
    if n == 0 then [] else Digits(n / 58) + [n % 58]
  }

  function Number(ds: seq<Digit>): nat {
    if ds == [] then 0 else Number(ds[..|ds| - 1]) * 58 + ds[|ds| - 1]
  }

  lemma {:induction false} DigitsRoundTrip(n: nat)
    ensures Number(Digits(n)) == n
  {
    if n > 0 { DigitsRoundTrip(n / 58); }
  }

  lemma DropDigit(x: nat, r: nat, p: nat)
    requires r < p * 58
    ensures (x * 58 + r) / 58 == x + r / 58 && r / 58 < p
  {
  }

  lemma ProductPositive(q: nat, p: nat)
    requires q > 0 && p > 0
    ensures q * p > 0
  {
  }

  lemma DigitsDrop(n: nat)
    requires n > 0
    ensures |Digits(n)| == |Digits(n / 58)| + 1 && Digits(n / 58) <= Digits(n)
  {
  }

  /** Dropping `k` low digits is dividing: what the leading digits of a number are depends only on the range
      it lies in. */
  lemma {:induction false} LeadingDigits(q: nat, r: nat, k: nat)
    requires q > 0 && r < Pow(58, k)
    ensures |Digits(q * Pow(58, k) + r)| == |Digits(q)| + k
    ensures Digits(q) <= Digits(q * Pow(58, k) + r)
  {
    if k > 0 {
      var p := Pow(58, k - 1);
      PowPositive(58, k - 1);
      Regroup(q, p, 58);
      ProductPositive(q, p);
      DropDigit(q * p, r, p);
      LeadingDigits(q, r / 58, k - 1);
      DigitsDrop(q * Pow(58, k) + r);
    }
  }

  // ---------------------------------------------------------------------------
  // The text: digits and letters without 0, I, O and l.

  function Letter(d: Digit): char {
    if d < 9 then '1' + d as char
    else if d < 17 then 'A' + (d - 9) as char
    else if d < 22 then 'J' + (d - 17) as char
    else if d < 33 then 'P' + (d - 22) as char
    else if d < 44 then 'a' + (d - 33) as char
    else 'm' + (d - 44) as char
  }

  function LetterValue(c: char): Option<Digit> {
    if '1' <= c <= '9' then Some((c - '1') as int)
    else if 'A' <= c <= 'H' then Some((c - 'A') as int + 9)
    else if 'J' <= c <= 'N' then Some((c - 'J') as int + 17)
    else if 'P' <= c <= 'Z' then Some((c - 'P') as int + 22)
    else if 'a' <= c <= 'k' then Some((c - 'a') as int + 33)
    else if 'm' <= c <= 'z' then Some((c - 'm') as int + 44)
    else None
  }

  function Letters(ds: seq<Digit>): string {
    seq(|ds|, i requires 0 <= i < |ds| => Letter(ds[i]))
  }

  predicate IsText(s: string) {
    forall c <- s :: LetterValue(c).Some?
  }

  function Unlettered(s: string): seq<Digit>
    requires IsText(s)
  {
    seq(|s|, i requires 0 <= i < |s| => LetterValue(s[i]).value)
  }

  lemma LettersRoundTrip(ds: seq<Digit>)
    ensures IsText(Letters(ds)) && Unlettered(Letters(ds)) == ds
  {
  }

  function LeadingZeros(bytes: seq<Byte>): nat {
    if bytes == [] || bytes[0] != 0 then 0 else 1 + LeadingZeros(bytes[1..])
  }

  /** Each leading zero byte is a `1`; the rest is one number. */
  function Encode(bytes: seq<Byte>): string {
    seq(LeadingZeros(bytes), i => '1') + Letters(Digits(Value(bytes)))
  }

  function NumberIn(s: string): Option<nat> {
    if IsText(s) then Some(Number(Unlettered(s))) else None
  }

  /** A text without leading zero bytes reads back as the number it was written for. */
  lemma EncodeRoundTrip(bytes: seq<Byte>)
    requires bytes != [] && bytes[0] != 0
    ensures NumberIn(Encode(bytes)) == Some(Value(bytes))
  {
    LettersRoundTrip(Digits(Value(bytes)));
    DigitsRoundTrip(Value(bytes));
    assert Encode(bytes) == Letters(Digits(Value(bytes)));
  }

  lemma {:induction false} NoLeadingZero(n: nat)
    ensures Digits(n) != [] ==> Digits(n)[0] != 0
  {
    if n > 0 { NoLeadingZero(n / 58); }
  }

  lemma {:induction false} LeadingZerosAre(bytes: seq<Byte>)
    ensures var k := LeadingZeros(bytes);
            k <= |bytes| && (forall i | 0 <= i < k :: bytes[i] == 0) && (k < |bytes| ==> bytes[k] != 0)
  {
    if bytes != [] && bytes[0] == 0 { LeadingZerosAre(bytes[1..]); }
  }

  /** Any bytes: one `1` for every zero byte they begin with and no more, then the text of their number. */
  lemma EncodeMeans(bytes: seq<Byte>) returns (k: nat)
    ensures k <= |bytes| && (forall i | 0 <= i < k :: bytes[i] == 0) && (k < |bytes| ==> bytes[k] != 0)
    ensures k <= |Encode(bytes)| && forall i | 0 <= i < k :: Encode(bytes)[i] == '1'
    ensures k < |Encode(bytes)| ==> Encode(bytes)[k] != '1'
    ensures NumberIn(Encode(bytes)[k..]) == Some(Value(bytes))
  {
    k := LeadingZeros(bytes);
    LeadingZerosAre(bytes);
    LettersRoundTrip(Digits(Value(bytes)));
    DigitsRoundTrip(Value(bytes));
    NoLeadingZero(Value(bytes));
    assert Encode(bytes)[k..] == Letters(Digits(Value(bytes)));
    if k < |Encode(bytes)| { assert Encode(bytes)[k] == Letter(Digits(Value(bytes))[0]); }
  }
}
