/** Hex text and the bytes it stands for. */
module Hex {
  import opened Prelude

  type Byte = b: int | 0 <= b < 256

  /** Without one leading `0x`. */
  function Unprefixed(id: string): string {
    if |id| >= 2 && id[0] == '0' && id[1] == 'x' then id[2..] else id
  }

  function Nibble(c: char): Option<nat> {
    if '0' <= c <= '9' then Some((c - '0') as int)
    else if 'a' <= c <= 'f' then Some((c - 'a') as int + 10)
    else if 'A' <= c <= 'F' then Some((c - 'A') as int + 10)
    else None
  }

  predicate IsHex(s: string) {
    forall c <- s :: Nibble(c).Some?
  }

  function HexByte(hi: char, lo: char): Byte
    requires Nibble(hi).Some? && Nibble(lo).Some?
  {
    Nibble(hi).value * 16 + Nibble(lo).value
  }

  function DecodeHex(s: string): (bytes: seq<Byte>)
    requires IsHex(s) && |s| % 2 == 0
    ensures |bytes| == |s| / 2
  {
    seq(|s| / 2, i requires 0 <= i < |s| / 2 => HexByte(s[2 * i], s[2 * i + 1]))
  }

  function HexDigit(n: nat): char
    requires n < 16
  {
    if n < 10 then '0' + n as char else 'a' + (n - 10) as char
  }

  function EncodeHex(bytes: seq<Byte>): (s: string)
    ensures |s| == 2 * |bytes|
  {
    seq(2 * |bytes|, i requires 0 <= i < 2 * |bytes| =>
      if i % 2 == 0 then HexDigit(bytes[i / 2] / 16) else HexDigit(bytes[i / 2] % 16))
  }

  lemma HexRoundTrip(bytes: seq<Byte>)
    ensures IsHex(EncodeHex(bytes)) && DecodeHex(EncodeHex(bytes)) == bytes
  {
  }

  function Lower(c: char): char {
    if 'A' <= c <= 'F' then 'a' + (c - 'A') else c
  }

  /** The same text up to the case of its hex letters. */
  predicate SameHex(s: string, t: string) {
    |s| == |t| && forall i | 0 <= i < |s| :: Lower(s[i]) == Lower(t[i])
  }

  lemma NibblesSame(c: char, d: char)
    requires Nibble(c).Some? && Nibble(d).Some?
    ensures Nibble(c) == Nibble(d) <==> Lower(c) == Lower(d)
  {
  }

  lemma SameSums(hi: nat, lo: nat, hi': nat, lo': nat)
    requires lo < 16 && lo' < 16
    ensures hi * 16 + lo == hi' * 16 + lo' <==> hi == hi' && lo == lo'
  {
  }

  lemma BytesSame(hi: char, lo: char, hi': char, lo': char)
    requires Nibble(hi).Some? && Nibble(lo).Some? && Nibble(hi').Some? && Nibble(lo').Some?
    ensures HexByte(hi, lo) == HexByte(hi', lo') <==> Lower(hi) == Lower(hi') && Lower(lo) == Lower(lo')
  {
    var a, b, a', b' := Nibble(hi), Nibble(lo), Nibble(hi'), Nibble(lo');
    NibblesSame(hi, hi');
    NibblesSame(lo, lo');
    SameSums(a.value, b.value, a'.value, b'.value);
  }

  lemma DecodeHexSame(s: string, t: string)
    requires IsHex(s) && IsHex(t) && |s| == |t| && |s| % 2 == 0
    ensures DecodeHex(s) == DecodeHex(t) <==> SameHex(s, t)
  {
    forall i | 0 <= i < |s| / 2
      ensures DecodeHex(s)[i] == DecodeHex(t)[i]
         <==> Lower(s[2 * i]) == Lower(t[2 * i]) && Lower(s[2 * i + 1]) == Lower(t[2 * i + 1])
    {
      BytesSame(s[2 * i], s[2 * i + 1], t[2 * i], t[2 * i + 1]);
    }
    if DecodeHex(s) == DecodeHex(t) {
      forall k | 0 <= k < |s|
        ensures Lower(s[k]) == Lower(t[k])
      {
        var i := k / 2;
        assert DecodeHex(s)[i] == DecodeHex(t)[i];
        assert k == 2 * i || k == 2 * i + 1;
      }
    }
  }
}
