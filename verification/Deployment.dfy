/** One canonical form for a deployment id: the CIDv0 of its digest. */
module Deployment {
  import opened Prelude
  import opened Base58
  import opened Hex

  /** The code points of Unicode's White_Space property. */
  predicate White(c: char) {
    var n := c as int;
    || 9 <= n <= 13 || n == 32 || n == 0x85 || n == 0xA0 || n == 0x1680 || 0x2000 <= n <= 0x200A
    || n == 0x2028 || n == 0x2029 || n == 0x202F || n == 0x205F || n == 0x3000
  }

  /** Every character with that property: five controls, the spaces of various widths, and the separators. */
  lemma WhiteIs(c: char)
    ensures White(c) <==> c as int in {9, 10, 11, 12, 13, 0x20, 0x85, 0xA0, 0x1680, 0x2000, 0x2001, 0x2002, 0x2003, 0x2004,
                                       0x2005, 0x2006, 0x2007, 0x2008, 0x2009, 0x200A, 0x2028, 0x2029, 0x202F, 0x205F, 0x3000}
  {
  }

  function TrimStart(s: string): string {
    if s != "" && White(s[0]) then TrimStart(s[1..]) else s
  }

  function TrimEnd(s: string): string {
    if s != "" && White(s[|s| - 1]) then TrimEnd(s[..|s| - 1]) else s
  }

  function Trim(s: string): string {
    TrimEnd(TrimStart(s))
  }

  predicate IsBytes32(body: string) {
    |body| == 64 && IsHex(body)
  }

  /** The prefix of every CIDv0: a sha2-256 hash, 32 bytes long. */
  const CIDV0_PREFIX: seq<Byte> := [0x12, 0x20]

  function Normalise(id: string): string {
    var trimmed := Trim(id);
    if IsBytes32(Unprefixed(trimmed)) then Encode(CIDV0_PREFIX + DecodeHex(Unprefixed(trimmed))) else trimmed
  }

  // ---------------------------------------------------------------------------
  // Trimming.

  predicate Tight(s: string) {
    s == "" || (!White(s[0]) && !White(s[|s| - 1]))
  }

  lemma {:induction false} TrimStartTight(s: string)
    ensures TrimStart(s) == "" || !White(TrimStart(s)[0])
  {
    if s != "" && White(s[0]) { TrimStartTight(s[1..]); }
  }

  lemma {:induction false} TrimEndTight(s: string)
    requires s == "" || !White(s[0])
    ensures Tight(TrimEnd(s))
  {
    if s != "" && White(s[|s| - 1]) { TrimEndTight(s[..|s| - 1]); }
  }

  lemma TrimTight(s: string)
    ensures Tight(Trim(s))
  {
    TrimStartTight(s);
    TrimEndTight(TrimStart(s));
  }

  predicate AllWhite(s: string) {
    forall c <- s :: White(c)
  }

  lemma {:induction false} TrimStartCuts(s: string) returns (i: nat)
    ensures i <= |s| && TrimStart(s) == s[i..] && AllWhite(s[..i])
  {
    if s != "" && White(s[0]) {
      var j := TrimStartCuts(s[1..]);
      i := j + 1;
      assert s[..i] == [s[0]] + s[1..][..j] && s[i..] == s[1..][j..];
    } else {
      i := 0;
    }
  }

  lemma {:induction false} TrimEndCuts(s: string) returns (j: nat)
    ensures j <= |s| && TrimEnd(s) == s[..j] && AllWhite(s[j..])
  {
    if s != "" && White(s[|s| - 1]) {
      j := TrimEndCuts(s[..|s| - 1]);
      assert s[j..] == s[..|s| - 1][j..] + [s[|s| - 1]];
    } else {
      j := |s|;
    }
  }

  /** Trimming takes white space off both ends, all of it, and nothing else. */
  lemma TrimMeans(s: string) returns (i: nat, j: nat)
    ensures i <= j <= |s| && Trim(s) == s[i..j] && AllWhite(s[..i]) && AllWhite(s[j..]) && Tight(Trim(s))
  {
    i := TrimStartCuts(s);
    var k := TrimEndCuts(s[i..]);
    j := i + k;
    assert s[i..][..k] == s[i..j] && s[i..][k..] == s[j..];
    TrimTight(s);
  }

  // ---------------------------------------------------------------------------
  // Powers.

  lemma Pow58At44()
    ensures Pow(58, 44) == 389790918707373377135528568990913592653094657612049369038476873218241589149696
  {
    PowAdd(58, 1, 1);
    PowAdd(58, 2, 2);
    PowAdd(58, 4, 4);
    PowAdd(58, 8, 2);
    PowAdd(58, 10, 1);
    PowAdd(58, 11, 11);
    PowAdd(58, 22, 22);
    assert Pow(58, 1) == Pow(58, 0) * 58 == 58;
    assert Pow(58, 2) == 3364;
    assert Pow(58, 4) == 11316496;
    assert Pow(58, 8) == 128063081718016;
    assert Pow(58, 10) == 128063081718016 * 3364;
    assert Pow(58, 11) == 24986644000165537792;
    assert Pow(58, 22) == 624332378391008467754527498760580235264;
  }

  lemma Pow256At32()
    ensures Pow(256, 32) == 115792089237316195423570985008687907853269984665640564039457584007913129639936
  {
    PowAdd(256, 1, 1);
    PowAdd(256, 2, 2);
    PowAdd(256, 4, 4);
    PowAdd(256, 8, 8);
    PowAdd(256, 16, 16);
    assert Pow(256, 1) == Pow(256, 0) * 256 == 256;
    assert Pow(256, 2) == 65536;
    assert Pow(256, 4) == 4294967296;
    assert Pow(256, 8) == 18446744073709551616;
    assert Pow(256, 16) == 340282366920938463463374607431768211456;
  }

  // ---------------------------------------------------------------------------
  // The shape of a CIDv0.

  lemma MultihashValue(digest: seq<Byte>)
    requires |digest| == 32
    ensures Value(CIDV0_PREFIX + digest) == 0x1220 * Pow(256, 32) + Value(digest)
    ensures Value(digest) < Pow(256, 32)
  {
    ValueJoin(CIDV0_PREFIX, digest);
    BytesRoundTrip(digest);
    assert CIDV0_PREFIX[..1] == [0x12] && CIDV0_PREFIX[..1][..0] == [];
    assert Value(CIDV0_PREFIX[..1]) == 0x12;
    assert Value(CIDV0_PREFIX) == 0x1220;
  }

  lemma DigitsOf1378()
    ensures Digits(1378) == [23, 44]
  {
  }

  /** Whatever the digest, the multihash is between 1378 and 1379 times 58^44, so it has 46 digits and the
      first two are those of 1378. */
  lemma CidDigits(digest: seq<Byte>)
    requires |digest| == 32
    ensures |Digits(Value(CIDV0_PREFIX + digest))| == 46
    ensures [23, 44] <= Digits(Value(CIDV0_PREFIX + digest))
  {
    MultihashValue(digest);
    Pow58At44();
    Pow256At32();
    var n := Value(CIDV0_PREFIX + digest);
    var r := n - 1378 * Pow(58, 44);
    assert 0 <= r < Pow(58, 44);
    LeadingDigits(1378, r, 44);
    DigitsOf1378();
  }

  lemma CidText(digest: seq<Byte>)
    requires |digest| == 32
    ensures var cid := Encode(CIDV0_PREFIX + digest);
      |cid| == 46 && cid[..2] == "Qm" && IsText(cid)
  {
    var bytes := CIDV0_PREFIX + digest;
    var ds := Digits(Value(bytes));
    CidDigits(digest);
    LettersRoundTrip(ds);
    assert bytes[0] == 0x12;
    assert Encode(bytes) == Letters(ds);
    assert ds[0] == 23 && ds[1] == 44;
    assert Letters(ds)[..2] == [Letter(23), Letter(44)];
    assert 'P' + 1 as char == 'Q' && 'm' + 0 as char == 'm';
  }

  lemma TextIsTight(s: string)
    requires s != "" && IsText(s)
    ensures Tight(s)
  {
    assert LetterValue(s[0]).Some? && LetterValue(s[|s| - 1]).Some?;
  }

  /** The bytes32 id a string stands for, if it does. */
  function Recognised(id: string): Option<seq<Byte>> {
    if IsBytes32(Unprefixed(Trim(id))) then Some(DecodeHex(Unprefixed(Trim(id)))) else None
  }

  predicate HexLetter(c: char) {
    '0' <= c <= '9' || 'a' <= c <= 'f' || 'A' <= c <= 'F'
  }

  /** A bytes32 id is 64 hex digits of either case, with or without a leading `0x`, and white space around it. */
  lemma RecognisedMeans(id: string)
    ensures Recognised(id).Some?
       <==> var t := Trim(id);
            var body := if "0x" <= t then t[2..] else t;
            |body| == 64 && forall c <- body :: HexLetter(c)
  {
    var t := Trim(id);
    if |t| >= 2 && t[0] == '0' && t[1] == 'x' { assert t[..2] == "0x"; }
    assert Unprefixed(t) == if "0x" <= t then t[2..] else t;
    assert forall c :: Nibble(c).Some? <==> HexLetter(c);
  }

  /** Every bytes32 id becomes a 46-character base-58 text that begins with `Qm`; anything else is only
      trimmed. */
  lemma NormalisedForm(id: string)
    ensures if Recognised(id).Some? then |Normalise(id)| == 46 && Normalise(id)[..2] == "Qm" && IsText(Normalise(id))
            else Normalise(id) == Trim(id)
  {
    if Recognised(id).Some? { CidText(Recognised(id).value); }
  }

  /** Normalising twice is normalising once, for every string there is. */
  lemma NormaliseIsIdempotent(id: string)
    ensures Normalise(Normalise(id)) == Normalise(id)
  {
    NormalisedForm(id);
    TrimTight(id);
    var once := Normalise(id);
    if Recognised(id).Some? {
      TextIsTight(once);
      assert once[0] == once[..2][0] == 'Q';
    }
    assert Trim(once) == once;
  }

  // ---------------------------------------------------------------------------
  // Reading a CIDv0 back.

  function DigestIn(cid: string): Option<seq<Byte>> {
    PowPositive(256, 32);
    var n := NumberIn(cid);
    if n.Some? && n.value / Pow(256, 32) == 0x1220 then Some(BytesOf(n.value % Pow(256, 32), 32)) else None
  }

  lemma Multiple(d: int, k: int)
    requires d > 0
    ensures (k >= 1 ==> d * k >= d) && (k <= -1 ==> d * k <= -d)
  {
  }

  lemma Divides(q: nat, r: nat, d: nat)
    requires r < d
    ensures (q * d + r) / d == q && (q * d + r) % d == r
  {
    var n := q * d + r;
    assert n == d * (n / d) + n % d;
    assert d * (n / d - q) == r - n % d;
    Multiple(d, n / d - q);
  }

  lemma CidReadsBack(digest: seq<Byte>)
    requires |digest| == 32
    ensures DigestIn(Encode(CIDV0_PREFIX + digest)) == Some(digest)
  {
    var bytes := CIDV0_PREFIX + digest;
    assert bytes[0] == 0x12;
    EncodeRoundTrip(bytes);
    MultihashValue(digest);
    BytesRoundTrip(digest);
    DigestOfNumber(Encode(bytes), Value(digest));
  }

  lemma DigestOfNumber(cid: string, v: nat)
    requires v < Pow(256, 32) && NumberIn(cid) == Some(0x1220 * Pow(256, 32) + v)
    ensures DigestIn(cid) == Some(BytesOf(v, 32))
  {
    PowPositive(256, 32);
    Divides(0x1220, v, Pow(256, 32));
  }

  /** Nothing is lost: the digest can be read back from the normalised id. */
  lemma DigestSurvives(id: string)
    requires Recognised(id).Some?
    ensures DigestIn(Normalise(id)) == Recognised(id)
  {
    CidReadsBack(Recognised(id).value);
  }

  // ---------------------------------------------------------------------------
  // Telling ids apart.

  /** Two bytes32 ids normalise alike exactly when they are the same id up to surrounding white space, the
      `0x` prefix and the case of their hex digits. */
  lemma NormaliseTellsIdsApart(a: string, b: string)
    requires Recognised(a).Some? && Recognised(b).Some?
    ensures Normalise(a) == Normalise(b) <==> SameHex(Unprefixed(Trim(a)), Unprefixed(Trim(b)))
  {
    DigestSurvives(a);
    DigestSurvives(b);
    DecodeHexSame(Unprefixed(Trim(a)), Unprefixed(Trim(b)));
  }
}
