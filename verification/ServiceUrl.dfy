/** Reading a service URL out of a registration: the first string of an ABI-encoded tuple. */
module ServiceUrl {
  import opened Prelude
  import opened Hex
  import opened Base58
  import opened Deployment

  const WRAP: nat := 0x1_0000_0000_0000_0000

  /** `bytes.get(from..to)`. */
  function Get(bytes: seq<Byte>, from: nat, to: nat): Option<seq<Byte>> {
    if from <= to <= |bytes| then Some(bytes[from..to]) else None
  }

  predicate Zeros(bytes: seq<Byte>) {
    forall b <- bytes :: b == 0
  }

  function CheckedAdd(a: nat, b: nat): Option<nat> {
    if a + b < WRAP then Some(a + b) else None
  }

  /** The 64-bit number in the word at an offset. The end of the word is computed without a check, so near
      the top of the range it wraps. */
  function Word(bytes: seq<Byte>, at: nat): (n: Option<nat>)
    requires at < WRAP
    ensures n.Some? ==> n.value < WRAP
  {
    var w := Get(bytes, at, (at + 32) % WRAP);
    if w.None? then None
    else if |w.value| != 32 || !Zeros(w.value[..24]) then None
    else
      BytesRoundTrip(w.value[24..]);
      Pow256At8();
      Some(Value(w.value[24..]))
  }

  lemma Pow256At8()
    ensures Pow(256, 8) == WRAP
  {
  }

  function UrlBytes(bytes: seq<Byte>): Option<seq<Byte>> {
    var offset := Word(bytes, 0);
    if offset.None? then None
    else
      var length := Word(bytes, offset.value);
      var start := CheckedAdd(offset.value, 32);
      if length.None? || start.None? then None
      else
        var end := CheckedAdd(start.value, length.value);
        if end.None? then None else Get(bytes, start.value, end.value)
  }

  /** `lossy` is the library's conversion of bytes to text. */
  function DecodeServiceUrl(data: string, lossy: seq<Byte> -> string): Option<string> {
    var hex := Unprefixed(data);
    if |hex| % 2 != 0 || !IsHex(hex) then None
    else
      var url := UrlBytes(DecodeHex(hex));
      if url.None? then None else Some(Trim(lossy(url.value)))
  }

  // ---------------------------------------------------------------------------
  // What the words designate, in unbounded arithmetic.

  ghost predicate Holds(bytes: seq<Byte>, at: nat, n: nat) {
    at + 32 <= |bytes| && Value(bytes[at..at + 32]) == n
  }

  ghost predicate Designates(bytes: seq<Byte>, offset: nat, length: nat, url: seq<Byte>) {
    && Holds(bytes, 0, offset) && Holds(bytes, offset, length)
    && offset + 32 + length <= |bytes| && url == bytes[offset + 32..offset + 32 + length]
  }

  lemma {:induction false} ZerosValue(bytes: seq<Byte>)
    ensures Value(bytes) == 0 <==> Zeros(bytes)
  {
    if bytes != [] {
      var init, last := bytes[..|bytes| - 1], bytes[|bytes| - 1];
      ZerosValue(init);
      assert bytes == init + [last];
      assert last in bytes && forall b | b in init :: b in bytes;
      assert forall b | b in bytes :: b in init || b == last;
      assert Value(bytes) == 0 <==> Value(init) == 0 && last == 0;
    }
  }

  lemma AtLeast(high: nat, low: nat)
    ensures high > 0 ==> high * WRAP + low >= WRAP
  {
  }

  /** A word reads as its value exactly when that fits 64 bits and the word lies inside the bytes: the
      guard on the high bytes and the wrapping end never change the answer on anything that fits in memory. */
  lemma WordIsHolds(bytes: seq<Byte>, at: nat, n: nat)
    requires |bytes| < 0x8000_0000_0000_0000 && at < WRAP
    ensures Word(bytes, at) == Some(n) <==> Holds(bytes, at, n) && n < WRAP
  {
    if at + 32 <= |bytes| {
      var w := bytes[at..at + 32];
      assert w == w[..24] + w[24..];
      ValueJoin(w[..24], w[24..]);
      BytesRoundTrip(w[24..]);
      Pow256At8();
      ZerosValue(w[..24]);
      AtLeast(Value(w[..24]), Value(w[24..]));
      assert Get(bytes, at, at + 32) == Some(w);
    } else {
      assert Get(bytes, at, (at + 32) % WRAP) == None;
    }
  }

  lemma DesignatesDecodes(bytes: seq<Byte>, offset: nat, length: nat, url: seq<Byte>)
    requires |bytes| < 0x8000_0000_0000_0000 && Designates(bytes, offset, length, url)
    ensures UrlBytes(bytes) == Some(url)
  {
    WordIsHolds(bytes, 0, offset);
    WordIsHolds(bytes, offset, length);
  }

  /** On every byte string that fits in memory the decoder returns exactly the bytes its offset and length
      words designate, and nothing when they designate none. */
  lemma DecodesIffDesignated(bytes: seq<Byte>, url: seq<Byte>)
    requires |bytes| < 0x8000_0000_0000_0000
    ensures UrlBytes(bytes) == Some(url) <==> exists offset, length :: Designates(bytes, offset, length, url)
  {
    if UrlBytes(bytes) == Some(url) {
      var offset := Word(bytes, 0).value;
      var length := Word(bytes, offset).value;
      WordIsHolds(bytes, 0, offset);
      WordIsHolds(bytes, offset, length);
      assert Designates(bytes, offset, length, url);
    }
    if exists offset, length :: Designates(bytes, offset, length, url) {
      var offset, length :| Designates(bytes, offset, length, url);
      DesignatesDecodes(bytes, offset, length, url);
    }
  }

  // ---------------------------------------------------------------------------
  // The encoding.

  /** A member of an encoded tuple: a static word, a byte string, or any other dynamic type by its tail. */
  datatype Field = Static(word: seq<Byte>) | Text(bytes: seq<Byte>) | Nested(tail: seq<Byte>)

  function Zero(n: nat): (bytes: seq<Byte>)
    ensures |bytes| == n
  {
    seq(n, i => 0)
  }

  /** Padding up to a whole number of words. */
  function Padding(length: nat): nat {
    if length % 32 == 0 then 0 else 32 - length % 32
  }

  function Tail(f: Field): seq<Byte> {
    match f
    case Static(_) => []
    case Text(b) => BytesOf(|b|, 32) + b + Zero(Padding(|b|))
    case Nested(t) => t
  }

  function Tails(fields: seq<Field>): seq<Byte> {
    if fields == [] then [] else Tails(fields[..|fields| - 1]) + Tail(fields[|fields| - 1])
  }

  predicate WordsOnly(fields: seq<Field>) {
    forall f <- fields :: f.Static? ==> |f.word| == 32
  }

  /** A dynamic member's head is where its tail will be. */
  function Heads(fields: seq<Field>, base: nat): (heads: seq<Byte>)
    requires WordsOnly(fields)
    ensures |heads| == 32 * |fields|
  {
    if fields == [] then []
    else
      var before, f := fields[..|fields| - 1], fields[|fields| - 1];
      assert WordsOnly(before) && f in fields;
      Heads(before, base) + (if f.Static? then f.word else BytesOf(base + |Tails(before)|, 32))
  }

  function EncodeTuple(fields: seq<Field>): seq<Byte>
    requires WordsOnly(fields)
  {
    Heads(fields, 32 * |fields|) + Tails(fields)
  }

  lemma {:induction false} FirstHead(fields: seq<Field>, base: nat)
    requires WordsOnly(fields) && fields != [] && fields[0].Text?
    ensures Heads(fields, base)[..32] == BytesOf(base, 32)
    ensures Tail(fields[0]) <= Tails(fields)
  {
    var before := fields[..|fields| - 1];
    if |fields| == 1 {
      assert before == [] && Tails(before) == [];
    } else {
      assert WordsOnly(before);
      FirstHead(before, base);
    }
  }

  lemma {:induction false} BytesOfValue(n: nat, count: nat)
    requires n < Pow(256, count)
    ensures Value(BytesOf(n, count)) == n
  {
    if count > 0 {
      BytesOfValue(n / 256, count - 1);
      assert BytesOf(n, count)[..count - 1] == BytesOf(n / 256, count - 1);
    }
  }

  lemma WordRoundTrip(n: nat)
    requires n < 0x8000_0000_0000_0000
    ensures Value(BytesOf(n, 32)) == n
  {
    Pow256At32();
    BytesOfValue(n, 32);
  }

  lemma Slices(head: seq<Byte>, word: seq<Byte>, url: seq<Byte>, rest: seq<Byte>)
    requires |head| >= 32 && |word| == 32
    ensures var bytes := head + (word + url + rest);
      && bytes[0..32] == head[..32]
      && bytes[|head|..|head| + 32] == word
      && bytes[|head| + 32..|head| + 32 + |url|] == url
  {
  }

  lemma Regroup(a: seq<Byte>, b: seq<Byte>, c: seq<Byte>, d: seq<Byte>)
    ensures (a + b + c) + d == a + b + (c + d)
  {
  }

  lemma TailFirst(fields: seq<Field>)
    requires fields != [] && fields[0].Text? && Tail(fields[0]) <= Tails(fields)
    ensures exists rest :: Tails(fields) == BytesOf(|fields[0].bytes|, 32) + fields[0].bytes + rest
  {
    var url, tail, tails := fields[0].bytes, Tail(fields[0]), Tails(fields);
    Regroup(BytesOf(|url|, 32), url, Zero(Padding(|url|)), tails[|tail|..]);
    assert tails == tail + tails[|tail|..];
  }

  lemma PartsDesignate(heads: seq<Byte>, url: seq<Byte>, rest: seq<Byte>)
    requires |heads| >= 32 && heads[..32] == BytesOf(|heads|, 32)
    requires |heads| + 32 + |url| + |rest| < 0x8000_0000_0000_0000
    ensures Designates(heads + (BytesOf(|url|, 32) + url + rest), |heads|, |url|, url)
  {
    Slices(heads, BytesOf(|url|, 32), url, rest);
    WordRoundTrip(|heads|);
    WordRoundTrip(|url|);
  }

  lemma EncodedDesignates(fields: seq<Field>)
    requires WordsOnly(fields) && fields != [] && fields[0].Text?
    requires |EncodeTuple(fields)| < 0x8000_0000_0000_0000
    ensures Designates(EncodeTuple(fields), 32 * |fields|, |fields[0].bytes|, fields[0].bytes)
  {
    FirstHead(fields, 32 * |fields|);
    TailFirst(fields);
    var heads, url := Heads(fields, 32 * |fields|), fields[0].bytes;
    var rest :| Tails(fields) == BytesOf(|url|, 32) + url + rest;
    PartsDesignate(heads, url, rest);
  }

  /** Decoding undoes encoding: whatever else the registration holds after the URL, the URL comes back. */
  lemma UrlRoundTrip(fields: seq<Field>)
    requires WordsOnly(fields) && fields != [] && fields[0].Text?
    requires |EncodeTuple(fields)| < 0x8000_0000_0000_0000
    ensures UrlBytes(EncodeTuple(fields)) == Some(fields[0].bytes)
  {
    EncodedDesignates(fields);
    DesignatesDecodes(EncodeTuple(fields), 32 * |fields|, |fields[0].bytes|, fields[0].bytes);
  }

  lemma UnprefixedHex(hex: string)
    requires IsHex(hex)
    ensures Unprefixed("0x" + hex) == hex && Unprefixed(hex) == hex
  {
    assert |hex| >= 2 ==> Nibble(hex[1]).Some?;
    assert Nibble('x') == None;
    assert ("0x" + hex)[2..] == hex;
  }

  lemma DecodesHex(data: string, bytes: seq<Byte>, lossy: seq<Byte> -> string)
    requires Unprefixed(data) == EncodeHex(bytes) && UrlBytes(bytes).Some?
    ensures DecodeServiceUrl(data, lossy) == Some(Trim(lossy(UrlBytes(bytes).value)))
  {
    HexRoundTrip(bytes);
  }

  /** And so from the hex text of the payload, with or without `0x`, to the trimmed text. */
  lemma ServiceUrlRoundTrip(fields: seq<Field>, lossy: seq<Byte> -> string)
    requires WordsOnly(fields) && fields != [] && fields[0].Text?
    requires |EncodeTuple(fields)| < 0x8000_0000_0000_0000
    ensures DecodeServiceUrl(EncodeHex(EncodeTuple(fields)), lossy) == Some(Trim(lossy(fields[0].bytes)))
    ensures DecodeServiceUrl("0x" + EncodeHex(EncodeTuple(fields)), lossy) == Some(Trim(lossy(fields[0].bytes)))
  {
    var bytes := EncodeTuple(fields);
    UrlRoundTrip(fields);
    HexRoundTrip(bytes);
    UnprefixedHex(EncodeHex(bytes));
    DecodesHex(EncodeHex(bytes), bytes, lossy);
    DecodesHex("0x" + EncodeHex(bytes), bytes, lossy);
  }
}
