/** Strings as the source orders and escapes them. */
module Text {
  import opened Prelude
  import opened Hex

  // ---------------------------------------------------------------------------
  // Lexicographic order by code point, which is how Rust orders strings.

  predicate Less(a: string, b: string) {
    if b == "" then false
    else if a == "" then true
    else a[0] < b[0] || (a[0] == b[0] && Less(a[1..], b[1..]))
  }

  lemma {:induction false} LessTotal(a: string, b: string)
    ensures a == b || Less(a, b) || Less(b, a)
    ensures !(Less(a, b) && Less(b, a))
  {
    if a != "" && b != "" {
      LessTotal(a[1..], b[1..]);
      if a[0] == b[0] && a[1..] == b[1..] {
        assert a == [a[0]] + a[1..] && b == [b[0]] + b[1..];
      }
    }
  }

  lemma {:induction false} LessIrreflexive(a: string)
    ensures !Less(a, a)
  {
    if a != "" {
      LessIrreflexive(a[1..]);
    }
  }

  lemma {:induction false} LessTransitive(a: string, b: string, c: string)
    requires Less(a, b) && Less(b, c)
    ensures Less(a, c)
  {
    if a != "" && a[0] == b[0] && b[0] == c[0] {
      LessTransitive(a[1..], b[1..], c[1..]);
    }
  }

  /** `p` is where two strings part: up to there they agree, and there one ends or they differ. */
  predicate PartAt(a: string, b: string, p: nat) {
    p <= |a| && p <= |b| && a[..p] == b[..p] && (p < |a| && p < |b| ==> a[p] != b[p])
  }

  /** One string is before another exactly when, where they part, it has ended or has the lesser code point. */
  lemma {:induction false} LessIsByCodePoint(a: string, b: string) returns (p: nat)
    ensures PartAt(a, b, p)
    ensures Less(a, b) <==> p < |b| && (p == |a| || a[p] as int < b[p] as int)
  {
    if a == "" || b == "" || a[0] != b[0] {
      p := 0;
    } else {
      var q := LessIsByCodePoint(a[1..], b[1..]);
      p := q + 1;
      assert a[..p] == [a[0]] + a[1..][..q] && b[..p] == [b[0]] + b[1..][..q];
    }
  }

  // ---------------------------------------------------------------------------
  // Sorting records by a string key.

  function Itself(s: string): string { s }

  predicate Sorted<T>(s: seq<T>, key: T -> string) {
    forall i, j | 0 <= i < j < |s| :: Less(key(s[i]), key(s[j]))
  }

  predicate DistinctKeys<T>(s: seq<T>, key: T -> string) {
    forall i, j | 0 <= i < j < |s| :: key(s[i]) != key(s[j])
  }

  /** Insert into an ordered list; an equal key replaces what was there, as in a map. */
  function Insert<T>(s: seq<T>, x: T, key: T -> string): seq<T> {
    if s == [] then [x]
    else if key(x) == key(s[0]) then [x] + s[1..]
    else if Less(key(x), key(s[0])) then [x] + s
    else [s[0]] + Insert(s[1..], x, key)
  }

  function Sort<T>(s: seq<T>, key: T -> string): seq<T> {
    if s == [] then [] else Insert(Sort(s[..|s| - 1], key), s[|s| - 1], key)
  }

  lemma {:induction false} InsertKeeps<T(!new)>(s: seq<T>, x: T, key: T -> string)
    requires forall y | y in s :: key(y) != key(x)
    ensures |Insert(s, x, key)| == |s| + 1
    ensures forall y :: y in Insert(s, x, key) <==> y in s || y == x
  {
    if s != [] && !Less(key(x), key(s[0])) {
      assert forall y | y in s[1..] :: y in s;
      InsertKeeps(s[1..], x, key);
      assert forall y :: y in s <==> y == s[0] || y in s[1..];
    }
  }

  lemma {:induction false} InsertSorts<T(!new)>(s: seq<T>, x: T, key: T -> string)
    requires Sorted(s, key) && forall y | y in s :: key(y) != key(x)
    ensures Sorted(Insert(s, x, key), key)
  {
    if s != [] {
      assert forall y | y in s[1..] :: y in s;
      LessTotal(key(x), key(s[0]));
      if Less(key(x), key(s[0])) {
        forall j | 0 < j < |s|
          ensures Less(key(x), key(s[j]))
        {
          LessTransitive(key(x), key(s[0]), key(s[j]));
        }
      } else {
        var rest := Insert(s[1..], x, key);
        InsertSorts(s[1..], x, key);
        InsertKeeps(s[1..], x, key);
        forall j | 0 <= j < |rest|
          ensures Less(key(s[0]), key(rest[j]))
        {
          assert rest[j] in rest;
        }
      }
    }
  }

  /** Sorting keeps the records and puts them in strictly ascending key order. */
  lemma {:induction false} SortSorts<T(!new)>(s: seq<T>, key: T -> string)
    requires DistinctKeys(s, key)
    ensures |Sort(s, key)| == |s| && Sorted(Sort(s, key), key)
    ensures forall y :: y in Sort(s, key) <==> y in s
  {
    if s != [] {
      var init, last := s[..|s| - 1], s[|s| - 1];
      SortSorts(init, key);
      forall y | y in Sort(init, key)
        ensures key(y) != key(last)
      {
        var i :| 0 <= i < |init| && init[i] == y;
        assert s[i] == y;
      }
      InsertKeeps(Sort(init, key), last, key);
      InsertSorts(Sort(init, key), last, key);
      assert forall y :: y in s <==> y in init || y == last;
    }
  }

  /** A set of records has one sorted listing. */
  lemma {:induction false} SortedUnique<T(!new)>(a: seq<T>, b: seq<T>, key: T -> string)
    requires Sorted(a, key) && Sorted(b, key) && forall y :: y in a <==> y in b
    ensures a == b
  {
    assert (a != [] ==> a[0] in b) && (b != [] ==> b[0] in a);
    if a != [] {
      SameHead(a, b, key);
      TailMembers(a, b, key);
      SortedUnique(a[1..], b[1..], key);
      assert a == [a[0]] + a[1..] && b == [b[0]] + b[1..];
    }
  }

  lemma SameHead<T>(a: seq<T>, b: seq<T>, key: T -> string)
    requires Sorted(a, key) && Sorted(b, key) && a != [] && b != [] && a[0] in b && b[0] in a
    ensures a[0] == b[0]
  {
    var i :| 0 <= i < |b| && b[i] == a[0];
    var j :| 0 <= j < |a| && a[j] == b[0];
    LessTotal(key(a[0]), key(b[0]));
  }

  lemma TailMembers<T(!new)>(a: seq<T>, b: seq<T>, key: T -> string)
    requires Sorted(a, key) && Sorted(b, key) && a != [] && b != [] && a[0] == b[0]
    requires forall y :: y in a <==> y in b
    ensures forall y :: y in a[1..] <==> y in b[1..]
  {
    HeadNotInTail(a, key);
    HeadNotInTail(b, key);
    assert forall y :: y in a <==> y == a[0] || y in a[1..];
    assert forall y :: y in b <==> y == b[0] || y in b[1..];
  }

  lemma HeadNotInTail<T>(a: seq<T>, key: T -> string)
    requires Sorted(a, key) && a != []
    ensures a[0] !in a[1..]
  {
    LessIrreflexive(key(a[0]));
  }

  // ---------------------------------------------------------------------------
  // JSON string escapes.

  /** How one character is written: the two-character escapes, `\u00xx` for the other controls, and
      itself otherwise. */
  function Escape(c: char): string {
    if c == '\"' then ['\\', '\"']
    else if c == '\\' then ['\\', '\\']
    else if c as int == 8 then ['\\', 'b']
    else if c as int == 9 then ['\\', 't']
    else if c as int == 10 then ['\\', 'n']
    else if c as int == 12 then ['\\', 'f']
    else if c as int == 13 then ['\\', 'r']
    else if (c as int) < 32 then ['\\', 'u', '0', '0', HexDigit(c as int / 16), HexDigit(c as int % 16)]
    else [c]
  }

  datatype Scanned = Scanned(c: char, length: nat)

  /** The character an escape was written for, and how much text it took. */
  function Unescape(s: string): Option<Scanned> {
    if s == "" then None
    else if s[0] != '\\' then Some(Scanned(s[0], 1))
    else if |s| < 2 then None
    else
      match s[1]
      case '\"' => Some(Scanned('\"', 2))
      case '\\' => Some(Scanned('\\', 2))
      case 'b' => Some(Scanned(8 as char, 2))
      case 't' => Some(Scanned(9 as char, 2))
      case 'n' => Some(Scanned(10 as char, 2))
      case 'f' => Some(Scanned(12 as char, 2))
      case 'r' => Some(Scanned(13 as char, 2))
      case _ =>
        if |s| < 6 || s[1] != 'u' || s[2] != '0' || s[3] != '0' then None
        else
          var hi, lo := Nibble(s[4]), Nibble(s[5]);
          if hi.None? || lo.None? then None else Some(Scanned((hi.value * 16 + lo.value) as char, 6))
  }

  lemma UnescapeEscape(c: char, rest: string)
    ensures Unescape(Escape(c) + rest) == Some(Scanned(c, |Escape(c)|))
  {
  }

  /** Escapes are a prefix code. */
  lemma EscapesDecode(c: char, d: char, s: string, t: string)
    requires Escape(c) + s == Escape(d) + t
    ensures c == d && s == t
  {
    UnescapeEscape(c, s);
    UnescapeEscape(d, t);
    assert (Escape(c) + s)[|Escape(c)|..] == s;
    assert (Escape(d) + t)[|Escape(d)|..] == t;
  }

  // ---------------------------------------------------------------------------
  // Comma-separated lists.

  function JoinTexts(texts: seq<string>): string {
    if texts == [] then "" else if |texts| == 1 then texts[0] else texts[0] + "," + JoinTexts(texts[1..])
  }

  predicate Plain(text: string) {
    text != "" && ',' !in text
  }

  lemma FirstComma(a: string, r: string)
    requires ',' !in a && (r != "" ==> r[0] == ',')
    ensures forall i | 0 <= i < |a + r| && (a + r)[i] == ',' :: i >= |a|
    ensures |a + r| > |a| ==> (a + r)[|a|] == ','
  {
  }

  lemma FirstText(a: string, r: string, b: string, s: string)
    requires ',' !in a && ',' !in b && a + r == b + s
    requires (r != "" ==> r[0] == ',') && (s != "" ==> s[0] == ',')
    ensures a == b && r == s
  {
    FirstComma(a, r);
    FirstComma(b, s);
    assert |a| == |b|;
    assert a == (a + r)[..|a|] && b == (b + s)[..|b|];
    assert r == (a + r)[|a|..] && s == (b + s)[|b|..];
  }

  function JoinedAfter(texts: seq<string>): string
    requires texts != []
  {
    if |texts| == 1 then "" else "," + JoinTexts(texts[1..])
  }

  lemma JoinSplits(texts: seq<string>)
    requires texts != []
    ensures JoinTexts(texts) == texts[0] + JoinedAfter(texts)
    ensures JoinedAfter(texts) != "" ==> JoinedAfter(texts)[0] == ','
    ensures |texts| > 1 ==> JoinTexts(texts[1..]) == JoinedAfter(texts)[1..]
  {
    if |texts| > 1 { CommaBetween(texts[0], JoinTexts(texts[1..])); }
  }

  lemma CommaBetween(a: string, rest: string)
    ensures a + "," + rest == a + ("," + rest) && ("," + rest)[0] == ',' && ("," + rest)[1..] == rest
  {
  }

  lemma JoinFirst(xs: seq<string>, ys: seq<string>)
    requires xs != [] && ys != [] && Plain(xs[0]) && Plain(ys[0]) && JoinTexts(xs) == JoinTexts(ys)
    ensures xs[0] == ys[0] && JoinedAfter(xs) == JoinedAfter(ys)
    ensures |xs| > 1 && |ys| > 1 ==> JoinTexts(xs[1..]) == JoinTexts(ys[1..])
  {
    JoinSplits(xs);
    JoinSplits(ys);
    FirstText(xs[0], JoinedAfter(xs), ys[0], JoinedAfter(ys));
  }

  /** A list of plain texts can be read back from its join. */
  lemma {:induction false} JoinTextsInjective(xs: seq<string>, ys: seq<string>)
    requires (forall x | x in xs :: Plain(x)) && (forall y | y in ys :: Plain(y))
    requires JoinTexts(xs) == JoinTexts(ys)
    ensures xs == ys
  {
    assert (xs != [] ==> Plain(xs[0])) && (ys != [] ==> Plain(ys[0]));
    if xs != [] && ys != [] {
      JoinFirst(xs, ys);
      if |xs| > 1 && |ys| > 1 { JoinTextsInjective(xs[1..], ys[1..]); }
      assert xs == [xs[0]] + xs[1..] && ys == [ys[0]] + ys[1..];
    }
  }
}
