/** Canonical printing is exactly equality up to key order. */
module CanonicalProofs {
  import opened Text
  import opened Canonical

  // ---------------------------------------------------------------------------
  // Printing in place, with what follows passed along: the text of `v` and then `rest`.

  function ShowChars(s: string, rest: string): string {
    if s == "" then rest else Escape(s[0]) + ShowChars(s[1..], rest)
  }

  function ShowQuoted(s: string, rest: string): string {
    "\"" + ShowChars(s, "\"" + rest)
  }

  function Show(v: Json, rest: string): string
    decreases v, 1
  {
    match v
    case Null => "null" + rest
    case Bool(b) => (if b then "true" else "false") + rest
    case Number(token) => token + rest
    case String(s) => ShowQuoted(s, rest)
    case Array(items) => "[" + ShowItems(items, "]" + rest)
    case Object(members) => "{" + ShowMembers(members, "}" + rest)
  }

  function ShowItems(items: seq<Json>, rest: string): string
    decreases items, 0
  {
    if items == [] then rest
    else if |items| == 1 then Show(items[0], rest)
    else Show(items[0], "," + ShowItems(items[1..], rest))
  }

  function ShowMembers(members: seq<Member>, rest: string): string
    decreases members, 0
  {
    if members == [] then rest
    else if |members| == 1 then ShowQuoted(members[0].key, ":" + Show(members[0].value, rest))
    else ShowQuoted(members[0].key, ":" + Show(members[0].value, "," + ShowMembers(members[1..], rest)))
  }

  // ---------------------------------------------------------------------------
  // Unique decoding.

  /** What may follow a value: nothing, or a character no number contains. */
  predicate Stops(rest: string) {
    rest == "" || !NumberChar(rest[0])
  }

  predicate NumbersValid(v: Json) {
    match v
    case Number(token) => IsNumber(token)
    case Array(items) => forall x <- items :: NumbersValid(x)
    case Object(members) => forall m <- members :: NumbersValid(m.value)
    case _ => true
  }

  lemma TokenGoesOn(a: string, b: string, s: string, t: string)
    requires IsNumber(b) && a + s == b + t && |a| < |b|
    ensures !Stops(s)
  {
    assert (a + s)[|a|] == s[0] && (b + t)[|a|] == b[|a|];
    assert b[|a|] in b;
  }

  lemma TokensDecode(a: string, b: string, s: string, t: string)
    requires IsNumber(a) && IsNumber(b) && Stops(s) && Stops(t) && a + s == b + t
    ensures a == b && s == t
  {
    if |a| < |b| { TokenGoesOn(a, b, s, t); }
    if |b| < |a| { TokenGoesOn(b, a, t, s); }
    assert a == (a + s)[..|a|] && b == (b + t)[..|b|];
    assert s == (a + s)[|a|..] && t == (b + t)[|b|..];
  }

  lemma CharsStart(s: string, rest: string)
    ensures ShowChars(s, "\"" + rest) != "" && (ShowChars(s, "\"" + rest)[0] == '\"' <==> s == "")
  {
  }

  lemma {:induction false} CharsDecode(a: string, b: string, s: string, t: string)
    requires ShowChars(a, "\"" + s) == ShowChars(b, "\"" + t)
    ensures a == b && s == t
  {
    CharsStart(a, s);
    CharsStart(b, t);
    if a == "" {
      assert s == ("\"" + s)[1..] && t == ("\"" + t)[1..];
    } else {
      EscapesDecode(a[0], b[0], ShowChars(a[1..], "\"" + s), ShowChars(b[1..], "\"" + t));
      CharsDecode(a[1..], b[1..], s, t);
      assert a == [a[0]] + a[1..] && b == [b[0]] + b[1..];
    }
  }

  lemma QuotedDecode(a: string, b: string, s: string, t: string)
    requires ShowQuoted(a, s) == ShowQuoted(b, t)
    ensures a == b && s == t
  {
    assert ShowQuoted(a, s)[1..] == ShowChars(a, "\"" + s);
    assert ShowQuoted(b, t)[1..] == ShowChars(b, "\"" + t);
    CharsDecode(a, b, s, t);
  }

  /** The first character of a value's text tells its kind. */
  function FirstChar(v: Json): char
    requires NumbersValid(v)
  {
    match v
    case Null => 'n'
    case Bool(b) => if b then 't' else 'f'
    case Number(token) => token[0]
    case String(_) => '\"'
    case Array(_) => '['
    case Object(_) => '{'
  }

  lemma ShowStarts(v: Json, rest: string)
    requires NumbersValid(v)
    ensures Show(v, rest) != "" && Show(v, rest)[0] == FirstChar(v)
    ensures v.Number? ==> NumberChar(FirstChar(v))
  {
  }

  lemma {:induction false} ShowDecodes(v: Json, w: Json, s: string, t: string)
    requires NumbersValid(v) && NumbersValid(w) && Stops(s) && Stops(t) && Show(v, s) == Show(w, t)
    ensures v == w && s == t
    decreases v, 1
  {
    ShowStarts(v, s);
    ShowStarts(w, t);
    match v
    case Null => assert s == ("null" + s)[4..] && t == ("null" + t)[4..];
    case Bool(b) =>
      if b { assert s == ("true" + s)[4..] && t == ("true" + t)[4..]; }
      else { assert s == ("false" + s)[5..] && t == ("false" + t)[5..]; }
    case Number(token) => TokensDecode(token, w.token, s, t);
    case String(a) => QuotedDecode(a, w.s, s, t);
    case Array(items) =>
      assert Show(v, s)[1..] == ShowItems(items, "]" + s) && Show(w, t)[1..] == ShowItems(w.items, "]" + t);
      ItemsDecode(items, w.items, s, t);
    case Object(members) =>
      assert Show(v, s)[1..] == ShowMembers(members, "}" + s) && Show(w, t)[1..] == ShowMembers(w.members, "}" + t);
      MembersDecode(members, w.members, s, t);
  }

  /** What follows the first item: the close, or a comma and the rest. */
  function AfterItem(items: seq<Json>, close: string): string
    requires items != []
  {
    if |items| == 1 then close else "," + ShowItems(items[1..], close)
  }

  lemma {:induction false} ItemsDecode(xs: seq<Json>, ys: seq<Json>, s: string, t: string)
    requires (forall x <- xs :: NumbersValid(x)) && (forall y <- ys :: NumbersValid(y))
    requires ShowItems(xs, "]" + s) == ShowItems(ys, "]" + t)
    ensures xs == ys && s == t
    decreases xs, 0
  {
    if xs == [] && ys == [] {
      assert s == ("]" + s)[1..] && t == ("]" + t)[1..];
    } else if xs == [] {
      ShowStarts(ys[0], AfterItem(ys, "]" + t));
    } else if ys == [] {
      ShowStarts(xs[0], AfterItem(xs, "]" + s));
    } else {
      var more, more' := AfterItem(xs, "]" + s), AfterItem(ys, "]" + t);
      ShowDecodes(xs[0], ys[0], more, more');
      assert xs == [xs[0]] + xs[1..] && ys == [ys[0]] + ys[1..];
      assert more[0] == more'[0];
      if |xs| == 1 {
        assert s == ("]" + s)[1..] && t == ("]" + t)[1..];
      } else {
        assert more[1..] == ShowItems(xs[1..], "]" + s) && more'[1..] == ShowItems(ys[1..], "]" + t);
        ItemsDecode(xs[1..], ys[1..], s, t);
      }
    }
  }

  function AfterMember(members: seq<Member>, close: string): string
    requires members != []
  {
    if |members| == 1 then close else "," + ShowMembers(members[1..], close)
  }

  lemma {:induction false} MembersDecode(ms: seq<Member>, ns: seq<Member>, s: string, t: string)
    requires (forall m <- ms :: NumbersValid(m.value)) && (forall n <- ns :: NumbersValid(n.value))
    requires ShowMembers(ms, "}" + s) == ShowMembers(ns, "}" + t)
    ensures ms == ns && s == t
    decreases ms, 0
  {
    assert ShowMembers(ms, "}" + s)[0] == ShowMembers(ns, "}" + t)[0];
    if ms == [] {
      assert s == ("}" + s)[1..] && t == ("}" + t)[1..];
    } else {
      var more, more' := AfterMember(ms, "}" + s), AfterMember(ns, "}" + t);
      var value, value' := Show(ms[0].value, more), Show(ns[0].value, more');
      QuotedDecode(ms[0].key, ns[0].key, ":" + value, ":" + value');
      assert value == (":" + value)[1..] && value' == (":" + value')[1..];
      ShowDecodes(ms[0].value, ns[0].value, more, more');
      assert ms == [ms[0]] + ms[1..] && ns == [ns[0]] + ns[1..];
      assert more[0] == more'[0];
      if |ms| == 1 {
        assert s == ("}" + s)[1..] && t == ("}" + t)[1..];
      } else {
        assert more[1..] == ShowMembers(ms[1..], "}" + s) && more'[1..] == ShowMembers(ns[1..], "}" + t);
        MembersDecode(ms[1..], ns[1..], s, t);
      }
    }
  }

  // ---------------------------------------------------------------------------
  // The printer prints the ordered representative.

  lemma {:induction false} ShowCharsSplits(s: string, rest: string)
    ensures ShowChars(s, rest) == EscapeAll(s) + rest
  {
    if s != "" {
      ShowCharsSplits(s[1..], rest);
    }
  }

  lemma ShowQuotedSplits(s: string, rest: string)
    ensures ShowQuoted(s, rest) == Quote(s) + rest
  {
    ShowCharsSplits(s, "\"" + rest);
    assert "\"" + (EscapeAll(s) + ("\"" + rest)) == ("\"" + EscapeAll(s) + "\"") + rest;
  }

  lemma {:induction false} ShowSplits(v: Json, rest: string)
    ensures Show(v, rest) == Show(v, "") + rest
    decreases v, 1
  {
    match v
    case String(s) =>
      ShowQuotedSplits(s, rest);
      ShowQuotedSplits(s, "");
    case Array(items) =>
      ItemsSplit(items, "]" + rest);
      ItemsSplit(items, "]" + "");
    case Object(members) =>
      MembersSplit(members, "}" + rest);
      MembersSplit(members, "}" + "");
    case _ =>
  }

  lemma {:induction false} ItemsSplit(items: seq<Json>, rest: string)
    ensures ShowItems(items, rest) == ShowItems(items, "") + rest
    decreases items, 0
  {
    if |items| == 1 {
      ShowSplits(items[0], rest);
    } else if items != [] {
      ItemsSplit(items[1..], rest);
      ShowSplits(items[0], "," + ShowItems(items[1..], rest));
      ShowSplits(items[0], "," + ShowItems(items[1..], ""));
    }
  }

  lemma {:induction false} MemberSplits(m: Member, tail: string, rest: string)
    ensures ShowQuoted(m.key, ":" + Show(m.value, tail + rest)) == ShowQuoted(m.key, ":" + Show(m.value, tail)) + rest
    decreases m.value, 2
  {
    ShowSplits(m.value, tail);
    ShowSplits(m.value, tail + rest);
    ShowQuotedSplits(m.key, ":" + Show(m.value, tail));
    ShowQuotedSplits(m.key, ":" + Show(m.value, tail + rest));
    var shown := Show(m.value, "");
    assert Quote(m.key) + (":" + (shown + (tail + rest))) == (Quote(m.key) + (":" + (shown + tail))) + rest;
  }

  lemma {:induction false} MembersSplit(members: seq<Member>, rest: string)
    ensures ShowMembers(members, rest) == ShowMembers(members, "") + rest
    decreases members, 0
  {
    if |members| == 1 {
      assert "" + rest == rest;
      MemberSplits(members[0], "", rest);
    } else if members != [] {
      var tail := "," + ShowMembers(members[1..], "");
      MembersSplit(members[1..], rest);
      assert "," + ShowMembers(members[1..], rest) == tail + rest;
      MemberSplits(members[0], tail, rest);
    }
  }

  function Texts(items: seq<Json>): seq<string> {
    seq(|items|, i requires 0 <= i < |items| => Show(items[i], ""))
  }

  function PartOf(m: Member): Part {
    Part(m.key, Show(m.value, ""))
  }

  function Parts(members: seq<Member>): seq<Part> {
    seq(|members|, i requires 0 <= i < |members| => PartOf(members[i]))
  }

  lemma {:induction false} JoinedTexts(items: seq<Json>)
    ensures JoinTexts(Texts(items)) == ShowItems(items, "")
  {
    if |items| > 1 {
      JoinedTexts(items[1..]);
      assert Texts(items)[1..] == Texts(items[1..]);
      ShowSplits(items[0], "," + ShowItems(items[1..], ""));
    }
  }

  lemma ShowMember(m: Member, tail: string)
    ensures ShowQuoted(m.key, ":" + Show(m.value, tail)) == Quote(m.key) + ":" + PartOf(m).text + tail
  {
    ShowSplits(m.value, tail);
    ShowQuotedSplits(m.key, ":" + Show(m.value, tail));
    var shown := PartOf(m).text;
    assert Quote(m.key) + (":" + (shown + tail)) == Quote(m.key) + ":" + shown + tail;
  }

  lemma {:induction false} JoinedParts(members: seq<Member>)
    ensures JoinParts(Parts(members)) == ShowMembers(members, "")
  {
    if members != [] {
      var m, parts := members[0], Parts(members);
      assert parts[0] == PartOf(m) && parts[1..] == Parts(members[1..]);
      JoinedParts(members[1..]);
      var tail := if |members| == 1 then "" else "," + ShowMembers(members[1..], "");
      ShowMember(m, tail);
    }
  }

  /** Members are ordered by key alone, so ordering them before or after printing is the same. */
  lemma {:induction false} InsertPart(members: seq<Member>, m: Member)
    ensures Insert(Parts(members), PartOf(m), PartKey) == Parts(Insert(members, m, KeyOf))
  {
    if members != [] {
      assert Parts(members)[1..] == Parts(members[1..]);
      InsertPart(members[1..], m);
    }
  }

  lemma {:induction false} SortParts(members: seq<Member>)
    ensures Sort(Parts(members), PartKey) == Parts(Sort(members, KeyOf))
  {
    if members != [] {
      var init, last := members[..|members| - 1], members[|members| - 1];
      assert Parts(members)[..|members| - 1] == Parts(init);
      SortParts(init);
      InsertPart(Sort(init, KeyOf), last);
    }
  }

  lemma {:induction false} PrintIsShow(v: Json)
    ensures Print(v) == Show(Ordered(v), "")
    decreases v, 1
  {
    match v
    case String(s) => ShowQuotedSplits(s, "");
    case Array(items) =>
      PrintAllIsTexts(items);
      JoinedTexts(OrderedAll(items));
      ItemsSplit(OrderedAll(items), "]" + "");
    case Object(members) =>
      PrintMembersIsParts(members);
      SortParts(OrderedMembers(members));
      var sorted := Sort(OrderedMembers(members), KeyOf);
      JoinedParts(sorted);
      MembersSplit(sorted, "}" + "");
    case _ =>
  }

  lemma {:induction false} PrintAllIsTexts(items: seq<Json>)
    ensures PrintAll(items) == Texts(OrderedAll(items))
    decreases items, 0
  {
    if items != [] {
      PrintIsShow(items[0]);
      PrintAllIsTexts(items[1..]);
    }
  }

  lemma {:induction false} PrintMembersIsParts(members: seq<Member>)
    ensures PrintMembers(members) == Parts(OrderedMembers(members))
    decreases members, 0
  {
    if members != [] {
      PrintIsShow(members[0].value);
      PrintMembersIsParts(members[1..]);
    }
  }

  // ---------------------------------------------------------------------------
  // The ordered representative stands for the value up to key order.

  lemma {:induction false} OrderedAllAt(items: seq<Json>)
    ensures |OrderedAll(items)| == |items|
    ensures forall i | 0 <= i < |items| :: OrderedAll(items)[i] == Ordered(items[i])
  {
    if items != [] {
      OrderedAllAt(items[1..]);
    }
  }

  lemma {:induction false} OrderedMembersAt(members: seq<Member>)
    ensures |OrderedMembers(members)| == |members|
    ensures forall i | 0 <= i < |members| ::
              OrderedMembers(members)[i] == Member(members[i].key, Ordered(members[i].value))
  {
    if members != [] {
      OrderedMembersAt(members[1..]);
    }
  }

  lemma OrderedMembersSort(members: seq<Member>)
    requires DistinctKeys(members, KeyOf)
    ensures var sorted := Sort(OrderedMembers(members), KeyOf);
            && |sorted| == |members| && Sorted(sorted, KeyOf)
            && forall m :: m in sorted <==> m in OrderedMembers(members)
  {
    OrderedMembersAt(members);
    SortSorts(OrderedMembers(members), KeyOf);
  }

  lemma {:induction false} OrderedIsValid(v: Json)
    requires WellFormed(v)
    ensures NumbersValid(Ordered(v))
  {
    match v
    case Array(items) =>
      OrderedAllAt(items);
      forall x | x in OrderedAll(items)
        ensures NumbersValid(x)
      {
        var i :| 0 <= i < |items| && OrderedAll(items)[i] == x;
        OrderedIsValid(items[i]);
      }
    case Object(members) =>
      OrderedMembersAt(members);
      OrderedMembersSort(members);
      forall m | m in Sort(OrderedMembers(members), KeyOf)
        ensures NumbersValid(m.value)
      {
        var i :| 0 <= i < |members| && OrderedMembers(members)[i] == m;
        OrderedIsValid(members[i].value);
      }
    case _ =>
  }

  lemma {:induction false} EqualRepresentativesAreSame(v: Json, w: Json)
    requires WellFormed(v) && WellFormed(w) && Ordered(v) == Ordered(w)
    ensures Same(v, w)
    decreases v
  {
    match v
    case Array(xs) =>
      OrderedAllAt(xs);
      OrderedAllAt(w.items);
      forall i | 0 <= i < |xs|
        ensures Same(xs[i], w.items[i])
      {
        EqualRepresentativesAreSame(xs[i], w.items[i]);
      }
    case Object(ms) =>
      OrderedMembersSort(ms);
      OrderedMembersSort(w.members);
      OrderedMembersAt(ms);
      OrderedMembersAt(w.members);
      forall m | m in ms
        ensures exists n <- w.members :: n.key == m.key && Same(m.value, n.value)
      {
        var i :| 0 <= i < |ms| && ms[i] == m;
        assert OrderedMembers(ms)[i] in OrderedMembers(w.members);
        var j :| 0 <= j < |w.members| && OrderedMembers(w.members)[j] == OrderedMembers(ms)[i];
        EqualRepresentativesAreSame(m.value, w.members[j].value);
        assert w.members[j] in w.members;
      }
    case _ =>
  }

  predicate Matches(m: Member, n: Member) {
    m.key == n.key && Ordered(m.value) == Ordered(n.value)
  }

  function KeySet(members: seq<Member>): set<string> {
    set m | m in members :: m.key
  }

  lemma LastKeyIsNew(members: seq<Member>)
    requires DistinctKeys(members, KeyOf) && members != []
    ensures var init, last := members[..|members| - 1], members[|members| - 1];
      last.key !in KeySet(init) && KeySet(members) == KeySet(init) + {last.key}
  {
  }

  lemma {:induction false} KeySetSize(members: seq<Member>)
    requires DistinctKeys(members, KeyOf)
    ensures |KeySet(members)| == |members|
  {
    if members != [] {
      KeySetSize(members[..|members| - 1]);
      LastKeyIsNew(members);
    }
  }

  lemma {:induction false} SubsetOfEqualSize<T>(a: set<T>, b: set<T>)
    requires a <= b && |a| == |b|
    ensures a == b
  {
    assert |b - a| == |b| - |a|;
  }

  lemma KeyIsDistinct(members: seq<Member>, m: Member, n: Member)
    requires DistinctKeys(members, KeyOf) && m in members && n in members && m.key == n.key
    ensures m == n
  {
  }

  lemma OrderedMember(members: seq<Member>, m: Member)
    requires m in members
    ensures Member(m.key, Ordered(m.value)) in OrderedMembers(members)
  {
  }

  lemma MemberOfOrdered(members: seq<Member>, y: Member) returns (m: Member)
    requires y in OrderedMembers(members)
    ensures m in members && y == Member(m.key, Ordered(m.value))
  {
    OrderedMembersAt(members);
    var i :| 0 <= i < |OrderedMembers(members)| && OrderedMembers(members)[i] == y;
    m := members[i];
  }

  /** Distinct keys and equal lengths make a one-way match a match both ways. */
  lemma MatchBack(ms: seq<Member>, ns: seq<Member>, n: Member) returns (m: Member)
    requires DistinctKeys(ms, KeyOf) && DistinctKeys(ns, KeyOf) && |ms| == |ns| && n in ns
    requires forall m | m in ms :: exists n :: n in ns && Matches(m, n)
    ensures m in ms && Matches(m, n)
  {
    KeySetSize(ms);
    KeySetSize(ns);
    forall k | k in KeySet(ms)
      ensures k in KeySet(ns)
    {
      var m :| m in ms && m.key == k;
      var n :| n in ns && Matches(m, n);
    }
    SubsetOfEqualSize(KeySet(ms), KeySet(ns));
    assert n.key in KeySet(ms);
    m :| m in ms && m.key == n.key;
    var n' :| n' in ns && Matches(m, n');
    KeyIsDistinct(ns, n, n');
  }

  lemma MatchesCoverBoth(ms: seq<Member>, ns: seq<Member>)
    requires DistinctKeys(ms, KeyOf) && DistinctKeys(ns, KeyOf) && |ms| == |ns|
    requires forall m | m in ms :: exists n :: n in ns && Matches(m, n)
    ensures forall y :: y in OrderedMembers(ms) <==> y in OrderedMembers(ns)
  {
    forall y | y in OrderedMembers(ms)
      ensures y in OrderedMembers(ns)
    {
      var m := MemberOfOrdered(ms, y);
      var n :| n in ns && Matches(m, n);
      OrderedMember(ns, n);
    }
    forall y | y in OrderedMembers(ns)
      ensures y in OrderedMembers(ms)
    {
      var n := MemberOfOrdered(ns, y);
      var m := MatchBack(ms, ns, n);
      OrderedMember(ms, m);
    }
  }

  lemma {:induction false} SameHaveEqualRepresentatives(v: Json, w: Json)
    requires WellFormed(v) && WellFormed(w) && Same(v, w)
    ensures Ordered(v) == Ordered(w)
    decreases v
  {
    match v
    case Array(xs) =>
      OrderedAllAt(xs);
      OrderedAllAt(w.items);
      forall i | 0 <= i < |xs|
        ensures Ordered(xs[i]) == Ordered(w.items[i])
      {
        SameHaveEqualRepresentatives(xs[i], w.items[i]);
      }
      assert OrderedAll(xs) == OrderedAll(w.items);
    case Object(ms) =>
      forall m | m in ms
        ensures exists n :: n in w.members && Matches(m, n)
      {
        var n :| n in w.members && n.key == m.key && Same(m.value, n.value);
        SameHaveEqualRepresentatives(m.value, n.value);
        assert Matches(m, n);
      }
      MatchesCoverBoth(ms, w.members);
      OrderedMembersSort(ms);
      OrderedMembersSort(w.members);
      SortedUnique(Sort(OrderedMembers(ms), KeyOf), Sort(OrderedMembers(w.members), KeyOf), KeyOf);
    case _ =>
  }

  // ---------------------------------------------------------------------------
  // The main result.

  /** Two values print to the same text exactly when they are equal up to the order of object keys. */
  lemma PrintsEqualIffSame(v: Json, w: Json)
    requires WellFormed(v) && WellFormed(w)
    ensures Print(v) == Print(w) <==> Same(v, w)
  {
    PrintIsShow(v);
    PrintIsShow(w);
    if Print(v) == Print(w) {
      OrderedIsValid(v);
      OrderedIsValid(w);
      ShowDecodes(Ordered(v), Ordered(w), "", "");
      EqualRepresentativesAreSame(v, w);
    }
    if Same(v, w) {
      SameHaveEqualRepresentatives(v, w);
    }
  }
}
