/** What the comparison of two responses ignores, and that it ignores nothing else. */
module StripProofs {
  import opened Prelude
  import opened Text
  import opened Canonical
  import opened CanonicalProofs

  // ---------------------------------------------------------------------------
  // Objects are their lookups.

  predicate SameField(a: Option<Json>, b: Option<Json>) {
    match (a, b)
    case (Some(x), Some(y)) => Same(x, y)
    case _ => a == b
  }

  lemma {:induction false} LookupFinds(members: seq<Member>, key: string)
    requires DistinctKeys(members, KeyOf)
    ensures forall m | m in members && m.key == key :: Lookup(members, key) == Some(m.value)
    ensures Lookup(members, key).Some? ==> Member(key, Lookup(members, key).value) in members
  {
    if members != [] {
      assert DistinctKeys(members[1..], KeyOf) by {
        forall i, j | 0 <= i < j < |members[1..]|
          ensures KeyOf(members[1..][i]) != KeyOf(members[1..][j])
        {
          assert KeyOf(members[i + 1]) != KeyOf(members[j + 1]);
        }
      }
      LookupFinds(members[1..], key);
      forall m | m in members && m.key == key
        ensures Lookup(members, key) == Some(m.value)
      {
        if members[0].key == key { KeyIsDistinct(members, m, members[0]); }
      }
    }
  }

  lemma SameIsSymmetric(v: Json, w: Json)
    requires WellFormed(v) && WellFormed(w)
    ensures Same(v, w) == Same(w, v)
  {
    PrintsEqualIffSame(v, w);
    PrintsEqualIffSame(w, v);
  }

  lemma SameFieldsOneWay(ms: seq<Member>, ns: seq<Member>, key: string)
    requires WellFormed(Object(ms)) && WellFormed(Object(ns)) && Same(Object(ms), Object(ns))
    ensures Lookup(ms, key).Some? ==> SameField(Lookup(ms, key), Lookup(ns, key))
  {
    LookupFinds(ms, key);
    LookupFinds(ns, key);
  }

  lemma FieldsMakeSameSize(ms: seq<Member>, ns: seq<Member>)
    requires WellFormed(Object(ms)) && WellFormed(Object(ns))
    requires forall key :: Lookup(ms, key).Some? <==> Lookup(ns, key).Some?
    ensures |ms| == |ns|
  {
    forall k
      ensures k in KeySet(ms) <==> k in KeySet(ns)
    {
      LookupFinds(ms, k);
      LookupFinds(ns, k);
      assert Lookup(ms, k).Some? <==> Lookup(ns, k).Some?;
    }
    assert KeySet(ms) == KeySet(ns);
    KeySetSize(ms);
    KeySetSize(ns);
  }

  ghost predicate SameFields(ms: seq<Member>, ns: seq<Member>) {
    forall key :: SameField(Lookup(ms, key), Lookup(ns, key))
  }

  lemma SameMakesFields(ms: seq<Member>, ns: seq<Member>)
    requires WellFormed(Object(ms)) && WellFormed(Object(ns)) && Same(Object(ms), Object(ns))
    ensures SameFields(ms, ns)
  {
    SameIsSymmetric(Object(ms), Object(ns));
    forall key
      ensures SameField(Lookup(ms, key), Lookup(ns, key))
    {
      SameFieldsOneWay(ms, ns, key);
      SameFieldsOneWay(ns, ms, key);
    }
  }

  lemma FieldsMakeSame(ms: seq<Member>, ns: seq<Member>)
    requires WellFormed(Object(ms)) && WellFormed(Object(ns)) && SameFields(ms, ns)
    ensures Same(Object(ms), Object(ns))
  {
    forall key
      ensures Lookup(ms, key).Some? <==> Lookup(ns, key).Some?
    {
      assert SameField(Lookup(ms, key), Lookup(ns, key));
    }
    FieldsMakeSameSize(ms, ns);
    forall m | m in ms
      ensures exists n <- ns :: n.key == m.key && Same(m.value, n.value)
    {
      LookupFinds(ms, m.key);
      LookupFinds(ns, m.key);
      assert SameField(Lookup(ms, m.key), Lookup(ns, m.key));
      assert Member(m.key, Lookup(ns, m.key).value) in ns;
    }
  }

  /** Two objects are the same exactly when they have the same value, or none, under every key. */
  lemma SameIffFields(ms: seq<Member>, ns: seq<Member>)
    requires WellFormed(Object(ms)) && WellFormed(Object(ns))
    ensures Same(Object(ms), Object(ns)) <==> SameFields(ms, ns)
  {
    if Same(Object(ms), Object(ns)) { SameMakesFields(ms, ns); }
    if SameFields(ms, ns) { FieldsMakeSame(ms, ns); }
  }

  // ---------------------------------------------------------------------------
  // What stripping leaves.

  lemma {:induction false} RemoveLooksUp(members: seq<Member>, gone: string, key: string)
    ensures Lookup(Remove(members, gone), key) == if key == gone then None else Lookup(members, key)
  {
    if members != [] {
      RemoveLooksUp(members[1..], gone, key);
      var rest := Remove(members[1..], gone);
      assert ([members[0]] + rest)[1..] == rest;
      assert Remove(members, gone) == if members[0].key == gone then rest else [members[0]] + rest;
    }
  }

  lemma {:induction false} RemoveKeeps(members: seq<Member>, gone: string)
    requires WellFormed(Object(members))
    ensures forall m | m in Remove(members, gone) :: m in members
    ensures WellFormed(Object(Remove(members, gone)))
  {
    if members != [] {
      TailWellFormed(members);
      RemoveKeeps(members[1..], gone);
      var rest := Remove(members[1..], gone);
      if members[0].key != gone {
        PrependWellFormed(members[0], rest, members);
      }
    }
  }

  lemma TailWellFormed(members: seq<Member>)
    requires WellFormed(Object(members)) && members != []
    ensures WellFormed(Object(members[1..])) && forall m | m in members[1..] :: m.key != members[0].key
  {
  }

  lemma PrependWellFormed(first: Member, rest: seq<Member>, members: seq<Member>)
    requires WellFormed(Object(rest)) && WellFormed(first.value)
    requires forall m | m in rest :: m.key != first.key
    ensures WellFormed(Object([first] + rest))
  {
  }

  function WithoutMeta(v: Json): Json {
    if v.Object? then Object(Remove(v.members, "_meta")) else v
  }

  lemma {:induction false} StripMetaLooksUp(members: seq<Member>, key: string)
    ensures Lookup(StripMeta(members), key)
         == if key == "data" && Lookup(members, key).Some? then Some(WithoutMeta(Lookup(members, key).value))
            else Lookup(members, key)
  {
    if members != [] {
      StripMetaLooksUp(members[1..], key);
      var rest := StripMeta(members[1..]);
      var first := StripMeta(members)[0];
      assert StripMeta(members) == [first] + rest && StripMeta(members)[1..] == rest;
    }
  }

  lemma {:induction false} StripMetaKeeps(members: seq<Member>)
    requires WellFormed(Object(members))
    ensures WellFormed(Object(StripMeta(members)))
    ensures forall m | m in StripMeta(members) :: exists n :: n in members && n.key == m.key
  {
    if members != [] {
      TailWellFormed(members);
      StripMetaKeeps(members[1..]);
      var rest, first := StripMeta(members[1..]), StripMeta(members)[0];
      assert members[0] in members;
      if members[0].value.Object? { RemoveKeeps(members[0].value.members, "_meta"); }
      PrependWellFormed(first, rest, members);
      assert StripMeta(members) == [first] + rest;
    }
  }

  lemma StripKeepsWellFormed(v: Json)
    requires WellFormed(v)
    ensures WellFormed(StripVolatile(v))
  {
    if v.Object? {
      RemoveKeeps(v.members, "extensions");
      RemoveKeeps(Remove(v.members, "extensions"), "headers");
      StripMetaKeeps(Remove(Remove(v.members, "extensions"), "headers"));
    }
  }

  lemma StripLooksUp(members: seq<Member>, key: string)
    ensures Lookup(StripVolatile(Object(members)).members, key)
         == if key == "extensions" || key == "headers" then None
            else if key == "data" && Lookup(members, key).Some? then Some(WithoutMeta(Lookup(members, key).value))
            else Lookup(members, key)
  {
    var once := Remove(members, "extensions");
    StripMetaLooksUp(Remove(once, "headers"), key);
    RemoveLooksUp(once, "headers", key);
    RemoveLooksUp(members, "extensions", key);
  }

  // ---------------------------------------------------------------------------
  // The main result.

  ghost predicate SameFieldsBut(ms: seq<Member>, ns: seq<Member>, gone: string) {
    forall key | key != gone :: SameField(Lookup(ms, key), Lookup(ns, key))
  }

  /** Two `data` values agree on everything but the block they were read at. */
  ghost predicate SameData(a: Option<Json>, b: Option<Json>) {
    if a.Some? && b.Some? && a.value.Object? && b.value.Object? then
      SameFieldsBut(a.value.members, b.value.members, "_meta")
    else SameField(a, b)
  }

  ghost predicate SameAt(vs: seq<Member>, ws: seq<Member>, key: string) {
    if key == "extensions" || key == "headers" then true
    else if key == "data" then SameData(Lookup(vs, key), Lookup(ws, key))
    else SameField(Lookup(vs, key), Lookup(ws, key))
  }

  /** Two responses agree on everything that is not volatile. */
  ghost predicate SameAnswer(v: Json, w: Json) {
    if v.Object? && w.Object? then forall key :: SameAt(v.members, w.members, key)
    else Same(v, w)
  }

  lemma RemoveSameFields(ms: seq<Member>, ns: seq<Member>, gone: string)
    ensures SameFields(Remove(ms, gone), Remove(ns, gone)) <==> SameFieldsBut(ms, ns, gone)
  {
    forall key
      ensures SameField(Lookup(Remove(ms, gone), key), Lookup(Remove(ns, gone), key))
         <==> (key == gone || SameField(Lookup(ms, key), Lookup(ns, key)))
    {
      RemoveLooksUp(ms, gone, key);
      RemoveLooksUp(ns, gone, key);
    }
  }

  lemma WithoutMetaSame(a: Json, b: Json)
    requires WellFormed(a) && WellFormed(b)
    ensures Same(WithoutMeta(a), WithoutMeta(b)) <==> SameData(Some(a), Some(b))
  {
    if a.Object? && b.Object? {
      RemoveKeeps(a.members, "_meta");
      RemoveKeeps(b.members, "_meta");
      SameIffFields(Remove(a.members, "_meta"), Remove(b.members, "_meta"));
      RemoveSameFields(a.members, b.members, "_meta");
    }
  }

  lemma FieldAfterStripping(vs: seq<Member>, ws: seq<Member>, key: string)
    requires WellFormed(Object(vs)) && WellFormed(Object(ws))
    ensures SameField(Lookup(StripVolatile(Object(vs)).members, key), Lookup(StripVolatile(Object(ws)).members, key))
       <==> SameAt(vs, ws, key)
  {
    StripLooksUp(vs, key);
    StripLooksUp(ws, key);
    LookupFinds(vs, key);
    LookupFinds(ws, key);
    if key == "data" && Lookup(vs, key).Some? && Lookup(ws, key).Some? {
      WithoutMetaSame(Lookup(vs, key).value, Lookup(ws, key).value);
    }
  }

  lemma StrippedSameIffSameFields(vs: seq<Member>, ws: seq<Member>)
    requires WellFormed(Object(vs)) && WellFormed(Object(ws))
    ensures SameFields(StripVolatile(Object(vs)).members, StripVolatile(Object(ws)).members)
       <==> SameAnswer(Object(vs), Object(ws))
  {
    forall key
      ensures SameField(Lookup(StripVolatile(Object(vs)).members, key), Lookup(StripVolatile(Object(ws)).members, key))
         <==> SameAt(vs, ws, key)
    {
      FieldAfterStripping(vs, ws, key);
    }
  }

  /** Two responses hash alike, short of a hash collision, exactly when they agree on everything that is
      not volatile, whatever order their keys come in. */
  lemma StrippedPrintsEqualIffSameAnswer(v: Json, w: Json)
    requires WellFormed(v) && WellFormed(w)
    ensures Print(StripVolatile(v)) == Print(StripVolatile(w)) <==> SameAnswer(v, w)
  {
    StripKeepsWellFormed(v);
    StripKeepsWellFormed(w);
    PrintsEqualIffSame(StripVolatile(v), StripVolatile(w));
    if v.Object? && w.Object? {
      SameIffFields(StripVolatile(v).members, StripVolatile(w).members);
      StrippedSameIffSameFields(v.members, w.members);
    }
  }
}
