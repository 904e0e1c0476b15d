/** Small vocabulary shared by the whole model: optional values, SQL's three-valued
    comparisons, and sums over finite sets (the meaning of SQL's SUM over a group). */
module Prelude {

  datatype Option<+T> = None | Some(value: T) {
    function GetOr(default: T): T {
      if Some? then value else default
    }
  }

  function Max(a: int, b: int): int {
    if a < b then b else a
  }

  function RealMax(a: real, b: real): real {
    if a < b then b else a
  }

  function RealAbs(x: real): real {
    if x < 0.0 then -x else x
  }

  // ---------------------------------------------------------------------------
  // SQL truth values: None is NULL.

  type Truth = Option<bool>

  function NotEqual<T(==)>(a: Option<T>, b: Option<T>): Truth {
    if a.Some? && b.Some? then Some(a.value != b.value) else None
  }

  function Greater(a: Option<int>, b: Option<int>): Truth {
    if a.Some? && b.Some? then Some(a.value > b.value) else None
  }

  function And(a: Truth, b: Truth): Truth {
    if a == Some(false) || b == Some(false) then Some(false)
    else if a == Some(true) && b == Some(true) then Some(true)
    else None
  }

  function Coalesce(a: Truth, default: bool): bool {
    a.GetOr(default)
  }

  // ---------------------------------------------------------------------------
  // Sums over finite sets.

  ghost function Sum<T(!new)>(s: set<T>, f: T -> int): int {
    if s == {} then 0 else var x :| x in s; f(x) + Sum(s - {x}, f)
  }

  ghost function RealSum<T(!new)>(s: set<T>, f: T -> real): real {
    if s == {} then 0.0 else var x :| x in s; f(x) + RealSum(s - {x}, f)
  }

  lemma {:induction false} SumTake<T(!new)>(s: set<T>, f: T -> int, x: T)
    requires x in s
    ensures Sum(s, f) == f(x) + Sum(s - {x}, f)
    decreases s
  {
    var y :| y in s && Sum(s, f) == f(y) + Sum(s - {y}, f);
    if y != x {
      SumTake(s - {y}, f, x);
      SumTake(s - {x}, f, y);
      assert s - {y} - {x} == s - {x} - {y};
    }
  }

  lemma {:induction false} RealSumTake<T(!new)>(s: set<T>, f: T -> real, x: T)
    requires x in s
    ensures RealSum(s, f) == f(x) + RealSum(s - {x}, f)
    decreases s
  {
    var y :| y in s && RealSum(s, f) == f(y) + RealSum(s - {y}, f);
    if y != x {
      RealSumTake(s - {y}, f, x);
      RealSumTake(s - {x}, f, y);
      assert s - {y} - {x} == s - {x} - {y};
    }
  }

  lemma {:induction false} SumSame<T(!new)>(s: set<T>, f: T -> int, g: T -> int)
    requires forall x :: x in s ==> f(x) == g(x)
    ensures Sum(s, f) == Sum(s, g)
    decreases s
  {
    if s != {} {
      var x :| x in s;
      SumTake(s, f, x);
      SumTake(s, g, x);
      SumSame(s - {x}, f, g);
    }
  }

  lemma {:induction false} SumZero<T(!new)>(s: set<T>, f: T -> int)
    requires forall x :: x in s ==> f(x) == 0
    ensures Sum(s, f) == 0
    decreases s
  {
    if s != {} {
      var x :| x in s;
      SumTake(s, f, x);
      SumZero(s - {x}, f);
    }
  }

  /** Summing integers as reals is the integer sum as a real. */
  lemma {:induction false} SumAsReal<T(!new)>(s: set<T>, f: T -> int, g: T -> real)
    requires forall x :: x in s ==> g(x) == f(x) as real
    ensures RealSum(s, g) == Sum(s, f) as real
    decreases s
  {
    if s != {} {
      var x :| x in s;
      SumTake(s, f, x);
      RealSumTake(s, g, x);
      SumAsReal(s - {x}, f, g);
    }
  }

  // ---------------------------------------------------------------------------
  // Sums and counts over the rows of a table, in insertion order.

  function SeqSum<T>(s: seq<T>, f: T -> int): int {
    if s == [] then 0 else SeqSum(s[..|s| - 1], f) + f(s[|s| - 1])
  }

  lemma SeqSumSnoc<T>(s: seq<T>, x: T, f: T -> int)
    ensures SeqSum(s + [x], f) == SeqSum(s, f) + f(x)
  {
  }

  /** The rows of one group, and the sum of `f` over them. */
  function Group<T, B(==)>(s: seq<T>, group: T -> B, b: B): seq<T> {
    if s == [] then []
    else Group(s[..|s| - 1], group, b) + (if group(s[|s| - 1]) == b then [s[|s| - 1]] else [])
  }

  // ---------------------------------------------------------------------------
  // Least and greatest of a set: SQL's MIN and MAX.

  ghost function Pick<T>(s: set<T>): (x: T)
    requires s != {}
    ensures x in s
  {
    var x :| x in s;
    x
  }

  lemma {:induction false} LeastExists(s: set<int>)
    requires s != {}
    ensures exists m :: m in s && forall x | x in s :: m <= x
    decreases s
  {
    var y := Pick(s);
    if s != {y} {
      LeastExists(s - {y});
      assert forall x | x in s :: x == y || x in s - {y};
      var m: int :| m in s - {y} && forall x | x in s - {y} :: m <= x;
      var lo := if y < m then y else m;
      assert lo in s && forall x | x in s :: lo <= x;
    }
  }

  lemma {:induction false} LastExists(s: set<int>)
    requires s != {}
    ensures exists m :: m in s && forall x | x in s :: x <= m
    decreases s
  {
    var y := Pick(s);
    if s != {y} {
      LastExists(s - {y});
      assert forall x | x in s :: x == y || x in s - {y};
      var m: int :| m in s - {y} && forall x | x in s - {y} :: x <= m;
      var hi := if y > m then y else m;
      assert hi in s && forall x | x in s :: x <= hi;
    }
  }

  function Least(s: set<int>): (m: int)
    requires s != {}
    ensures m in s && forall x | x in s :: m <= x
  {
    LeastExists(s);
    var m: int :| m in s && forall x | x in s :: m <= x;
    m
  }

  function Last(s: set<int>): (m: int)
    requires s != {}
    ensures m in s && forall x | x in s :: x <= m
  {
    LastExists(s);
    var m: int :| m in s && forall x | x in s :: x <= m;
    m
  }
}
