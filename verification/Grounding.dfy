/**
 The numeric grounding check: which figures a set of tool results supports,
 and which figures of an answer they do not. Decimals are exact reals.
 */
module Grounding {
  import opened Figures

  /** A tool result, as JSON-like data. */
  datatype Payload =
    | Dict(fields: seq<Field>)
    | List(items: seq<Payload>)
    | Bool(flag: bool)
    | Num(n: real)
    | Str(text: string)
    | Null

  datatype Field = Field(key: string, value: Payload)

  // ---------------------------------------------------------------- figures of a payload

  /** Every number in it, every number inside its strings, and the length of every list. */
  function FiguresOf(p: Payload): (r: set<real>)
    decreases p
  {
    match p
    case Dict(fields) => FieldFigures(fields)
    case List(items) => {|items| as real} + AllFigures(items)
    case Bool(_) => {}
    case Num(n) => {n}
    case Str(text) => Numbers(text)
    case Null => {}
  }

  function FieldFigures(fields: seq<Field>): (r: set<real>)
    decreases fields
  {
    if fields == [] then {} else FiguresOf(fields[0].value) + FieldFigures(fields[1..])
  }

  function AllFigures(items: seq<Payload>): (r: set<real>)
    decreases items
  {
    if items == [] then {} else FiguresOf(items[0]) + AllFigures(items[1..])
  }

  lemma {:induction false} AllFiguresMember(items: seq<Payload>, x: real)
    ensures x in AllFigures(items) <==> exists p :: p in items && x in FiguresOf(p)
  {
    if items != [] {
      AllFiguresMember(items[1..], x);
      if x in FiguresOf(items[0]) {
        assert items[0] in items;
      }
      assert forall p :: p in items <==> p == items[0] || p in items[1..];
    }
  }

  // ---------------------------------------------------------------- what a figure is

  /** The payload and everything nested in it. */
  function Parts(p: Payload): (r: set<Payload>)
    decreases p
  {
    match p
    case Dict(fields) => {p} + FieldParts(fields)
    case List(items) => {p} + AllParts(items)
    case _ => {p}
  }

  function FieldParts(fields: seq<Field>): (r: set<Payload>)
    decreases fields
  {
    if fields == [] then {} else Parts(fields[0].value) + FieldParts(fields[1..])
  }

  function AllParts(items: seq<Payload>): (r: set<Payload>)
    decreases items
  {
    if items == [] then {} else Parts(items[0]) + AllParts(items[1..])
  }

  /** What one part shows by itself: a number, the length of a list, or a number inside a text. */
  predicate Shows(p: Payload, x: real) {
    match p
    case Num(n) => x == n
    case List(items) => x == |items| as real
    case Str(text) => x in Numbers(text)
    case _ => false
  }

  /** A figure of the results is a number, a list length or a number in a text, somewhere in them. */
  lemma {:induction false} FiguresAreShown(p: Payload, x: real)
    ensures x in FiguresOf(p) <==> exists q :: q in Parts(p) && Shows(q, x)
    decreases p
  {
    match p
    case Dict(fields) =>
      FieldsAreShown(fields, x);
      assert forall q :: q in Parts(p) <==> q == p || q in FieldParts(fields);
      assert !Shows(p, x);
    case List(items) =>
      ItemsAreShown(items, x);
      assert forall q :: q in Parts(p) <==> q == p || q in AllParts(items);
      assert Shows(p, x) <==> x == |items| as real;
    case _ =>
      assert forall q :: q in Parts(p) <==> q == p;
      assert x in FiguresOf(p) <==> Shows(p, x);
  }

  lemma {:induction false} FieldsAreShown(fields: seq<Field>, x: real)
    ensures x in FieldFigures(fields) <==> exists q :: q in FieldParts(fields) && Shows(q, x)
    decreases fields
  {
    if fields != [] {
      FiguresAreShown(fields[0].value, x);
      FieldsAreShown(fields[1..], x);
    }
  }

  lemma {:induction false} ItemsAreShown(items: seq<Payload>, x: real)
    ensures x in AllFigures(items) <==> exists q :: q in AllParts(items) && Shows(q, x)
    decreases items
  {
    if items != [] {
      FiguresAreShown(items[0], x);
      ItemsAreShown(items[1..], x);
    }
  }

  /** The set the flattening grows in place. */
  class Collector {
    var into: set<real>

    constructor ()
      ensures into == {}
    {
      into := {};
    }

    method Flatten(p: Payload)
      modifies this
      ensures into == old(into) + FiguresOf(p)
      decreases p
    {
      match p
      case Dict(fields) =>
        var i := 0;
        while i < |fields|
          invariant i <= |fields|
          invariant into + FieldFigures(fields[i..]) == old(into) + FieldFigures(fields)
        {
          assert fields[i..][0] == fields[i] && fields[i..][1..] == fields[i + 1..];
          Flatten(fields[i].value);
          i := i + 1;
        }
      case List(items) =>
        into := into + {|items| as real};
        var i := 0;
        while i < |items|
          invariant i <= |items|
          invariant into + AllFigures(items[i..]) == old(into) + FiguresOf(p)
        {
          assert items[i..][0] == items[i] && items[i..][1..] == items[i + 1..];
          Flatten(items[i]);
          i := i + 1;
        }
      case Bool(_) =>
      case Num(n) => into := into + {n};
      case Str(text) =>
        var found := NumbersIn(text);
        into := into + found;
      case Null =>
    }
  }

  // ---------------------------------------------------------------- derivations

  /** Rounded to an integer, ties to even. */
  function HalfEven(x: real): (r: int) {
    var f := x.Floor;
    var r := x - f as real;
    if r < 0.5 then f else if r > 0.5 then f + 1 else if f % 2 == 0 then f else f + 1
  }

  /** `a` as a percentage of `b`, to one decimal place. */
  function Percent(a: real, b: real): (r: real)
    requires b != 0.0
  {
    HalfEven(a / b * 1000.0) as real / 10.0
  }

  /** The nearest integer, and of two equally near ones the even one. */
  lemma HalfEvenNearest(x: real, n: int)
    ensures -0.5 < n as real - x < 0.5 ==> HalfEven(x) == n
    ensures x - n as real == 0.5 ==> HalfEven(x) == if n % 2 == 0 then n else n + 1
  {
    var f := x.Floor;
    assert f as real <= x < f as real + 1.0;
    if -0.5 < n as real - x < 0.5 {
      assert f as real - 0.5 < n as real < f as real + 1.5;
    }
  }

  /** The one-decimal percentage is within half a tenth of the exact one, and is a whole number of tenths. */
  lemma PercentNear(a: real, b: real)
    requires b != 0.0
    ensures -0.05 <= Percent(a, b) - a / b * 100.0 <= 0.05
    ensures Percent(a, b) * 10.0 == HalfEven(a / b * 1000.0) as real
  {
    var q := a / b;
    assert q * 1000.0 == q * 100.0 * 10.0;
  }

  /** Derived from the ordered pair a, b. */
  predicate FromPair(a: real, b: real, x: real) {
    x == a + b || x == a - b || x == b - a || (b != 0.0 && x == Percent(a, b))
  }

  predicate Derivable(base: set<real>, x: real) {
    x in base || exists a, b | a in base && b in base :: a <= b && FromPair(a, b, x)
  }

  predicate Ascending(s: seq<real>) {
    forall i, j :: 0 <= i < j < |s| ==> s[i] < s[j]
  }

  lemma Inhabited(s: set<real>)
    ensures s == {} || exists z :: z in s
  {
    if forall z :: z !in s {
      assert s == {};
    }
  }

  lemma {:induction false} Least(s: set<real>) returns (x: real)
    requires s != {}
    ensures x in s && forall y :: y in s ==> x <= y
  {
    Inhabited(s);
    x :| x in s;
    var t := s - {x};
    assert forall y :: y in s <==> y == x || y in t;
    if t != {} {
      var m := Least(t);
      if m < x {
        x := m;
      }
    }
  }

  method Sorted(s: set<real>) returns (r: seq<real>)
    ensures Ascending(r)
    ensures forall x :: x in r <==> x in s
  {
    r := [];
    var rest := s;
    while rest != {}
      invariant Ascending(r)
      invariant forall x :: x in s <==> x in r || x in rest
      invariant forall x, y :: x in r && y in rest ==> x < y
      decreases |rest|
    {
      ghost var least := Least(rest);
      var x :| x in rest && forall y :: y in rest ==> x <= y;
      assert forall i :: 0 <= i < |r| ==> r[i] in r;
      r := r + [x];
      rest := rest - {x};
    }
  }

  /** The pairs of an ascending list up to row `i`, column `j`. */
  ghost predicate Visited(v: seq<real>, i: nat, j: nat, x: real) {
    exists m, n | 0 <= m <= n < |v| :: (m < i || (m == i && n < j)) && FromPair(v[m], v[n], x)
  }

  /** Every figure the results hold. */
  method Base(results: seq<Payload>) returns (base: set<real>)
    ensures base == AllFigures(results)
  {
    var c := new Collector();
    var k := 0;
    while k < |results|
      invariant k <= |results|
      invariant c.into + AllFigures(results[k..]) == AllFigures(results)
    {
      assert results[k..][0] == results[k] && results[k..][1..] == results[k + 1..];
      c.Flatten(results[k]);
      k := k + 1;
    }
    base := c.into;
  }

  /** The figures themselves, pairwise sums and differences, and percentages of the smaller over the larger. */
  method GroundedNumbers(results: seq<Payload>) returns (derived: set<real>)
    ensures forall x :: x in derived <==> Derivable(AllFigures(results), x)
  {
    var base := Base(results);
    derived := base;
    var v := Sorted(base);
    var i := 0;
    while i < |v|
      invariant i <= |v|
      invariant forall x :: x in derived <==> x in base || Visited(v, i, i, x)
    {
      var j := i;
      while j < |v|
        invariant i <= j <= |v|
        invariant forall x :: x in derived <==> x in base || Visited(v, i, j, x)
      {
        var pair := PairFigures(v[i], v[j]);
        derived := derived + pair;
        VisitedStep(v, i, j);
        j := j + 1;
      }
      VisitedRow(v, i);
      i := i + 1;
    }
    VisitedAll(v, base);
  }

  method PairFigures(a: real, b: real) returns (r: set<real>)
    ensures forall x :: x in r <==> FromPair(a, b, x)
  {
    r := {a + b, a - b, b - a};
    if b != 0.0 {
      r := r + {Percent(a, b)};
    }
  }

  lemma VisitedStep(v: seq<real>, i: nat, j: nat)
    requires i <= j < |v|
    ensures forall x :: Visited(v, i, j + 1, x) <==> Visited(v, i, j, x) || FromPair(v[i], v[j], x)
  {
  }

  lemma VisitedRow(v: seq<real>, i: nat)
    requires i < |v|
    ensures forall x :: Visited(v, i, |v|, x) <==> Visited(v, i + 1, i + 1, x)
  {
  }

  lemma VisitedAll(v: seq<real>, base: set<real>)
    requires Ascending(v) && forall x :: x in v <==> x in base
    ensures forall x :: Derivable(base, x) <==> x in base || Visited(v, |v|, |v|, x)
  {
    forall x | Derivable(base, x) && x !in base ensures Visited(v, |v|, |v|, x) {
      var a, b :| a in base && b in base && a <= b && FromPair(a, b, x);
      var m :| 0 <= m < |v| && v[m] == a;
      var n :| 0 <= n < |v| && v[n] == b;
      assert m <= n;
    }
  }

  /** The figures the results cannot support, in ascending order. */
  method Ungrounded(answer: string, results: seq<Payload>) returns (offenders: seq<real>)
    ensures Ascending(offenders)
    ensures forall x :: x in offenders <==> x in Numbers(answer) && !Derivable(AllFigures(results), x)
  {
    var allowed := GroundedNumbers(results);
    var stated := NumbersIn(answer);
    var bad: set<real> := {};
    var rest := stated;
    while rest != {}
      invariant rest <= stated
      invariant forall x :: x in bad <==> x in stated && x !in rest && x !in allowed
      decreases |rest|
    {
      var x :| x in rest;
      if x !in allowed {
        bad := bad + {x};
      }
      rest := rest - {x};
    }
    offenders := Sorted(bad);
  }

  // ---------------------------------------------------------------- the allowed set

  /** More figures support more. */
  lemma DerivableMonotone(small: set<real>, large: set<real>, x: real)
    requires small <= large && Derivable(small, x)
    ensures Derivable(large, x)
  {
  }

  /** Only which results there are matters: not their order, nor repeats; and more results never allow less. */
  lemma MoreResultsAllowMore(few: seq<Payload>, many: seq<Payload>, x: real)
    requires forall p :: p in few ==> p in many
    requires Derivable(AllFigures(few), x)
    ensures Derivable(AllFigures(many), x)
  {
    forall y | y in AllFigures(few) ensures y in AllFigures(many) {
      AllFiguresMember(few, y);
      AllFiguresMember(many, y);
    }
    DerivableMonotone(AllFigures(few), AllFigures(many), x);
  }

  lemma OrderIrrelevant(one: seq<Payload>, other: seq<Payload>, x: real)
    requires forall p :: p in one <==> p in other
    ensures Derivable(AllFigures(one), x) <==> Derivable(AllFigures(other), x)
  {
    if Derivable(AllFigures(one), x) {
      MoreResultsAllowMore(one, other, x);
    }
    if Derivable(AllFigures(other), x) {
      MoreResultsAllowMore(other, one, x);
    }
  }

  /** Without figures nothing is allowed. */
  lemma NothingFromNothing(x: real)
    ensures !Derivable({}, x)
  {
  }

  // ---------------------------------------------------------------- which percentages are allowed

  lemma PercentAtMostHundred(a: real, b: real)
    requires 0.0 < a <= b
    ensures Percent(a, b) <= 100.0
  {
    var q := a / b;
    assert q * b == a;
    assert q > 1.0 ==> (q - 1.0) * b > 0.0;
    assert q * 1000.0 <= 1000.0;
  }

  lemma PercentAtLeastHundred(a: real, b: real)
    requires 0.0 < b <= a
    ensures Percent(a, b) >= 100.0
  {
    var q := a / b;
    assert q * b == a;
    assert q < 1.0 ==> (1.0 - q) * b > 0.0;
    assert q * 1000.0 >= 1000.0;
  }

  /** Among positive figures nothing above one hundred is allowed as a percentage, only as a figure, sum or difference. */
  lemma AboveHundredIff(base: set<real>, x: real)
    requires (forall y :: y in base ==> y > 0.0) && x > 100.0
    ensures Derivable(base, x) <==> x in base || exists a, b | a in base && b in base :: x == a + b || x == a - b
  {
    if Derivable(base, x) && x !in base {
      var a, b :| a in base && b in base && a <= b && FromPair(a, b, x);
      PercentAtMostHundred(a, b);
      assert x == a + b || x == b - a;
    }
    if a, b :| a in base && b in base && (x == a + b || x == a - b) {
      assert FromPair(a, b, x) && FromPair(b, a, x);
    }
  }

  /**
   Percentages are taken in the signed order of the figures only: one of a figure over one that is not
   smaller is always allowed. Among positive figures one of a larger over a smaller is allowed just when
   it rounds to one hundred, or happens to be a figure, a sum or a difference.
   */
  lemma PercentAllowedIff(base: set<real>, a: real, b: real)
    requires a in base && b in base && b != 0.0
    ensures a <= b ==> Derivable(base, Percent(a, b))
    ensures Derivable(base, Percent(a, b)) <==>
              || a <= b
              || Percent(a, b) in base
              || exists p, q | p in base && q in base :: p <= q && FromPair(p, q, Percent(a, b))
    ensures a > b && (forall y :: y in base ==> y > 0.0) ==>
              var x := Percent(a, b);
              Derivable(base, x) <==>
                x == 100.0 || x in base || exists p, q | p in base && q in base :: x == p + q || x == p - q
  {
    if a <= b {
      assert FromPair(a, b, Percent(a, b));
    } else if forall y :: y in base ==> y > 0.0 {
      PercentAtLeastHundred(a, b);
      HundredAllowed(base, a);
      if Percent(a, b) > 100.0 {
        AboveHundredIff(base, Percent(a, b));
      }
    }
  }

  /** Any positive figure is one hundred percent of itself. */
  lemma HundredAllowed(base: set<real>, a: real)
    requires a in base && a > 0.0
    ensures Derivable(base, 100.0)
  {
    PercentAtMostHundred(a, a);
    PercentAtLeastHundred(a, a);
    assert FromPair(a, a, 100.0);
  }

  /** So three over two, though documented as a derivation, is refused: the answer may not say 150 percent. */
  lemma RatioAboveOneRefused()
    ensures Percent(3.0, 2.0) == 150.0
    ensures !Derivable({2.0, 3.0}, 150.0)
  {
    assert 3.0 / 2.0 * 1000.0 == 1500.0;
    assert HalfEven(1500.0) == 1500;
    AboveHundredIff({2.0, 3.0}, 150.0);
  }

  /** With negative figures the signed order turns round, and the same ratio is allowed. */
  lemma NegativeRatioAllowed()
    ensures Percent(-3.0, -2.0) == 150.0
    ensures Derivable({-3.0, -2.0}, 150.0)
  {
    assert -3.0 / -2.0 * 1000.0 == 1500.0;
    assert HalfEven(1500.0) == 1500;
    PercentAllowedIff({-3.0, -2.0}, -3.0, -2.0);
  }
}
