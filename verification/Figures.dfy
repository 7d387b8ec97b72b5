/**
 The figures a text asserts: every match of `-?\d[\d,]*(?:\.\d+)?`, scanned
 left to right without overlap, with its value read after dropping the
 thousands separators.
 */
module Figures {

  predicate Digit(c: char) { '0' <= c <= '9' }
  predicate Grouping(c: char) { Digit(c) || c == ',' }

  // ---------------------------------------------------------------- the pattern

  /** `t` is a sign of length `b`, a digit, groupings up to `g`, and possibly a point with digits. */
  predicate Splits(t: string, b: nat, g: nat) {
    && (b == 0 || (b == 1 && 0 < |t| && t[0] == '-'))
    && b < g <= |t| && Digit(t[b])
    && (forall k :: b < k < g ==> Grouping(t[k]))
    && (g < |t| ==> t[g] == '.' && g + 1 < |t| && forall k :: g < k < |t| ==> Digit(t[k]))
  }

  predicate Pattern(t: string) {
    exists b: nat, g: nat | b <= 1 && g <= |t| :: Splits(t, b, g)
  }

  // ---------------------------------------------------------------- the scanner

  function DigitRun(t: string, i: nat): (j: nat)
    requires i <= |t|
    ensures i <= j <= |t| && (forall k :: i <= k < j ==> Digit(t[k])) && (j < |t| ==> !Digit(t[j]))
    decreases |t| - i
  {
    if i < |t| && Digit(t[i]) then DigitRun(t, i + 1) else i
  }

  function GroupRun(t: string, i: nat): (j: nat)
    requires i <= |t|
    ensures i <= j <= |t| && (forall k :: i <= k < j ==> Grouping(t[k])) && (j < |t| ==> !Grouping(t[j]))
    decreases |t| - i
  {
    if i < |t| && Grouping(t[i]) then GroupRun(t, i + 1) else i
  }

  function SkipSign(t: string, i: nat): (b: nat)
    requires i < |t|
    ensures i <= b <= i + 1 && b < |t|
  {
    if t[i] == '-' && i + 1 < |t| && Digit(t[i + 1]) then i + 1 else i
  }

  predicate StartsAt(t: string, i: nat)
    requires i < |t|
  {
    Digit(t[SkipSign(t, i)])
  }

  function EndOf(t: string, i: nat): (e: nat)
    requires i < |t| && StartsAt(t, i)
    ensures SkipSign(t, i) < e <= |t|
  {
    var g := GroupRun(t, SkipSign(t, i) + 1);
    if g + 1 < |t| && t[g] == '.' && Digit(t[g + 1]) then DigitRun(t, g + 2) else g
  }

  datatype Span = Span(start: nat, end: nat)

  function Spans(t: string, i: nat): (r: seq<Span>)
    requires i <= |t|
    ensures forall s :: s in r ==> i <= s.start < s.end <= |t|
    decreases |t| - i
  {
    if i == |t| then []
    else if StartsAt(t, i) then [Span(i, EndOf(t, i))] + Spans(t, EndOf(t, i))
    else Spans(t, i + 1)
  }

  /** Any match that begins at `i` is one the scanner starts, and goes no further than its own. */
  lemma MatchBound(t: string, i: nat, e: nat, b: nat, g: nat)
    requires i < |t| && i <= e <= |t| && Splits(t[i..e], b, g)
    ensures StartsAt(t, i) && e <= EndOf(t, i)
  {
    var u := t[i..e];
    assert forall k :: 0 <= k < |u| ==> u[k] == t[i + k];
    assert i + b == SkipSign(t, i);
    var run := GroupRun(t, i + b + 1);
    assert forall k :: i + b < k < i + g ==> Grouping(t[k]) by {
      assert forall k :: i + b < k < i + g ==> t[k] == u[k - i];
    }
    if g < |u| {
      assert t[i + g] == '.' && Digit(u[g + 1]) && i + g == run;
      assert forall k :: run < k < e ==> Digit(t[k]) by {
        assert forall k :: run < k < e ==> t[k] == u[k - i];
      }
    }
  }

  /** The scanner starts where a match begins and takes the longest one there. */
  lemma ScannerIsLongestMatch(t: string, i: nat)
    requires i < |t|
    ensures StartsAt(t, i) <==> exists e :: i <= e <= |t| && Pattern(t[i..e])
    ensures StartsAt(t, i) ==> Pattern(t[i..EndOf(t, i)])
    ensures forall e :: i <= e <= |t| && Pattern(t[i..e]) ==> StartsAt(t, i) && e <= EndOf(t, i)
  {
    if StartsAt(t, i) {
      var b, g, e := SkipSign(t, i), GroupRun(t, SkipSign(t, i) + 1), EndOf(t, i);
      assert Splits(t[i..e], b - i, g - i);
    }
    forall e | i <= e <= |t| && Pattern(t[i..e]) ensures StartsAt(t, i) && e <= EndOf(t, i) {
      var b: nat, g: nat :| b <= 1 && g <= |t[i..e]| && Splits(t[i..e], b, g);
      MatchBound(t, i, e, b, g);
    }
  }

  /** No figure escapes: every digit of the text lies inside a match. */
  lemma {:induction false} EveryDigitCovered(t: string, i: nat, k: nat)
    requires i <= k < |t| && Digit(t[k])
    ensures exists s :: s in Spans(t, i) && s.start <= k < s.end
    decreases |t| - i
  {
    if StartsAt(t, i) {
      var e := EndOf(t, i);
      if k < e {
        assert Span(i, e) in Spans(t, i);
      } else {
        EveryDigitCovered(t, e, k);
        var s :| s in Spans(t, e) && s.start <= k < s.end;
        assert s in Spans(t, i);
      }
    } else {
      EveryDigitCovered(t, i + 1, k);
    }
  }

  predicate Disjoint(spans: seq<Span>) {
    forall m, n :: 0 <= m < n < |spans| ==> spans[m].end <= spans[n].start
  }

  lemma DisjointCons(first: Span, rest: seq<Span>)
    requires Disjoint(rest) && forall s :: s in rest ==> first.end <= s.start
    ensures Disjoint([first] + rest)
  {
    var all := [first] + rest;
    forall m, n | 0 <= m < n < |all| ensures all[m].end <= all[n].start {
      assert all[n] == rest[n - 1] && rest[n - 1] in rest;
    }
  }

  /** Matches never overlap and come in text order. */
  lemma {:induction false} SpansDisjoint(t: string, i: nat)
    requires i <= |t|
    ensures Disjoint(Spans(t, i))
    decreases |t| - i
  {
    if i == |t| {
    } else if StartsAt(t, i) {
      var e := EndOf(t, i);
      SpansDisjoint(t, e);
      DisjointCons(Span(i, e), Spans(t, e));
    } else {
      SpansDisjoint(t, i + 1);
    }
  }

  // ---------------------------------------------------------------- values

  function StripCommas(s: string): (r: string) {
    if s == [] then [] else (if s[0] == ',' then [] else [s[0]]) + StripCommas(s[1..])
  }

  function DigitValue(c: char): (r: nat) {
    if Digit(c) then c as int - '0' as int else 0
  }

  function Whole(s: string): (r: nat) {
    if s == [] then 0 else Whole(s[..|s| - 1]) * 10 + DigitValue(s[|s| - 1])
  }

  function Pow10(k: nat): (p: nat)
    ensures p >= 1
  {
    if k == 0 then 1 else 10 * Pow10(k - 1)
  }

  /** The position of the decimal point, or the length. */
  function Point(s: string): (i: nat)
    ensures i <= |s| && (i < |s| ==> s[i] == '.') && forall k :: 0 <= k < i ==> s[k] != '.'
  {
    if s == [] || s[0] == '.' then 0 else 1 + Point(s[1..])
  }

  function Unsigned(s: string): (r: real) {
    var p := Point(s);
    if p == |s| then Whole(s) as real
    else Whole(s[..p]) as real + Whole(s[p + 1..]) as real / Pow10(|s| - p - 1) as real
  }

  function Value(raw: string): (r: real) {
    var s := StripCommas(raw);
    if s != [] && s[0] == '-' then -Unsigned(s[1..]) else Unsigned(s)
  }

  function Numbers(t: string): (r: set<real>) {
    Values(t, Spans(t, 0))
  }

  function Values(t: string, spans: seq<Span>): (r: set<real>)
    requires forall s :: s in spans ==> s.start < s.end <= |t|
  {
    set s | s in spans :: Value(t[s.start..s.end])
  }

  /** The loop over the matches, growing a set. */
  method NumbersIn(t: string) returns (found: set<real>)
    ensures found == Numbers(t)
  {
    found := {};
    var pos := 0;
    ghost var done: seq<Span> := [];
    while pos < |t|
      invariant pos <= |t|
      invariant done + Spans(t, pos) == Spans(t, 0)
      invariant forall s :: s in done ==> s.start < s.end <= |t|
      invariant found == Values(t, done)
    {
      if StartsAt(t, pos) {
        var end := EndOf(t, pos);
        ghost var span := Span(pos, end);
        assert done + ([span] + Spans(t, end)) == done + [span] + Spans(t, end);
        ValuesAppend(t, done, span);
        found := found + {Value(t[pos..end])};
        done := done + [span];
        pos := end;
      } else {
        pos := pos + 1;
      }
    }
    assert done + [] == done;
  }

  lemma ValuesAppend(t: string, spans: seq<Span>, span: Span)
    requires forall s :: s in spans ==> s.start < s.end <= |t|
    requires span.start < span.end <= |t|
    ensures Values(t, spans + [span]) == Values(t, spans) + {Value(t[span.start..span.end])}
  {
    var more := spans + [span];
    assert forall s :: s in more <==> s in spans || s == span;
  }

  /** A text asserts no figure exactly when it holds no digit. */
  lemma NoFiguresIffNoDigits(t: string)
    ensures Numbers(t) == {} <==> forall k :: 0 <= k < |t| ==> !Digit(t[k])
  {
    if k :| 0 <= k < |t| && Digit(t[k]) {
      EveryDigitCovered(t, 0, k);
      var s :| s in Spans(t, 0) && s.start <= k < s.end;
      assert Value(t[s.start..s.end]) in Numbers(t);
    } else {
      NoDigitsNoSpans(t, 0);
    }
  }

  lemma {:induction false} NoDigitsNoSpans(t: string, i: nat)
    requires i <= |t| && forall k :: 0 <= k < |t| ==> !Digit(t[k])
    ensures Spans(t, i) == []
    decreases |t| - i
  {
    if i < |t| {
      NoDigitsNoSpans(t, i + 1);
    }
  }

  // ---------------------------------------------------------------- reading numerals back

  function DigitChar(d: nat): (r: char)
    requires d < 10
  {
    ('0' as int + d) as char
  }

  /** The last `k` decimal digits of `n`. */
  function Digits(n: nat, k: nat): (s: string)
    ensures |s| == k && forall i :: 0 <= i < k ==> Digit(s[i])
  {
    if k == 0 then [] else Digits(n / 10, k - 1) + [DigitChar(n % 10)]
  }

  lemma {:induction false} WholeDigits(n: nat, k: nat)
    requires n < Pow10(k)
    ensures Whole(Digits(n, k)) == n
  {
    if k > 0 {
      WholeDigits(n / 10, k - 1);
      WholeAppend(Digits(n / 10, k - 1), n % 10);
    }
  }

  /**
   A numeral with `k` whole and `m` fractional digits reads as the number it
   writes, wherever thousands separators stand in it.
   */
  lemma NumeralValue(raw: string, n: nat, k: nat, f: nat, m: nat)
    requires n < Pow10(k) && k >= 1 && f < Pow10(m)
    requires StripCommas(raw) == Digits(n, k) + ['.'] + Digits(f, m)
    ensures Value(raw) == n as real + f as real / Pow10(m) as real
  {
    NumeralParts(StripCommas(raw), Digits(n, k), Digits(f, m));
    WholeDigits(n, k);
    WholeDigits(f, m);
  }

  lemma NumeralParts(s: string, a: string, b: string)
    requires |a| >= 1 && (forall i :: 0 <= i < |a| ==> Digit(a[i]))
    requires s == a + ['.'] + b
    ensures s[0] != '-'
    ensures Unsigned(s) == Whole(a) as real + Whole(b) as real / Pow10(|b|) as real
  {
    assert forall i :: 0 <= i < |a| ==> s[i] == a[i];
    assert s[|a|] == '.';
    assert Point(s) == |a|;
    assert s[..|a|] == a;
    assert s[|a| + 1..] == b;
  }

  /** Without a point it reads as the whole number, negated by a leading sign. */
  lemma IntegerValue(raw: string, n: nat, k: nat)
    requires n < Pow10(k) && k >= 1
    ensures StripCommas(raw) == Digits(n, k) ==> Value(raw) == n as real
    ensures StripCommas(raw) == ['-'] + Digits(n, k) ==> Value(raw) == -(n as real)
  {
    var d := Digits(n, k);
    WholeDigits(n, k);
    assert Point(d) == k;
    assert (['-'] + d)[1..] == d;
  }

  // ---------------------------------------------------------------- numbers as people write them

  /** A whole number without leading zeros. */
  function Numeral(n: nat): (s: string) {
    if n < 10 then [DigitChar(n)] else Numeral(n / 10) + [DigitChar(n % 10)]
  }

  /** The same with a comma before every group of three. */
  function Grouped(n: nat): (s: string) {
    if n < 1000 then Numeral(n) else Grouped(n / 1000) + [','] + Digits(n % 1000, 3)
  }

  /** A decimal number: sign, grouped whole part, point and `m` fractional digits. */
  function Written(negative: bool, n: nat, f: nat, m: nat): (s: string) {
    (if negative then ['-'] else []) + Grouped(n) + ['.'] + Digits(f, m)
  }

  predicate AllDigits(s: string) {
    forall i | 0 <= i < |s| :: Digit(s[i])
  }

  lemma StripHead(c: char, s: string)
    ensures StripCommas([c] + s) == (if c == ',' then [] else [c]) + StripCommas(s)
  {
    assert ([c] + s)[1..] == s;
  }

  lemma Concatenates(a: string, b: string, c: string)
    ensures (a + b) + c == a + (b + c)
  {
  }

  lemma {:induction false} StripAppend(a: string, b: string)
    ensures StripCommas(a + b) == StripCommas(a) + StripCommas(b)
  {
    if a == [] {
      assert a + b == b;
      assert [] + StripCommas(b) == StripCommas(b);
    } else {
      var head: string := if a[0] == ',' then [] else [a[0]];
      StripAppend(a[1..], b);
      StripHead(a[0], a[1..] + b);
      assert a + b == [a[0]] + (a[1..] + b);
      Concatenates(head, StripCommas(a[1..]), StripCommas(b));
    }
  }

  lemma {:induction false} StripPlain(s: string)
    requires forall i | 0 <= i < |s| :: s[i] != ','
    ensures StripCommas(s) == s
  {
    if s != [] {
      StripPlain(s[1..]);
      assert s == [s[0]] + s[1..];
    }
  }

  lemma WholeAppend(s: string, d: nat)
    requires d < 10
    ensures Whole(s + [DigitChar(d)]) == Whole(s) * 10 + d
  {
    assert (s + [DigitChar(d)])[..|s|] == s;
  }

  lemma DigitAppend(s: string, d: nat)
    requires d < 10 && AllDigits(s)
    ensures AllDigits(s + [DigitChar(d)])
  {
  }

  lemma {:induction false} NumeralReads(n: nat)
    ensures Numeral(n) != [] && AllDigits(Numeral(n)) && Whole(Numeral(n)) == n
  {
    if n < 10 {
      WholeAppend([], n);
      assert [] + [DigitChar(n)] == [DigitChar(n)];
    } else {
      NumeralReads(n / 10);
      WholeAppend(Numeral(n / 10), n % 10);
      DigitAppend(Numeral(n / 10), n % 10);
    }
  }

  lemma ThreeDigits(s: string, m: nat)
    requires m < 1000
    ensures Whole(s + Digits(m, 3)) == Whole(s) * 1000 + m
  {
    var a, b, c := DigitChar(m / 10 / 10 % 10), DigitChar(m / 10 % 10), DigitChar(m % 10);
    assert Digits(m / 10 / 10, 1) == [] + [a];
    assert Digits(m / 10, 2) == Digits(m / 10 / 10, 1) + [b];
    assert Digits(m, 3) == Digits(m / 10, 2) + [c];
    assert s + Digits(m, 3) == s + [a] + [b] + [c];
    WholeAppend(s, m / 10 / 10 % 10);
    WholeAppend(s + [a], m / 10 % 10);
    WholeAppend(s + [a] + [b], m % 10);
  }

  lemma {:induction false} GroupedShape(n: nat)
    ensures Grouped(n) != [] && Digit(Grouped(n)[0])
    ensures forall i | 0 <= i < |Grouped(n)| :: Grouping(Grouped(n)[i])
  {
    if n < 1000 {
      NumeralReads(n);
    } else {
      GroupedShape(n / 1000);
    }
  }

  lemma StripSeparator(head: string)
    ensures StripCommas(head + [',']) == StripCommas(head)
  {
    StripAppend(head, [',']);
    StripHead(',', []);
    assert [','] + [] == [','];
  }

  lemma StripGroup(head: string, tail: string)
    requires AllDigits(tail)
    ensures StripCommas(head + [','] + tail) == StripCommas(head) + tail
  {
    StripSeparator(head);
    StripPlain(tail);
    StripAppend(head + [','], tail);
  }

  /** Dropping the separators leaves digits that read as the number. */
  lemma {:induction false} GroupedReads(n: nat)
    ensures var s := StripCommas(Grouped(n)); s != [] && AllDigits(s) && Whole(s) == n
  {
    if n < 1000 {
      NumeralReads(n);
      StripPlain(Numeral(n));
    } else {
      GroupedReads(n / 1000);
      StripGroup(Grouped(n / 1000), Digits(n % 1000, 3));
      ThreeDigits(StripCommas(Grouped(n / 1000)), n % 1000);
    }
  }

  /** Dropping the separators of a written number keeps its sign, its digits and its point. */
  lemma WrittenStripped(negative: bool, n: nat, f: nat, m: nat)
    ensures StripCommas(Written(negative, n, f, m))
         == (if negative then ['-'] else []) + (StripCommas(Grouped(n)) + ['.'] + Digits(f, m))
  {
    var sign: string := if negative then ['-'] else [];
    var whole, fraction := StripCommas(Grouped(n)), Digits(f, m);
    StripAppend(sign + Grouped(n) + ['.'], fraction);
    StripAppend(sign + Grouped(n), ['.']);
    StripAppend(sign, Grouped(n));
    StripPlain(sign);
    StripPlain(['.']);
    StripPlain(fraction);
    Concatenates(sign, whole, ['.']);
    Concatenates(sign, whole + ['.'], fraction);
  }

  lemma NegativeValue(raw: string, s: string)
    requires StripCommas(raw) == ['-'] + s
    ensures Value(raw) == -Unsigned(s)
  {
    assert (['-'] + s)[1..] == s;
  }

  lemma SignedValue(negative: bool, raw: string, s: string)
    requires StripCommas(raw) == (if negative then ['-'] else []) + s && s != [] && s[0] != '-'
    ensures Value(raw) == if negative then -Unsigned(s) else Unsigned(s)
  {
    if negative {
      NegativeValue(raw, s);
    } else {
      assert StripCommas(raw) == s;
    }
  }

  /** A written number reads as the number it is, with its sign, whatever its separators. */
  lemma WrittenReads(negative: bool, n: nat, f: nat, m: nat)
    requires f < Pow10(m)
    ensures var x := n as real + f as real / Pow10(m) as real; Value(Written(negative, n, f, m)) == if negative then -x else x
  {
    var whole := StripCommas(Grouped(n));
    GroupedReads(n);
    WrittenStripped(negative, n, f, m);
    NumeralParts(whole + ['.'] + Digits(f, m), whole, Digits(f, m));
    SignedValue(negative, Written(negative, n, f, m), whole + ['.'] + Digits(f, m));
    WholeDigits(f, m);
  }

  lemma WrittenSplits(negative: bool, n: nat, f: nat, m: nat)
    requires m >= 1
    ensures var b := if negative then 1 else 0; Splits(Written(negative, n, f, m), b, b + |Grouped(n)|)
  {
    var t := Written(negative, n, f, m);
    var b := if negative then 1 else 0;
    var g := b + |Grouped(n)|;
    GroupedShape(n);
    assert forall k | b <= k < g :: t[k] == Grouped(n)[k - b];
    assert t[g] == '.';
    assert forall k | g < k < |t| :: t[k] == Digits(f, m)[k - g - 1];
  }

  /** And it is one figure: the text asserts that number and no other. */
  lemma WrittenIsOneFigure(negative: bool, n: nat, f: nat, m: nat)
    requires f < Pow10(m) && m >= 1
    ensures Numbers(Written(negative, n, f, m)) == {Value(Written(negative, n, f, m))}
  {
    var t := Written(negative, n, f, m);
    var b := if negative then 1 else 0;
    WrittenSplits(negative, n, f, m);
    assert t[0..|t|] == t;
    MatchBound(t, 0, |t|, b, b + |Grouped(n)|);
    assert Spans(t, 0) == [Span(0, |t|)] + Spans(t, |t|) == [Span(0, |t|)];
  }
}
