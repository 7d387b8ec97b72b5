/**
 A posting request as Python decimals, and the same lines as PostgreSQL stores them.

 Every amount is measured in storage quanta: one unit is 0.0001 of the currency, the scale of
 NUMERIC(18, 4). A decimal of any precision is therefore a `real`, a stored amount an `int`.
 */
module Posting {

  /** The accounts the posting rules name by role instead of by id. */
  datatype SystemCode =
    | Cash | Bank | ArControl | Inventory | VatInput
    | ApControl | Grni | VatOutput | RetainedEarnings
    | SalesRevenue | SalesReturns | SalesDiscounts | Cogs | Rounding

  /** What a line is posted to: a system role, or (manual entries, reversals) an account id. */
  datatype Target = Role(code: SystemCode) | Direct(account: nat)

  datatype PostingLine = PostingLine(target: Target, debit: real, credit: real)

  datatype Side = Debit | Credit

  function Amount(line: PostingLine, side: Side): (r: real) {
    if side.Debit? then line.debit else line.credit
  }

  function Total(lines: seq<PostingLine>, side: Side): (r: real) {
    if lines == [] then 0.0
    else Total(lines[..|lines| - 1], side) + Amount(lines[|lines| - 1], side)
  }

  /** NUMERIC(18, 4) input rounding: to the nearest quantum, halves away from zero. */
  function Stored(x: real): (r: int) {
    if x >= 0.0 then (x + 0.5).Floor else -((-x + 0.5).Floor)
  }

  function StoredTotal(lines: seq<PostingLine>, side: Side): (r: int) {
    if lines == [] then 0
    else StoredTotal(lines[..|lines| - 1], side) + Stored(Amount(lines[|lines| - 1], side))
  }

  /** NUMERIC(18, 4) holds fourteen digits before the point and four after it. */
  const NUMERIC_LIMIT: int := 1_000_000_000_000_000_000

  predicate Fits(q: int) {
    -NUMERIC_LIMIT < q < NUMERIC_LIMIT
  }

  /** The check constraint `exactly_one_side`, evaluated on stored values. */
  predicate OneSided(debit: int, credit: int) {
    (debit > 0 && credit == 0) || (credit > 0 && debit == 0)
  }

  /** The service's comparison of unrounded totals. */
  predicate ServiceBalanced(lines: seq<PostingLine>) {
    && lines != []
    && Total(lines, Debit) == Total(lines, Credit)
    && Total(lines, Debit) != 0.0
  }

  predicate StorableLine(line: PostingLine) {
    && Fits(Stored(line.debit)) && Fits(Stored(line.credit))
    && OneSided(Stored(line.debit), Stored(line.credit))
  }

  /** Column types and check constraints of the entry row and its line rows. */
  predicate Storable(lines: seq<PostingLine>) {
    && Fits(Stored(Total(lines, Debit))) && Fits(Stored(Total(lines, Credit)))
    && Stored(Total(lines, Debit)) >= 0 && Stored(Total(lines, Credit)) >= 0
    && (forall i | 0 <= i < |lines| :: StorableLine(lines[i]))
  }

  /** The deferred balance trigger, comparing stored lines with each other and the stored totals. */
  predicate TriggerBalanced(lines: seq<PostingLine>) {
    && StoredTotal(lines, Debit) == StoredTotal(lines, Credit)
    && StoredTotal(lines, Debit) == Stored(Total(lines, Debit))
    && StoredTotal(lines, Credit) == Stored(Total(lines, Credit))
    && StoredTotal(lines, Debit) != 0
  }

  /** Both layers accept the amounts of the request. */
  predicate Postable(lines: seq<PostingLine>) {
    ServiceBalanced(lines) && Storable(lines) && TriggerBalanced(lines)
  }

  predicate Exact(x: real) {
    x == x.Floor as real
  }

  predicate ExactLines(lines: seq<PostingLine>) {
    forall i | 0 <= i < |lines| :: Exact(lines[i].debit) && Exact(lines[i].credit)
  }

  // ---------------------------------------------------------------- rounding error

  lemma StoredNear(x: real)
    ensures -0.5 <= Stored(x) as real - x <= 0.5
  {
    if x >= 0.0 {
      var f := (x + 0.5).Floor;
      assert f as real <= x + 0.5 < f as real + 1.0;
    } else {
      var g := (-x + 0.5).Floor;
      assert g as real <= -x + 0.5 < g as real + 1.0;
    }
  }

  lemma StoredWhole(n: int)
    ensures Stored(n as real) == n
  {
    StoredNear(n as real);
    var d := Stored(n as real) - n;
    assert d as real == Stored(n as real) as real - n as real;
    assert -1 < d < 1;
  }

  /** Rounding treats both signs alike, halves going away from zero. */
  lemma StoredSymmetric(x: real, n: int)
    ensures Stored(-x) == -Stored(x)
    ensures n >= 0 && x == n as real + 0.5 ==> Stored(x) == n + 1
  {
    StoredNear(x);
    StoredNear(-x);
  }

  /** Storing moves an amount by at most half a quantum, and not at all when it is already exact. */
  lemma StoredError(x: real)
    ensures -0.5 <= Stored(x) as real - x <= 0.5
    ensures Exact(x) ==> Stored(x) as real == x
  {
    StoredNear(x);
    if Exact(x) {
      StoredWhole(x.Floor);
    }
  }

  /** The drift of a stored total is at most half a quantum per line. */
  lemma {:induction false} StoredTotalError(lines: seq<PostingLine>, side: Side)
    ensures -(|lines| as real) * 0.5 <= StoredTotal(lines, side) as real - Total(lines, side) <= |lines| as real * 0.5
    ensures ExactLines(lines) ==> StoredTotal(lines, side) as real == Total(lines, side)
  {
    if lines != [] {
      StoredTotalError(lines[..|lines| - 1], side);
      StoredError(Amount(lines[|lines| - 1], side));
    }
  }

  /** Each line carries an amount on one side only, as every posting rule builds them. */
  predicate SingleSidedLines(lines: seq<PostingLine>) {
    forall i | 0 <= i < |lines| :: lines[i].debit == 0.0 || lines[i].credit == 0.0
  }

  lemma {:induction false} NetDrift(lines: seq<PostingLine>)
    requires SingleSidedLines(lines)
    ensures var drift := (StoredTotal(lines, Debit) - StoredTotal(lines, Credit)) as real
                         - (Total(lines, Debit) - Total(lines, Credit));
            -(|lines| as real) <= 2.0 * drift <= |lines| as real
  {
    if lines != [] {
      var last := lines[|lines| - 1];
      NetDrift(lines[..|lines| - 1]);
      StoredError(last.debit);
      StoredError(last.credit);
      assert Stored(0.0) == 0;
    }
  }

  /**
   Whatever the precision, a request the service balances reaches storage off balance by at most half
   a quantum per line; a net/tax/total entry, having three lines, by at most one quantum.
   */
  lemma DriftBound(lines: seq<PostingLine>)
    requires ServiceBalanced(lines) && SingleSidedLines(lines)
    ensures -|lines| <= 2 * (StoredTotal(lines, Debit) - StoredTotal(lines, Credit)) <= |lines|
  {
    NetDrift(lines);
  }

  lemma {:induction false} ExactTotal(lines: seq<PostingLine>, side: Side)
    requires ExactLines(lines)
    ensures Exact(Total(lines, side))
    ensures Stored(Total(lines, side)) == StoredTotal(lines, side)
  {
    StoredTotalError(lines, side);
    var n := StoredTotal(lines, side);
    assert Total(lines, side) == n as real;
    assert (n as real).Floor == n;
    StoredError(Total(lines, side));
  }

  /**
   Amounts already at four decimals never trip the trigger: on them it adds nothing to the service's
   own comparison.
   */
  lemma ExactNeverTripsTrigger(lines: seq<PostingLine>)
    requires ExactLines(lines)
    ensures ServiceBalanced(lines) ==> TriggerBalanced(lines)
    ensures lines != [] && TriggerBalanced(lines) ==> ServiceBalanced(lines)
  {
    ExactTotal(lines, Debit);
    ExactTotal(lines, Credit);
    StoredTotalError(lines, Debit);
    StoredTotalError(lines, Credit);
  }

  /** One debit line and one credit line, in that order. */
  function Pair(dr: Target, cr: Target, amount: real): (lines: seq<PostingLine>)
    ensures |lines| == 2
  {
    [PostingLine(dr, amount, 0.0), PostingLine(cr, 0.0, amount)]
  }

  lemma PairTotals(dr: Target, cr: Target, amount: real)
    ensures var p := Pair(dr, cr, amount);
            && Total(p, Debit) == amount && Total(p, Credit) == amount
            && StoredTotal(p, Debit) == Stored(amount) && StoredTotal(p, Credit) == Stored(amount)
  {
    var p := Pair(dr, cr, amount);
    assert p[..1] == [p[0]];
    assert p[..1][..0] == [];
    assert Total(p[..1], Debit) == amount && Total(p[..1], Credit) == 0.0;
    assert StoredTotal(p[..1], Debit) == Stored(amount) && StoredTotal(p[..1], Credit) == 0;
  }

  /**
   A one-debit, one-credit entry of any precision is never refused for imbalance: it posts exactly
   when its amount does not round to zero (or below) and fits the column.
   */
  lemma PairPostable(dr: Target, cr: Target, amount: real)
    ensures Postable(Pair(dr, cr, amount)) <==> 0 < Stored(amount) < NUMERIC_LIMIT
  {
    PairTotals(dr, cr, amount);
    var p := Pair(dr, cr, amount);
    assert p[0] == PostingLine(dr, amount, 0.0) && p[1] == PostingLine(cr, 0.0, amount);
    StoredError(amount);
    if Postable(p) {
      assert StorableLine(p[0]);
    }
  }

  // ---------------------------------------------------------------- net / tax / total entries

  /** The fraction of a quantum that storing an amount has to dispose of. */
  function Fraction(x: real): (r: real)
    ensures 0.0 <= r < 1.0
  {
    x - x.Floor as real
  }

  /** How many of two amounts are rounded up when stored. */
  function RoundUps(x: real, y: real): (r: int) {
    (if Fraction(x) >= 0.5 then 1 else 0) + (if Fraction(y) >= 0.5 then 1 else 0)
  }

  /** Rounding net and tax one by one differs from rounding their sum by at most one quantum. */
  lemma SplitDrift(net: real, tax: real)
    ensures -1 <= Stored(net) + Stored(tax) - Stored(net + tax) <= 1
  {
    StoredError(net);
    StoredError(tax);
    StoredError(net + tax);
  }

  /**
   When the two agree, in terms of the inputs alone: the number of parts that round up is what their
   joint fraction rounds to.
   */
  lemma SplitExact(net: real, tax: real)
    requires net >= 0.0 && tax >= 0.0
    ensures Stored(net) + Stored(tax) == Stored(net + tax)
       <==> (Fraction(net) + Fraction(tax) + 0.5).Floor == RoundUps(net, tax)
  {
    var n, t := net.Floor, tax.Floor;
    assert net == n as real + Fraction(net) && tax == t as real + Fraction(tax);
    assert Stored(net) == n + (if Fraction(net) >= 0.5 then 1 else 0);
    assert Stored(tax) == t + (if Fraction(tax) >= 0.5 then 1 else 0);
    assert Stored(net + tax) == n + t + (Fraction(net) + Fraction(tax) + 0.5).Floor;
  }

  /** Half a quantum of net and half a quantum of tax are worth one quantum together, two apart. */
  lemma SplitCanDrift()
    ensures Stored(0.5) + Stored(0.5) == Stored(0.5 + 0.5) + 1
  {
    assert (0.5 + 0.5).Floor == 1;
    assert (1.0 + 0.5).Floor == 1;
  }
}
