/** Correction by reversal: once per entry, never back in time, and exactly cancelling. */
module Reversals {
  import opened Prelude
  import opened Posting
  import opened Calendar
  import opened Ledger
  import opened LedgerInvariant
  import opened Reports

  /** What an entry does to an account, debit positive. */
  function NetOn(e: Entry, a: nat): (r: int) {
    LinesOn(e.lines, a, Debit) - LinesOn(e.lines, a, Credit)
  }

  lemma {:induction false} MirrorsNegate(x: seq<Line>, y: seq<Line>, a: nat)
    requires Mirrors(x, y)
    ensures LinesOn(x, a, Debit) == LinesOn(y, a, Credit)
    ensures LinesOn(x, a, Credit) == LinesOn(y, a, Debit)
  {
    if x != [] {
      var n := |x| - 1;
      assert x[n].account == y[n].account && x[n].debit == y[n].credit && x[n].credit == y[n].debit;
      MirrorsNegate(x[..n], y[..n], a);
    }
  }

  // ---------------------------------------------------------------- reversal chains

  /** Entries each of which was reversed by the next. */
  ghost predicate IsChain(entries: seq<Entry>, chain: seq<nat>) {
    && (forall k | 0 <= k < |chain| :: chain[k] < |entries|)
    && (forall k | 0 <= k < |chain| - 1 :: entries[chain[k]].reversedBy == Some(chain[k + 1]))
  }

  function ChainNet(entries: seq<Entry>, chain: seq<nat>, a: nat): (r: int)
    requires forall k | 0 <= k < |chain| :: chain[k] < |entries|
  {
    if chain == [] then 0
    else ChainNet(entries, chain[..|chain| - 1], a) + NetOn(entries[chain[|chain| - 1]], a)
  }

  /** The two entries of a reversal are exact opposites on every account. */
  lemma ReversalOpposes(b: Books, original: nat, r: nat, a: nat)
    requires ValidBooks(b) && original < |b.entries| && b.entries[original].reversedBy == Some(r)
    ensures r < |b.entries| && NetOn(b.entries[r], a) == -NetOn(b.entries[original], a)
  {
    assert ValidEntry(b, original);
    assert ValidEntry(b, r);
    MirrorsNegate(b.entries[r].lines, b.entries[original].lines, a);
  }

  lemma LastTwoCancel(b: Books, chain: seq<nat>, a: nat)
    requires ValidBooks(b) && IsChain(b.entries, chain) && |chain| > 1
    ensures var short := chain[..|chain| - 2];
            IsChain(b.entries, short) && ChainNet(b.entries, chain, a) == ChainNet(b.entries, short, a)
  {
    var n := |chain| - 1;
    var init, short := chain[..n], chain[..n - 1];
    assert init[..n - 1] == short;
    assert ChainNet(b.entries, chain, a) == ChainNet(b.entries, init, a) + NetOn(b.entries[chain[n]], a);
    assert ChainNet(b.entries, init, a) == ChainNet(b.entries, short, a) + NetOn(b.entries[chain[n - 1]], a);
    ReversalOpposes(b, chain[n - 1], chain[n], a);
  }

  /**
   A reversal chain of any length nets, on every account, to nothing when it has an even number of
   entries and to its first entry when it has an odd number.
   */
  lemma {:induction false} ChainNets(b: Books, chain: seq<nat>, a: nat)
    requires ValidBooks(b) && IsChain(b.entries, chain)
    ensures ChainNet(b.entries, chain, a) == if |chain| % 2 == 0 then 0 else NetOn(b.entries[chain[0]], a)
  {
    if |chain| > 1 {
      var short := chain[..|chain| - 2];
      LastTwoCancel(b, chain, a);
      ChainNets(b, short, a);
      assert |short| % 2 == |chain| % 2;
    } else if |chain| == 1 {
      assert chain[..0] == [];
    }
  }

  /** Along a chain positions strictly increase, so it cannot close on itself, and dates never decrease. */
  lemma {:induction false} ChainAdvances(b: Books, chain: seq<nat>, i: nat, j: nat)
    requires ValidBooks(b) && IsChain(b.entries, chain) && i < j < |chain|
    ensures chain[i] < chain[j] && b.entries[chain[i]].date <= b.entries[chain[j]].date
    decreases j
  {
    assert ValidEntry(b, chain[j - 1]) && ValidEntry(b, chain[j]);
    if i < j - 1 {
      ChainAdvances(b, chain, i, j - 1);
    }
  }

  /** No entry is reversed by two others, and the two links of a reversal always agree. */
  lemma ReversedAtMostOnce(b: Books, original: nat, r: nat)
    requires ValidBooks(b) && original < |b.entries| && r < |b.entries|
    ensures b.entries[r].reversalOf == Some(original) <==> b.entries[original].reversedBy == Some(r)
  {
    assert ValidEntry(b, original) && ValidEntry(b, r);
  }

  /** After a successful reversal, every later attempt on the same entry is refused. */
  lemma SecondReversalRefused(b: Books, original: nat, calls: seq<Call>, clock: Clock, date: int, mayPostClosed: bool)
    requires Sound(b) && (forall i | 0 <= i < |calls| :: ValidCall(calls[i])) && ValidClock(clock)
    requires original < |b.entries| && b.entries[original].reversedBy.Some?
    ensures Reverse(Run(b, calls), clock, original, date, mayPostClosed).result == Failure(EntryAlreadyReversed)
    ensures Run(b, calls).entries[original].reversedBy == b.entries[original].reversedBy
  {
    RunKeeps(b, calls);
    assert EntryKept(b.entries[original], Run(b, calls).entries[original]);
  }

  // ---------------------------------------------------------------- when a reversal goes through

  lemma {:induction false} SwappedTotals(lines: seq<Line>)
    ensures Total(Swapped(lines), Debit) == LineTotal(lines, Credit) as real
    ensures Total(Swapped(lines), Credit) == LineTotal(lines, Debit) as real
  {
    if lines != [] {
      var n := |lines| - 1;
      SwappedTotals(lines[..n]);
      assert Swapped(lines)[..n] == Swapped(lines[..n]);
    }
  }

  /** The amounts of a stored entry, exchanged, always satisfy both layers. */
  lemma SwappedPostable(b: Books, i: nat)
    requires ValidBooks(b) && i < |b.entries|
    ensures Postable(Swapped(b.entries[i].lines)) && Resolvable(b.accounts, Swapped(b.entries[i].lines))
  {
    var lines := b.entries[i].lines;
    var q := Swapped(lines);
    assert ValidEntry(b, i);
    SwappedTotals(lines);
    forall k | 0 <= k < |q|
      ensures Exact(q[k].debit) && Exact(q[k].credit) && StorableLine(q[k])
    {
      WholeExact(lines[k].debit);
      WholeExact(lines[k].credit);
    }
    StoredWhole(LineTotal(lines, Debit));
    assert ServiceBalanced(q);
    ExactNeverTripsTrigger(q);
  }

  lemma WholeExact(n: int)
    ensures Exact(n as real) && Stored(n as real) == n
  {
    StoredWhole(n);
  }

  /**
   A reversal succeeds exactly when the entry exists and is not reversed yet, the date does not
   precede it and lies in a period that accepts it, and every account it touched may still be posted
   to. Amounts, rounding, the trigger and the source constraint can never refuse it.
   */
  lemma ReversalSucceedsIff(b: Books, clock: Clock, original: nat, date: int, mayPostClosed: bool)
    requires Sound(b) && ValidClock(clock)
    ensures Reverse(b, clock, original, date, mayPostClosed).result.Success?
       <==> && original < |b.entries| && b.entries[original].reversedBy.None?
            && b.entries[original].date <= date
            && PeriodAccepts(b.periods, date, mayPostClosed)
            && (forall k | 0 <= k < |b.entries[original].lines| ::
                  b.entries[original].lines[k].account < |b.accounts|
                  && b.accounts[b.entries[original].lines[k].account].postable
                  && b.accounts[b.entries[original].lines[k].account].active)
  {
    BootstrapKeeps(b, clock);
    if original < |b.entries| {
      ReversalInIff(b, original, date, mayPostClosed);
    }
  }

  lemma ReversalInIff(b: Books, original: nat, date: int, mayPostClosed: bool)
    requires ValidBooks(b)
    ensures ReverseIn(b, original, date, mayPostClosed).result.Success?
       <==> && original < |b.entries| && b.entries[original].reversedBy.None?
            && b.entries[original].date <= date
            && PeriodAccepts(b.periods, date, mayPostClosed)
            && (forall k | 0 <= k < |b.entries[original].lines| ::
                  b.entries[original].lines[k].account < |b.accounts|
                  && b.accounts[b.entries[original].lines[k].account].postable
                  && b.accounts[b.entries[original].lines[k].account].active)
  {
    if original < |b.entries| && b.entries[original].reversedBy.None? {
      var lines := b.entries[original].lines;
      var q := Swapped(lines);
      SwappedPostable(b, original);
      assert SourceFree(b.entries, Reversal(original)) by {
        forall i | 0 <= i < |b.entries| ensures b.entries[i].source != Reversal(original) {
          assert ValidEntry(b, i);
        }
      }
      forall k | 0 <= k < |lines| ensures Resolve(b.accounts, q[k].target) == Some(lines[k].account) {
        assert Resolve(b.accounts, q[k].target).Some?;
      }
    }
  }
}
