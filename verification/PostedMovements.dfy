/** What a posting does to every account, on either side and over any range: exactly its own lines, on its own date. */
module PostedMovements {
  import opened Prelude
  import opened Posting
  import opened Chart
  import opened Calendar
  import opened Ledger
  import opened LedgerInvariant
  import opened Reports
  import opened ChartRuns

  // ---------------------------------------------------------------- what the request says

  /** The given manual lines on an account, each amount as it is stored. */
  function ManualOn(lines: seq<ManualLine>, a: nat, side: Side): (r: int) {
    if lines == [] then 0
    else
      var last := lines[|lines| - 1];
      ManualOn(lines[..|lines| - 1], a, side)
        + if last.account != a then 0 else if side == Debit then Stored(last.debit) else Stored(last.credit)
  }

  /** The given document lines on a role. */
  function DocumentOn(lines: seq<PostingLine>, code: SystemCode, side: Side): (r: int) {
    if lines == [] then 0
    else
      var last := lines[|lines| - 1];
      DocumentOn(lines[..|lines| - 1], code, side)
        + if last.target != Role(code) then 0 else if side == Debit then Stored(last.debit) else Stored(last.credit)
  }

  predicate ByRole(lines: seq<PostingLine>) {
    forall k | 0 <= k < |lines| :: lines[k].target.Role?
  }

  // ---------------------------------------------------------------- what is stored

  lemma LinesOnAppend(lines: seq<Line>, l: Line, a: nat, side: Side)
    ensures LinesOn(lines + [l], a, side) == LinesOn(lines, a, side) + if l.account == a then OnSide(l, side) else 0
  {
    assert (lines + [l])[..|lines|] == lines;
  }

  lemma StoredAppend(accounts: seq<Account>, lines: seq<PostingLine>, firstId: nat)
    requires lines != [] && Resolvable(accounts, lines)
    ensures var n := |lines| - 1;
            && Resolvable(accounts, lines[..n])
            && StoredLines(accounts, lines, firstId)
               == StoredLines(accounts, lines[..n], firstId) + [StoredLine(accounts, lines[n], firstId + n)]
  {
  }

  lemma {:induction false} StoredManual(accounts: seq<Account>, lines: seq<ManualLine>, firstId: nat, a: nat, side: Side)
    requires Resolvable(accounts, Symbolic(lines))
    ensures LinesOn(StoredLines(accounts, Symbolic(lines), firstId), a, side) == ManualOn(lines, a, side)
  {
    if lines != [] {
      var n := |lines| - 1;
      assert Symbolic(lines)[..n] == Symbolic(lines[..n]);
      StoredAppend(accounts, Symbolic(lines), firstId);
      StoredManual(accounts, lines[..n], firstId, a, side);
      LinesOnAppend(StoredLines(accounts, Symbolic(lines[..n]), firstId), StoredLine(accounts, Symbolic(lines)[n], firstId + n), a, side);
      assert Resolve(accounts, Symbolic(lines)[n].target).Some?;
    }
  }

  lemma {:induction false} StoredDocument(accounts: seq<Account>, lines: seq<PostingLine>, firstId: nat, a: nat, side: Side)
    requires ValidChart(accounts) && Resolvable(accounts, lines) && ByRole(lines) && a < |accounts|
    ensures LinesOn(StoredLines(accounts, lines, firstId), a, side)
         == if accounts[a].system.Some? then DocumentOn(lines, accounts[a].system.value, side) else 0
  {
    if lines != [] {
      var n := |lines| - 1;
      StoredAppend(accounts, lines, firstId);
      StoredDocument(accounts, lines[..n], firstId, a, side);
      LinesOnAppend(StoredLines(accounts, lines[..n], firstId), StoredLine(accounts, lines[n], firstId + n), a, side);
      RoleIsAccount(accounts, lines[n].target.code, a);
    }
  }

  /** A role resolves to the account that carries it. */
  lemma RoleIsAccount(accounts: seq<Account>, code: SystemCode, a: nat)
    requires ValidChart(accounts) && a < |accounts| && Resolve(accounts, Role(code)).Some?
    ensures Resolve(accounts, Role(code)) == Some(a) <==> accounts[a].system == Some(code)
  {
    var f := FindSystem(accounts, code).value;
    assert f != a ==> accounts[f].system != accounts[a].system;
  }

  // ---------------------------------------------------------------- what the journal shows

  lemma MovementAppend(entries: seq<Entry>, e: Entry, a: nat, side: Side, start: int, end: int)
    ensures Movement(entries + [e], a, side, start, end)
         == Movement(entries, a, side, start, end) + if Counts(e, start, end) then LinesOn(e.lines, a, side) else 0
  {
    assert (entries + [e])[..|entries|] == entries;
  }

  lemma PostedMoves(b: Books, q: PostRequest, a: nat, side: Side, start: int, end: int)
    requires PostError(b, q).None?
    ensures Movement(PostTo(b, q).books.entries, a, side, start, end)
         == Movement(b.entries, a, side, start, end)
            + if start <= q.date <= end then LinesOn(StoredLines(b.accounts, q.lines, LineCount(b.entries)), a, side) else 0
  {
    MovementAppend(b.entries, NewEntry(b, q), a, side, start, end);
  }

  /**
   An accepted manual entry moves every account, on each side, by the given amounts on it as they are
   stored, over the ranges that hold its date, and by nothing over any other. A refused one leaves no trace.
   */
  lemma ManualMoves(b: Books, clock: Clock, date: int, lines: seq<ManualLine>, mayPostClosed: bool,
      a: nat, side: Side, start: int, end: int)
    requires ValidClock(clock)
    ensures var o := PostManual(b, clock, date, lines, mayPostClosed);
            && (o.result.Failure? ==> o.books == b)
            && (o.result.Success? ==>
                  Movement(o.books.entries, a, side, start, end)
                  == Movement(b.entries, a, side, start, end) + if start <= date <= end then ManualOn(lines, a, side) else 0)
  {
    var o := PostManual(b, clock, date, lines, mayPostClosed);
    if o.result.Success? {
      var b1 := Bootstrap(b, clock);
      PostedMoves(b1, ManualRequest(b1, date, lines, mayPostClosed), a, side, start, end);
      StoredManual(b1.accounts, lines, LineCount(b1.entries), a, side);
    }
  }

  /** A new manual entry never meets an old source. */
  lemma ManualSourceFree(b: Books)
    requires ValidBooks(b)
    ensures SourceFree(b.entries, Manual(|b.entries|))
  {
    forall i | 0 <= i < |b.entries| ensures b.entries[i].source != Manual(|b.entries|) {
      assert ValidEntry(b, i);
    }
  }

  /**
   A manual entry is accepted exactly when each of its accounts exists, is active and postable, its amounts
   pass both layers, and its period accepts it.
   */
  lemma ManualAcceptedIff(b: Books, clock: Clock, date: int, lines: seq<ManualLine>, mayPostClosed: bool)
    requires Sound(b) && ValidClock(clock)
    ensures var b1 := Bootstrap(b, clock);
            PostManual(b, clock, date, lines, mayPostClosed).result.Success? <==>
              && (forall i | 0 <= i < |lines| ::
                    lines[i].account < |b1.accounts| && b1.accounts[lines[i].account].postable && b1.accounts[lines[i].account].active)
              && Postable(Symbolic(lines)) && PeriodAccepts(b1.periods, date, mayPostClosed)
  {
    var b1 := Bootstrap(b, clock);
    BootstrapKeeps(b, clock);
    ManualSourceFree(b1);
    ManualAcceptedIn(b1, date, lines, mayPostClosed);
  }

  lemma ManualAcceptedIn(b: Books, date: int, lines: seq<ManualLine>, mayPostClosed: bool)
    requires SourceFree(b.entries, Manual(|b.entries|))
    ensures PostManualTo(b, date, lines, mayPostClosed).result.Success? <==>
              && (forall i | 0 <= i < |lines| ::
                    lines[i].account < |b.accounts| && b.accounts[lines[i].account].postable && b.accounts[lines[i].account].active)
              && Postable(Symbolic(lines)) && PeriodAccepts(b.periods, date, mayPostClosed)
  {
    var symbolic := Symbolic(lines);
    if forall i | 0 <= i < |lines| :: lines[i].account < |b.accounts| {
      assert forall i | 0 <= i < |lines| :: Resolve(b.accounts, symbolic[i].target) == Some(lines[i].account);
    }
  }

  /**
   An accepted document moves the account of each role it names by its amounts on that role as they are
   stored, over the ranges that hold its date; accounts without a role, and other ranges, not at all.
   */
  lemma DocumentMoves(b: Books, clock: Clock, q: PostRequest, a: nat, side: Side, start: int, end: int)
    requires Sound(b) && ValidClock(clock) && ByRole(q.lines)
    ensures var o := Post(b, clock, q);
            && (o.result.Failure? ==> o.books == b)
            && (o.result.Success? && a < |o.books.accounts| ==>
                  var system := o.books.accounts[a].system;
                  Movement(o.books.entries, a, side, start, end)
                  == Movement(b.entries, a, side, start, end)
                     + if start <= q.date <= end && system.Some? then DocumentOn(q.lines, system.value, side) else 0)
  {
    var o := Post(b, clock, q);
    BootstrapKeeps(b, clock);
    if o.result.Success? && a < |o.books.accounts| {
      var b1 := Bootstrap(b, clock);
      PostedMoves(b1, q, a, side, start, end);
      StoredDocument(b1.accounts, q.lines, LineCount(b1.entries), a, side);
    }
  }

  // ---------------------------------------------------------------- reversal

  function Other(side: Side): (r: Side) {
    if side == Debit then Credit else Debit
  }

  lemma {:induction false} StoredSwapped(accounts: seq<Account>, lines: seq<Line>, firstId: nat, a: nat, side: Side)
    requires Resolvable(accounts, Swapped(lines))
    ensures LinesOn(StoredLines(accounts, Swapped(lines), firstId), a, side) == LinesOn(lines, a, Other(side))
  {
    if lines != [] {
      var n := |lines| - 1;
      assert Swapped(lines)[..n] == Swapped(lines[..n]);
      StoredAppend(accounts, Swapped(lines), firstId);
      StoredSwapped(accounts, lines[..n], firstId, a, side);
      LinesOnAppend(StoredLines(accounts, Swapped(lines[..n]), firstId), StoredLine(accounts, Swapped(lines)[n], firstId + n), a, side);
      assert Resolve(accounts, Swapped(lines)[n].target).Some?;
      StoredWhole(lines[n].debit);
      StoredWhole(lines[n].credit);
    }
  }

  lemma {:induction false} MarkingMovesNothing(x: seq<Entry>, y: seq<Entry>, a: nat, side: Side, start: int, end: int)
    requires |x| == |y| && forall i | 0 <= i < |x| :: x[i].lines == y[i].lines && x[i].date == y[i].date && x[i].status == y[i].status
    ensures Movement(x, a, side, start, end) == Movement(y, a, side, start, end)
  {
    if x != [] {
      MarkingMovesNothing(x[..|x| - 1], y[..|y| - 1], a, side, start, end);
    }
  }

  lemma ReversalMovesIn(b: Books, original: nat, date: int, mayPostClosed: bool, a: nat, side: Side, start: int, end: int)
    requires ReverseIn(b, original, date, mayPostClosed).result.Success?
    ensures original < |b.entries|
    ensures Movement(ReverseIn(b, original, date, mayPostClosed).books.entries, a, side, start, end)
         == Movement(b.entries, a, side, start, end)
            + if start <= date <= end then LinesOn(b.entries[original].lines, a, Other(side)) else 0
  {
    var q := ReversalRequest(b, original, date, mayPostClosed);
    var e := NewEntry(b, q);
    MovementAppend(b.entries, e, a, side, start, end);
    StoredSwapped(b.accounts, b.entries[original].lines, LineCount(b.entries), a, side);
    MarkingMovesNothing(Linked(b.entries, original, e), b.entries + [e], a, side, start, end);
  }

  /** An accepted reversal moves every account by what its original shows on the other side, over the ranges that hold its own date. */
  lemma ReversalMoves(b: Books, clock: Clock, original: nat, date: int, mayPostClosed: bool, a: nat, side: Side, start: int, end: int)
    requires ValidClock(clock)
    ensures var o := Reverse(b, clock, original, date, mayPostClosed);
            if o.result.Failure? then o.books == b
            else
              && original < |b.entries|
              && Movement(o.books.entries, a, side, start, end)
                 == Movement(b.entries, a, side, start, end)
                    + (if start <= date <= end then LinesOn(b.entries[original].lines, a, Other(side)) else 0)
  {
    if Reverse(b, clock, original, date, mayPostClosed).result.Success? {
      ReversalMovesIn(Bootstrap(b, clock), original, date, mayPostClosed, a, side, start, end);
    }
  }
}
