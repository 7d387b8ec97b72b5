/** Exactly when periods and accounts are created and periods move on, and whom a period lets post. */
module PeriodRules {
  import opened Prelude
  import opened Posting
  import opened Chart
  import opened Calendar
  import opened Ledger
  import opened LedgerInvariant

  predicate SharesDay(p: Period, start: int, end: int) {
    exists day | Within(p, day) :: start <= day <= end
  }

  lemma SharesDayIff(p: Period, start: int, end: int)
    requires p.start <= p.end && start <= end
    ensures SharesDay(p, start, end) <==> Overlaps(p, Period(start, end, Open))
  {
    var day := if p.start < start then start else p.start;
    assert Overlaps(p, Period(start, end, Open)) ==> Within(p, day) && start <= day <= end;
  }

  /**
   A period is created exactly when its range is ordered and shares no day with another; it is then open,
   and it is the period of each of its days. The two refusals are told apart.
   */
  lemma CreatePeriodIff(b: Books, start: int, end: int)
    requires ValidPeriods(b.periods)
    ensures var o := AddPeriodTo(b, start, end);
            var shared := exists i | 0 <= i < |b.periods| :: SharesDay(b.periods[i], start, end);
            && (o.result == Failure(InvalidDateRange) <==> end < start)
            && (o.result == Failure(PeriodOverlap) <==> start <= end && shared)
            && (o.result == Success(|b.periods|) <==> start <= end && !shared)
            && (o.result.Failure? ==> o.books == b)
            && (o.result.Success? ==>
                  && o.books.periods == b.periods + [Period(start, end, Open)]
                  && forall day | start <= day <= end :: PeriodFor(o.books.periods, day) == Some(|b.periods|))
  {
    if start <= end {
      forall i | 0 <= i < |b.periods| ensures SharesDay(b.periods[i], start, end) <==> Overlaps(b.periods[i], Period(start, end, Open)) {
        SharesDayIff(b.periods[i], start, end);
      }
      var o := AddPeriodTo(b, start, end);
      if o.result.Success? {
        forall day | start <= day <= end ensures PeriodFor(o.books.periods, day) == Some(|b.periods|) {
          NewPeriodFound(b.periods, Period(start, end, Open), day);
        }
      }
    }
  }

  lemma NewPeriodFound(periods: seq<Period>, p: Period, day: int)
    requires Within(p, day) && forall i | 0 <= i < |periods| :: !Overlaps(periods[i], p)
    ensures PeriodFor(periods + [p], day) == Some(|periods|)
  {
    var all := periods + [p];
    assert all[|periods|] == p;
    assert forall i | 0 <= i < |periods| :: all[i] == periods[i] && !Within(all[i], day);
  }

  /** A status changes exactly from open to closed and from closed to locked; nothing else about any period does. */
  lemma ChangeStatusIff(b: Books, p: nat, status: PeriodStatus)
    ensures var o := ChangePeriodStatus(b, p, status);
            && (o.result == Failure(NotFound) <==> |b.periods| <= p)
            && (o.result.Success? <==>
                  && p < |b.periods|
                  && ((b.periods[p].status == Open && status == Closed) || (b.periods[p].status == Closed && status == Locked)))
            && (o.result.Failure? ==> o.books == b)
            && (o.result.Success? ==>
                  && o.books.periods[p] == Period(b.periods[p].start, b.periods[p].end, status) && |o.books.periods| == |b.periods|
                  && forall i | 0 <= i < |b.periods| && i != p :: o.books.periods[i] == b.periods[i])
  {
  }

  lemma StepThroughClosed(b: Books, c: Call, p: nat)
    requires Sound(b) && ValidCall(c) && p < |b.periods|
    ensures p < |Step(b, c).periods|
    ensures b.periods[p].status == Open ==> Step(b, c).periods[p].status != Locked
  {
    StepKeeps(b, c);
    if !c.SetStatus? {
      BootstrapKeeps(b, c.clock);
    }
  }

  /** After the first `n` calls the period was closed. */
  ghost predicate ClosedAfter(b: Books, calls: seq<Call>, n: nat, p: nat)
    requires n <= |calls| && forall i | 0 <= i < |calls| :: ValidCall(calls[i])
  {
    p < |Run(b, calls[..n]).periods| && Run(b, calls[..n]).periods[p].status == Closed
  }

  lemma ClosedAfterLonger(b: Books, calls: seq<Call>, p: nat)
    requires calls != [] && forall i | 0 <= i < |calls| :: ValidCall(calls[i])
    ensures forall n: nat | n <= |calls| - 1 :: ClosedAfter(b, calls[..|calls| - 1], n, p) ==> ClosedAfter(b, calls, n, p)
  {
    assert forall n | 0 <= n <= |calls| - 1 :: calls[..|calls| - 1][..n] == calls[..n];
  }

  lemma LastStep(b: Books, calls: seq<Call>, p: nat)
    requires Sound(b) && calls != [] && forall i | 0 <= i < |calls| :: ValidCall(calls[i])
    requires p < |b.periods|
    ensures var before := Run(b, calls[..|calls| - 1]);
            && p < |before.periods| && p < |Run(b, calls).periods|
            && (before.periods[p].status == Open ==> Run(b, calls).periods[p].status != Locked)
  {
    var init := calls[..|calls| - 1];
    RunKeeps(b, init);
    StepThroughClosed(Run(b, init), calls[|calls| - 1], p);
  }

  /** A period that was open and is locked was closed in between. */
  lemma {:induction false} ThroughClosed(b: Books, calls: seq<Call>, p: nat)
    requires Sound(b) && forall i | 0 <= i < |calls| :: ValidCall(calls[i])
    requires p < |b.periods| && b.periods[p].status == Open
    ensures p < |Run(b, calls).periods|
    ensures Run(b, calls).periods[p].status == Locked ==> exists n: nat | n <= |calls| :: ClosedAfter(b, calls, n, p)
  {
    if calls != [] {
      var init := calls[..|calls| - 1];
      LastStep(b, calls, p);
      ThroughClosed(b, init, p);
      ClosedAfterLonger(b, calls, p);
      if Run(b, init).periods[p].status == Closed {
        assert ClosedAfter(b, calls, |calls| - 1, p);
      } else if Run(b, init).periods[p].status == Locked {
        var n: nat :| n <= |init| && ClosedAfter(b, init, n, p);
        assert ClosedAfter(b, calls, n, p);
      }
    }
  }

  /**
   The period gate: a balanced request is refused for its period exactly when no period contains its date,
   or the one that does is locked, or it is closed and the caller may not post to closed periods.
   */
  lemma PeriodGateIff(b: Books, q: PostRequest)
    requires ValidPeriods(b.periods)
    ensures ServiceError(b, q) == Some(PeriodClosed) <==>
              && ServiceBalanced(q.lines)
              && ((forall i | 0 <= i < |b.periods| :: !(b.periods[i].start <= q.date <= b.periods[i].end))
                  || exists i | 0 <= i < |b.periods| ::
                       && b.periods[i].start <= q.date <= b.periods[i].end
                       && (b.periods[i].status == Locked || (b.periods[i].status == Closed && !q.mayPostClosed)))
  {
    var found := PeriodFor(b.periods, q.date);
    if found.Some? {
      forall i | 0 <= i < |b.periods| && Within(b.periods[i], q.date) ensures i == found.value {
        assert i != found.value ==> Overlaps(b.periods[i], b.periods[found.value]);
      }
    }
  }

  /** A tenant can post on its first day. */
  lemma FirstDayAccepts(clock: Clock)
    requires ValidClock(clock)
    ensures PeriodAccepts(Bootstrap(EMPTY_BOOKS, clock).periods, DayNumber(clock.today), false)
  {
    FirstFiscalYear(clock);
    var first := FirstPeriod(clock);
    assert Bootstrap(EMPTY_BOOKS, clock).periods == [first];
    NewPeriodFound([], first, DayNumber(clock.today));
    assert [] + [first] == [first];
  }

  // ---------------------------------------------------------------- accounts

  /**
   An account is created exactly when its parent, if it names one, exists and is of its type, and its code
   is free. It is then found under its code, active, of the given type and place, a line may go to it if
   and only if it was asked to be postable, and to its parent no longer.
   */
  lemma CreateAccountIff(b: Books, a: NewAccount)
    ensures var o := AddAccountTo(b, a);
            var orphan := a.parent.Some? && |b.accounts| <= a.parent.value;
            var mismatched := a.parent.Some? && a.parent.value < |b.accounts| && b.accounts[a.parent.value].kind != a.kind;
            var taken := exists i | 0 <= i < |b.accounts| :: b.accounts[i].code == a.code;
            && (o.result == Failure(NotFound) <==> orphan)
            && (o.result == Failure(AccountTypeMismatch) <==> mismatched)
            && (o.result == Failure(DuplicateResource) <==> !orphan && !mismatched && taken)
            && (o.result == Success(|b.accounts|) <==> !orphan && !mismatched && !taken)
            && (o.result.Failure? ==> o.books == b)
            && (o.result.Success? ==> Created(b, a, o.books))
  {
    var o := AddAccountTo(b, a);
    assert a.code in Codes(b.accounts) <==> exists i | 0 <= i < |b.accounts| :: b.accounts[i].code == a.code;
    if o.result.Success? {
      var accounts, n := o.books.accounts, |b.accounts|;
      forall debit, credit ensures HitsPostable(accounts, [PostingLine(Direct(n), debit, credit)]) <==> a.postable {
        OneLine(accounts, n, debit, credit);
      }
      if a.parent.Some? {
        assert accounts[n].parent == a.parent;
        forall debit, credit ensures !HitsPostable(accounts, [PostingLine(Direct(a.parent.value), debit, credit)]) {
          OneLine(accounts, a.parent.value, debit, credit);
        }
      }
      assert forall i | 0 <= i < |b.accounts| :: accounts[i].code == b.accounts[i].code;
      assert accounts[|b.accounts|].code == a.code;
      assert a.code in Codes(accounts);
    }
  }

  lemma OneLine(accounts: seq<Account>, n: nat, debit: real, credit: real)
    requires n < |accounts|
    ensures HitsPostable(accounts, [PostingLine(Direct(n), debit, credit)]) <==> accounts[n].postable && accounts[n].active
  {
    var lines := [PostingLine(Direct(n), debit, credit)];
    assert Resolve(accounts, lines[0].target) == Some(n);
  }

  ghost predicate Created(b: Books, a: NewAccount, b': Books) {
    var n := |b.accounts|;
    && |b'.accounts| == n + 1 && FindCode(b'.accounts, a.code) == Some(n)
    && b'.accounts[n].kind == a.kind && b'.accounts[n].parent == a.parent
    && (forall debit, credit :: HitsPostable(b'.accounts, [PostingLine(Direct(n), debit, credit)]) <==> a.postable)
    && (a.parent.Some? ==>
          && HasChild(b'.accounts, a.parent.value)
          && forall debit, credit :: !HitsPostable(b'.accounts, [PostingLine(Direct(a.parent.value), debit, credit)]))
    && (forall i | 0 <= i < n && a.parent != Some(i) :: b'.accounts[i] == b.accounts[i])
  }
}
