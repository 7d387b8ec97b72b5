/**
 The accounting service as it runs: rows changed one by one inside a transaction, sums taken by
 loops, and a rollback when anything raises. Each method is proved to do to the tables exactly what
 its counterpart in `Ledger` says.
 */
module AccountingService {
  import opened Prelude
  import opened Posting
  import opened Chart
  import opened Calendar
  import Ledger
  import LedgerInvariant

  type Result = Prelude.Result<nat, Ledger.Error>

  /** The totals of the service layer, summed line by line. */
  method SumLines(lines: seq<PostingLine>) returns (debit: real, credit: real)
    ensures debit == Total(lines, Debit) && credit == Total(lines, Credit)
  {
    debit, credit := 0.0, 0.0;
    for i := 0 to |lines|
      invariant debit == Total(lines[..i], Debit) && credit == Total(lines[..i], Credit)
    {
      assert lines[..i + 1][..i] == lines[..i];
      debit, credit := debit + lines[i].debit, credit + lines[i].credit;
    }
    assert lines[..|lines|] == lines;
  }

  /** A dictionary from code to id that agrees with looking the code up. */
  ghost predicate Indexed(ids: map<Code, nat>, accounts: seq<Account>) {
    forall c :: FindCode(accounts, c) == if c in ids then Some(ids[c]) else None
  }

  lemma IndexedAppend(ids: map<Code, nat>, accounts: seq<Account>, a: Account)
    requires Indexed(ids, accounts)
    ensures Indexed(ids[a.code := |accounts|], accounts + [a])
  {
    assert (accounts + [a])[..|accounts|] == accounts;
  }

  class Service {
    var accounts: seq<Account>
    var hasJournal: bool
    var periods: seq<Ledger.Period>
    var entries: seq<Ledger.Entry>

    ghost function State(): (b: Ledger.Books)
      reads this
    {
      Ledger.Books(accounts, hasJournal, periods, entries)
    }

    constructor ()
      ensures State() == Ledger.EMPTY_BOOKS
    {
      accounts, hasJournal, periods, entries := [], false, [], [];
    }

    method Restore(b: Ledger.Books)
      modifies this
      ensures State() == b
    {
      accounts, hasJournal, periods, entries := b.accounts, b.hasJournal, b.periods, b.entries;
    }

    method Bootstrap(clock: Clock)
      requires ValidClock(clock)
      modifies this
      ensures State() == Ledger.Bootstrap(old(State()), clock)
    {
      var rows := DEFAULT_ACCOUNTS;
      AddMissing(rows);
      if !hasJournal {
        hasJournal := true;
        periods := periods + [Ledger.FirstPeriod(clock)];
      }
    }

    /** The back-fill loop: `existing` is fixed before it, `ids` grows with it. */
    method AddMissing(rows: seq<DefaultRow>)
      modifies this`accounts
      ensures accounts == Backfill(Codes(old(accounts)), rows, old(accounts))
    {
      var existing := Codes(accounts);
      var ids: map<Code, nat> := map[];
      for k := 0 to |accounts|
        invariant accounts == old(accounts)
        invariant Indexed(ids, accounts[..k])
      {
        assert accounts[..k + 1] == accounts[..k] + [accounts[k]];
        IndexedAppend(ids, accounts[..k], accounts[k]);
        ids := ids[accounts[k].code := k];
      }
      assert accounts[..|accounts|] == accounts;
      for k := 0 to |rows|
        invariant accounts == Backfill(existing, rows[..k], old(accounts))
        invariant Indexed(ids, accounts)
      {
        var row := rows[k];
        assert rows[..k + 1][..k] == rows[..k];
        if row.code !in existing {
          var parent := if row.parentCode.Some? && row.parentCode.value in ids then Some(ids[row.parentCode.value]) else None;
          var account := Account(row.code, row.kind, parent, row.postable, row.system, true);
          assert account == FromDefault(accounts, row);
          IndexedAppend(ids, accounts, account);
          ids := ids[row.code := |accounts|];
          accounts := accounts + [account];
        }
      }
      assert rows[..|rows|] == rows;
    }

    method CreateAccount(clock: Clock, a: Ledger.NewAccount) returns (r: Result)
      requires ValidClock(clock)
      modifies this
      ensures Ledger.Outcome(State(), r) == Ledger.CreateAccount(old(State()), clock, a)
    {
      var saved := Ledger.Books(accounts, hasJournal, periods, entries);
      Bootstrap(clock);
      if a.parent.Some? {
        var p := a.parent.value;
        if p >= |accounts| {
          Restore(saved);
          return Failure(Ledger.NotFound);
        }
        if accounts[p].kind != a.kind {
          Restore(saved);
          return Failure(Ledger.AccountTypeMismatch);
        }
        accounts := accounts[p := accounts[p].(postable := false)];
        SameCodes(Ledger.Bootstrap(saved, clock).accounts, a.parent);
      }
      if a.code in Codes(accounts) {
        Restore(saved);
        return Failure(Ledger.DuplicateResource);
      }
      accounts := accounts + [Account(a.code, a.kind, a.parent, a.postable, None, true)];
      return Success(|accounts| - 1);
    }

    method CreatePeriod(clock: Clock, start: int, end: int) returns (r: Result)
      requires ValidClock(clock)
      modifies this
      ensures Ledger.Outcome(State(), r) == Ledger.CreatePeriod(old(State()), clock, start, end)
    {
      if end < start {
        return Failure(Ledger.InvalidDateRange);
      }
      var saved := Ledger.Books(accounts, hasJournal, periods, entries);
      Bootstrap(clock);
      var p := Ledger.Period(start, end, Ledger.Open);
      for i := 0 to |periods|
        invariant State() == Ledger.Bootstrap(saved, clock)
        invariant forall j | 0 <= j < i :: !Ledger.Overlaps(periods[j], p)
      {
        if Ledger.Overlaps(periods[i], p) {
          Restore(saved);
          return Failure(Ledger.PeriodOverlap);
        }
      }
      periods := periods + [p];
      return Success(|periods| - 1);
    }

    method ChangePeriodStatus(p: nat, status: Ledger.PeriodStatus) returns (r: Result)
      modifies this`periods
      ensures Ledger.Outcome(State(), r) == Ledger.ChangePeriodStatus(old(State()), p, status)
    {
      if p >= |periods| {
        return Failure(Ledger.NotFound);
      }
      var next := match periods[p].status
        case Open => Some(Ledger.Closed)
        case Closed => Some(Ledger.Locked)
        case Locked => None;
      if next != Some(status) {
        return Failure(Ledger.IllegalStatusTransition);
      }
      periods := periods[p := periods[p].(status := status)];
      return Success(p);
    }

    /** The service layer's checks, in order, on bootstrapped books. */
    method Screen(q: Ledger.PostRequest) returns (error: Option<Ledger.Error>, period: nat, ids: seq<nat>)
      ensures error == Ledger.ServiceError(State(), q)
      ensures error.None? ==>
                && Ledger.PeriodFor(periods, q.date) == Some(period)
                && |ids| == |q.lines|
                && (forall i | 0 <= i < |ids| :: Ledger.Resolve(accounts, q.lines[i].target) == Some(ids[i]))
    {
      period, ids := 0, [];
      var debit, credit := SumLines(q.lines);
      if q.lines == [] || debit != credit || debit == 0.0 {
        return Some(Ledger.UnbalancedJournal), 0, [];
      }
      var found := Ledger.PeriodFor(periods, q.date);
      if found.None? {
        return Some(Ledger.PeriodClosed), 0, [];
      }
      period := found.value;
      var status := periods[period].status;
      if status.Locked? || (status.Closed? && !q.mayPostClosed) {
        return Some(Ledger.PeriodClosed), 0, [];
      }
      for i := 0 to |q.lines|
        invariant |ids| == i
        invariant forall j | 0 <= j < i :: Ledger.Resolve(accounts, q.lines[j].target) == Some(ids[j])
      {
        var a := Ledger.Resolve(accounts, q.lines[i].target);
        if a.None? {
          return Some(Ledger.SystemAccountMissing), 0, [];
        }
        ids := ids + [a.value];
      }
      for i := 0 to |ids|
        invariant forall j | 0 <= j < i :: accounts[ids[j]].postable && accounts[ids[j]].active
      {
        if !accounts[ids[i]].postable || !accounts[ids[i]].active {
          return Some(Ledger.AccountNotPostable), 0, [];
        }
      }
      error := None;
    }

    /** Write the line rows one by one, stopping at the first the check constraint refuses. */
    method InsertLines(lines: seq<PostingLine>, ids: seq<nat>, firstId: nat)
      returns (ok: bool, rows: seq<Ledger.Line>, d: int, c: int)
      requires |ids| == |lines|
      requires forall i | 0 <= i < |ids| :: Ledger.Resolve(accounts, lines[i].target) == Some(ids[i])
      ensures ok <==> forall i | 0 <= i < |lines| :: StorableLine(lines[i])
      ensures ok ==> rows == Ledger.StoredLines(accounts, lines, firstId)
      ensures ok ==> d == StoredTotal(lines, Debit) && c == StoredTotal(lines, Credit)
    {
      rows, d, c := [], 0, 0;
      for i := 0 to |lines|
        invariant forall j | 0 <= j < i :: StorableLine(lines[j])
        invariant |rows| == i
        invariant forall j | 0 <= j < i :: rows[j] == Ledger.StoredLine(accounts, lines[j], firstId + j)
        invariant d == StoredTotal(lines[..i], Debit) && c == StoredTotal(lines[..i], Credit)
      {
        var row := Ledger.Line(firstId + i, ids[i], Stored(lines[i].debit), Stored(lines[i].credit));
        if !Fits(row.debit) || !Fits(row.credit) || !OneSided(row.debit, row.credit) {
          assert !StorableLine(lines[i]);
          return false, [], 0, 0;
        }
        rows := rows + [row];
        assert lines[..i + 1][..i] == lines[..i];
        d, c := d + row.debit, c + row.credit;
      }
      assert lines[..|lines|] == lines;
      ok := true;
    }

    /** Insert a draft, its lines one by one, then mark it posted; constraints and trigger may refuse. */
    method Insert(q: Ledger.PostRequest, period: nat, ids: seq<nat>) returns (error: Option<Ledger.Error>)
      requires Ledger.ServiceError(State(), q).None? && Ledger.PeriodFor(periods, q.date) == Some(period)
      requires |ids| == |q.lines|
      requires forall i | 0 <= i < |ids| :: Ledger.Resolve(accounts, q.lines[i].target) == Some(ids[i])
      modifies this`entries
      ensures error == Ledger.PostError(old(State()), q)
      ensures error.None? ==> entries == old(entries) + [Ledger.NewEntry(old(State()), q)]
    {
      var debit, credit := SumLines(q.lines);
      var totalDebit, totalCredit := Stored(debit), Stored(credit);
      for i := 0 to |entries|
        invariant forall j | 0 <= j < i :: entries[j].source != q.source
      {
        if entries[i].source == q.source {
          return Some(Ledger.StorageRejected);
        }
      }
      if !Fits(totalDebit) || !Fits(totalCredit) || totalDebit < 0 || totalCredit < 0 {
        return Some(Ledger.StorageRejected);
      }
      var draft := Ledger.Entry(period, q.date, Ledger.Draft, q.source, totalDebit, totalCredit, [], None, None);
      var ok, lines, d, c := InsertLines(q.lines, ids, Ledger.LineCount(entries));
      if !ok {
        return Some(Ledger.StorageRejected);
      }
      if d != c || d != totalDebit || c != totalCredit || d == 0 {
        return Some(Ledger.TriggerUnbalanced);
      }
      entries := entries + [draft.(lines := lines, status := Ledger.Posted)];
      return None;
    }

    method Post(clock: Clock, q: Ledger.PostRequest) returns (r: Result)
      requires ValidClock(clock)
      modifies this
      ensures Ledger.Outcome(State(), r) == Ledger.Post(old(State()), clock, q)
    {
      var saved := Ledger.Books(accounts, hasJournal, periods, entries);
      Bootstrap(clock);
      var error, period, ids := Screen(q);
      if error.None? {
        error := Insert(q, period, ids);
      }
      if error.Some? {
        Restore(saved);
        return Failure(error.value);
      }
      return Success(|entries| - 1);
    }

    method PostManual(clock: Clock, date: int, lines: seq<Ledger.ManualLine>, mayPostClosed: bool) returns (r: Result)
      requires ValidClock(clock)
      modifies this
      ensures Ledger.Outcome(State(), r) == Ledger.PostManual(old(State()), clock, date, lines, mayPostClosed)
    {
      var saved := Ledger.Books(accounts, hasJournal, periods, entries);
      Bootstrap(clock);
      ghost var b := State();
      for i := 0 to |lines|
        invariant State() == b
        invariant forall j | 0 <= j < i :: lines[j].account < |accounts|
      {
        if lines[i].account >= |accounts| {
          Restore(saved);
          return Failure(Ledger.NotFound);
        }
      }
      var symbolic := Ledger.Symbolic(lines);
      for i := 0 to |lines|
        invariant State() == b
        invariant forall j | 0 <= j < i :: accounts[lines[j].account].postable && accounts[lines[j].account].active
      {
        if !accounts[lines[i].account].postable || !accounts[lines[i].account].active {
          assert Ledger.Resolve(accounts, symbolic[i].target) == Some(lines[i].account);
          Restore(saved);
          return Failure(Ledger.AccountNotPostable);
        }
      }
      var debit, credit := SumLines(symbolic);
      if debit != credit || debit == 0.0 {
        Restore(saved);
        return Failure(Ledger.UnbalancedJournal);
      }
      LedgerInvariant.BootstrapIdempotent(saved, clock, clock);
      r := Post(clock, Ledger.PostRequest(date, Ledger.Manual(|entries|), symbolic, mayPostClosed));
      if r.Failure? {
        Restore(saved);
      }
    }

    /** The lines of an entry read back, debit and credit exchanged. */
    method SwapLines(lines: seq<Ledger.Line>) returns (swapped: seq<PostingLine>)
      ensures swapped == Ledger.Swapped(lines)
    {
      swapped := [];
      for i := 0 to |lines|
        invariant swapped == Ledger.Swapped(lines[..i])
      {
        swapped := swapped + [PostingLine(Direct(lines[i].account), lines[i].credit as real, lines[i].debit as real)];
      }
      assert lines[..|lines|] == lines;
    }

    method Reverse(clock: Clock, original: nat, date: int, mayPostClosed: bool) returns (r: Result)
      requires ValidClock(clock)
      modifies this
      ensures Ledger.Outcome(State(), r) == Ledger.Reverse(old(State()), clock, original, date, mayPostClosed)
    {
      if original >= |entries| {
        return Failure(Ledger.NotFound);
      }
      if entries[original].reversedBy.Some? {
        return Failure(Ledger.EntryAlreadyReversed);
      }
      if date < entries[original].date {
        return Failure(Ledger.InvalidReversalDate);
      }
      var swapped := SwapLines(entries[original].lines);
      r := Post(clock, Ledger.PostRequest(date, Ledger.Reversal(original), swapped, mayPostClosed));
      ReversedByPost(old(State()), clock, original, date, mayPostClosed);
      if r.Success? {
        entries := entries[original := entries[original].(reversedBy := Some(r.value))];
        entries := entries[r.value := entries[r.value].(reversalOf := Some(original))];
      }
    }
  }

  /** A reversal is a posting of the swapped lines, then the two links. */
  lemma ReversedByPost(b: Ledger.Books, clock: Clock, original: nat, date: int, mayPostClosed: bool)
    requires ValidClock(clock) && original < |b.entries|
    requires b.entries[original].reversedBy.None? && b.entries[original].date <= date
    ensures var posted := Ledger.Post(b, clock, Ledger.ReversalRequest(b, original, date, mayPostClosed));
            var n := |b.entries|;
            if posted.result.Failure? then Ledger.Reverse(b, clock, original, date, mayPostClosed) == posted
            else
              && posted.result == Success(n) && |posted.books.entries| == n + 1
              && posted.books.entries[..n] == b.entries
              && Ledger.Reverse(b, clock, original, date, mayPostClosed)
                 == posted.(books := posted.books.(entries := Ledger.Linked(b.entries, original, posted.books.entries[n])))
  {
  }

  lemma SameCodes(accounts: seq<Account>, parent: Option<nat>)
    requires parent.Some? ==> parent.value < |accounts|
    ensures Codes(Demote(accounts, parent)) == Codes(accounts)
  {
    var r := Demote(accounts, parent);
    assert forall i | 0 <= i < |accounts| :: r[i].code == accounts[i].code;
  }
}
