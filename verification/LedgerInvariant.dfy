/**
 What every reachable set of books satisfies, and what every later set of books keeps of an earlier
 one. All run-level results about the ledger rest on the two predicates of this module.
 */
module LedgerInvariant {
  import opened Prelude
  import opened Posting
  import opened Chart
  import opened Calendar
  import opened Ledger

  // ---------------------------------------------------------------- the invariant

  function LineTotal(lines: seq<Line>, side: Side): (r: int) {
    if lines == [] then 0
    else
      var last := lines[|lines| - 1];
      LineTotal(lines[..|lines| - 1], side) + (if side.Debit? then last.debit else last.credit)
  }

  /** Line by line the same accounts with debit and credit exchanged. */
  predicate Mirrors(a: seq<Line>, b: seq<Line>) {
    && |a| == |b|
    && (forall k | 0 <= k < |a| :: a[k].account == b[k].account && a[k].debit == b[k].credit && a[k].credit == b[k].debit)
  }

  ghost predicate ValidLines(b: Books, i: nat)
    requires i < |b.entries|
  {
    var e := b.entries[i];
    && e.lines != []
    && (forall k | 0 <= k < |e.lines| ::
          && e.lines[k].id == LineCount(b.entries[..i]) + k
          && e.lines[k].account < |b.accounts|
          && OneSided(e.lines[k].debit, e.lines[k].credit)
          && Fits(e.lines[k].debit) && Fits(e.lines[k].credit))
  }

  ghost predicate ValidTotals(e: Entry) {
    && LineTotal(e.lines, Debit) == e.totalDebit
    && LineTotal(e.lines, Credit) == e.totalCredit
    && 0 < e.totalDebit == e.totalCredit < NUMERIC_LIMIT
  }

  /** Reversal links are mutually inverse, point forward in creation order, and never back in time. */
  ghost predicate ValidLinks(entries: seq<Entry>, i: nat)
    requires i < |entries|
  {
    var e := entries[i];
    && (e.reversedBy.Some? ==>
          var r := e.reversedBy.value;
          i < r < |entries| && entries[r].reversalOf == Some(i))
    && (e.reversalOf.Some? ==>
          var o := e.reversalOf.value;
          && o < i && entries[o].reversedBy == Some(i)
          && entries[o].date <= e.date && Mirrors(e.lines, entries[o].lines))
    && (match e.source
        case Document(_, _, _) => e.reversalOf.None?
        case Manual(n) => n == i && e.reversalOf.None?
        case Reversal(o) => e.reversalOf == Some(o))
  }

  ghost predicate ValidEntry(b: Books, i: nat)
    requires i < |b.entries|
  {
    var e := b.entries[i];
    && e.status.Posted?
    && e.period < |b.periods| && Within(b.periods[e.period], e.date)
    && ValidLines(b, i) && ValidTotals(e) && ValidLinks(b.entries, i)
  }

  /** The exclusion constraint and the range check on fiscal periods. */
  ghost predicate ValidPeriods(periods: seq<Period>) {
    && (forall i | 0 <= i < |periods| :: periods[i].start <= periods[i].end)
    && (forall i, j | 0 <= i < j < |periods| :: !Overlaps(periods[i], periods[j]))
  }

  ghost predicate UniqueSources(entries: seq<Entry>) {
    forall i, j | 0 <= i < j < |entries| :: entries[i].source != entries[j].source
  }

  ghost predicate ValidBooks(b: Books) {
    && ValidChart(b.accounts)
    && (b.hasJournal || (b.accounts == [] && b.periods == [] && b.entries == []))
    && ValidPeriods(b.periods)
    && (forall i | 0 <= i < |b.entries| :: ValidEntry(b, i))
    && UniqueSources(b.entries)
  }

  /** Once there is a journal, every default code and every system role is in the chart. */
  ghost predicate Bootstrapped(rows: seq<DefaultRow>, b: Books) {
    b.hasJournal ==> RowCodes(rows) <= Codes(b.accounts) && RowSystems(rows) <= Systems(b.accounts)
  }

  /** What holds of every reachable set of books. */
  ghost predicate Sound(b: Books) {
    ValidBooks(b) && Bootstrapped(DEFAULT_ACCOUNTS, b)
  }

  // ---------------------------------------------------------------- two-state invariant

  function StatusRank(s: PeriodStatus): (r: nat) {
    match s case Open => 0 case Closed => 1 case Locked => 2
  }

  /** Identity, type and place in the tree are fixed for good; only `postable` may be withdrawn. */
  ghost predicate AccountKept(a: Account, a': Account) {
    a' == a || a' == a.(postable := false)
  }

  ghost predicate PeriodKept(p: Period, p': Period) {
    p' == p.(status := p'.status) && StatusRank(p.status) <= StatusRank(p'.status)
  }

  /** The only thing that ever happens to an entry is to be marked reversed, once. */
  ghost predicate EntryKept(e: Entry, e': Entry) {
    e' == e || (e.reversedBy.None? && e' == e.(reversedBy := e'.reversedBy))
  }

  ghost predicate LockedDay(b: Books, day: int) {
    exists p | 0 <= p < |b.periods| :: b.periods[p].status.Locked? && Within(b.periods[p], day)
  }

  /** `b'` is a later state of `b`: rows only accumulate, and nothing new lands on a locked day. */
  ghost predicate Extends(b: Books, b': Books) {
    && |b.accounts| <= |b'.accounts|
    && (forall i | 0 <= i < |b.accounts| :: AccountKept(b.accounts[i], b'.accounts[i]))
    && |b.periods| <= |b'.periods|
    && (forall i | 0 <= i < |b.periods| :: PeriodKept(b.periods[i], b'.periods[i]))
    && |b.entries| <= |b'.entries|
    && (forall i | 0 <= i < |b.entries| :: EntryKept(b.entries[i], b'.entries[i]))
    && (forall i | |b.entries| <= i < |b'.entries| :: !LockedDay(b, b'.entries[i].date))
  }

  lemma LocksRemain(b: Books, b': Books, day: int)
    requires Extends(b, b')
    ensures LockedDay(b, day) ==> LockedDay(b', day)
  {
    if LockedDay(b, day) {
      var p :| 0 <= p < |b.periods| && b.periods[p].status.Locked? && Within(b.periods[p], day);
      assert PeriodKept(b.periods[p], b'.periods[p]);
    }
  }

  lemma ExtendsTransitive(b0: Books, b1: Books, b2: Books)
    requires Extends(b0, b1) && Extends(b1, b2)
    ensures Extends(b0, b2)
  {
    forall i | |b0.entries| <= i < |b2.entries| ensures !LockedDay(b0, b2.entries[i].date) {
      LocksRemain(b0, b1, b2.entries[i].date);
      if i < |b1.entries| {
        assert EntryKept(b1.entries[i], b2.entries[i]);
      }
    }
    forall i | 0 <= i < |b0.periods| ensures PeriodKept(b0.periods[i], b2.periods[i]) {
      assert PeriodKept(b0.periods[i], b1.periods[i]) && PeriodKept(b1.periods[i], b2.periods[i]);
    }
    forall i | 0 <= i < |b0.accounts| ensures AccountKept(b0.accounts[i], b2.accounts[i]) {
      assert AccountKept(b0.accounts[i], b1.accounts[i]) && AccountKept(b1.accounts[i], b2.accounts[i]);
    }
    forall i | 0 <= i < |b0.entries| ensures EntryKept(b0.entries[i], b2.entries[i]) {
      assert EntryKept(b0.entries[i], b1.entries[i]) && EntryKept(b1.entries[i], b2.entries[i]);
    }
  }

  /** Codes and roles in the chart stay in it. */
  lemma DefaultsRemain(rows: seq<DefaultRow>, b: Books, b': Books)
    requires Bootstrapped(rows, b) && Extends(b, b') && b.hasJournal
    ensures Bootstrapped(rows, b')
  {
    forall c | c in Codes(b.accounts) ensures c in Codes(b'.accounts) {
      var i :| 0 <= i < |b.accounts| && b.accounts[i].code == c;
      assert AccountKept(b.accounts[i], b'.accounts[i]);
    }
    forall c | c in Systems(b.accounts) ensures c in Systems(b'.accounts) {
      var i :| 0 <= i < |b.accounts| && b.accounts[i].system == Some(c);
      assert AccountKept(b.accounts[i], b'.accounts[i]);
    }
  }

  // ---------------------------------------------------------------- bootstrap

  lemma FirstPeriodOrdered(clock: Clock)
    requires ValidClock(clock)
    ensures FirstPeriod(clock).start <= FirstPeriod(clock).end
  {
    FirstFiscalYear(clock);
  }

  lemma BootstrapWithKeeps(rows: seq<DefaultRow>, b: Books, clock: Clock)
    requires WellFormedTable(rows) && ValidBooks(b) && Bootstrapped(rows, b) && ValidClock(clock)
    ensures var r := BootstrapWith(rows, b, clock);
            && ValidBooks(r) && Bootstrapped(rows, r) && Extends(b, r) && r.hasJournal && r.entries == b.entries
            && (b.hasJournal ==> r == b)
  {
    if b.hasJournal {
      BackfillDone(Codes(b.accounts), rows, b.accounts);
    } else {
      FirstPeriodOrdered(clock);
      FirstBootstrap(rows, b, FirstPeriod(clock));
    }
  }

  lemma FirstBootstrap(rows: seq<DefaultRow>, b: Books, p: Period)
    requires WellFormedTable(rows) && b.accounts == [] && b.periods == [] && b.entries == [] && p.start <= p.end
    ensures var r := Books(Backfill(Codes(b.accounts), rows, b.accounts), true, b.periods + [p], b.entries);
            ValidBooks(r) && Bootstrapped(rows, r) && Extends(b, r)
  {
    assert Codes(b.accounts) == {};
    FreshChart(rows);
  }

  /** The chart a tenant starts with. */
  lemma FreshChart(rows: seq<DefaultRow>)
    requires WellFormedTable(rows)
    ensures var r := Backfill({}, rows, []);
            ValidChart(r) && RowCodes(rows) <= Codes(r) && RowSystems(rows) <= Systems(r)
  {
    assert Codes([]) == {};
    BackfillKeepsChart(rows, []);
    BackfillAdds(rows, []);
    FreshBackfill(rows);
  }

  lemma BootstrapKeeps(b: Books, clock: Clock)
    requires Sound(b) && ValidClock(clock)
    ensures var r := Bootstrap(b, clock);
            && Sound(r) && Extends(b, r) && r.hasJournal && r.entries == b.entries
            && (b.hasJournal ==> r == b)
  {
    DefaultTableWellFormed();
    BootstrapWithKeeps(DEFAULT_ACCOUNTS, b, clock);
  }

  /** Bootstrapping twice, on whatever days, is bootstrapping once: for arbitrary books. */
  lemma BootstrapIdempotent(b: Books, clock: Clock, later: Clock)
    requires ValidClock(clock) && ValidClock(later)
    ensures Bootstrap(Bootstrap(b, clock), later) == Bootstrap(b, clock)
  {
    BackfillIdempotent(DEFAULT_ACCOUNTS, b.accounts);
  }

  // ---------------------------------------------------------------- accounts and periods

  /** Books whose entries did not change stay valid under kept accounts and periods. */
  lemma SameEntriesValid(b: Books, b': Books)
    requires ValidBooks(b) && Extends(b, b') && b'.entries == b.entries && b'.hasJournal
    requires ValidChart(b'.accounts) && ValidPeriods(b'.periods)
    ensures ValidBooks(b')
  {
    forall i | 0 <= i < |b'.entries| ensures ValidEntry(b', i) {
      assert ValidEntry(b, i);
      assert PeriodKept(b.periods[b.entries[i].period], b'.periods[b.entries[i].period]);
    }
  }

  lemma AddAccountKeeps(b: Books, a: NewAccount)
    requires ValidBooks(b) && b.hasJournal
    ensures var r := AddAccountTo(b, a).books; ValidBooks(r) && Extends(b, r)
  {
    var r := AddAccountTo(b, a);
    if r.result.Success? {
      NewAccountKeepsChart(b.accounts, Account(a.code, a.kind, a.parent, a.postable, None, true));
      SameEntriesValid(b, r.books);
    }
  }

  lemma AddPeriodKeeps(b: Books, start: int, end: int)
    requires ValidBooks(b) && b.hasJournal
    ensures var r := AddPeriodTo(b, start, end).books; ValidBooks(r) && Extends(b, r)
  {
    var r := AddPeriodTo(b, start, end);
    if r.result.Success? {
      SameEntriesValid(b, r.books);
    }
  }

  lemma ChangePeriodStatusKeeps(b: Books, p: nat, status: PeriodStatus)
    requires ValidBooks(b)
    ensures var r := ChangePeriodStatus(b, p, status).books; ValidBooks(r) && Extends(b, r)
  {
    var r := ChangePeriodStatus(b, p, status);
    if r.result.Success? {
      SameEntriesValid(b, r.books);
    }
  }

  // ---------------------------------------------------------------- posting

  lemma {:induction false} StoredLineTotals(accounts: seq<Account>, lines: seq<PostingLine>, firstId: nat, side: Side)
    requires Resolvable(accounts, lines)
    ensures LineTotal(StoredLines(accounts, lines, firstId), side) == StoredTotal(lines, side)
  {
    if lines != [] {
      var n := |lines| - 1;
      StoredLineTotals(accounts, lines[..n], firstId, side);
      assert StoredLines(accounts, lines, firstId)[..n] == StoredLines(accounts, lines[..n], firstId);
    }
  }

  /** The period of a day is the only one containing it, so an accepted day is not a locked one. */
  lemma AcceptedDayUnlocked(b: Books, day: int, mayPostClosed: bool)
    requires ValidPeriods(b.periods) && PeriodAccepts(b.periods, day, mayPostClosed)
    ensures !LockedDay(b, day)
  {
    var q := PeriodFor(b.periods, day).value;
    forall p | 0 <= p < |b.periods| && p != q ensures !Within(b.periods[p], day) {
      assert !Overlaps(b.periods[if p < q then p else q], b.periods[if p < q then q else p]);
    }
  }

  /** An accepted entry satisfies everything but the links and the source rule, which its caller owns. */
  lemma NewEntryValid(b: Books, q: PostRequest)
    requires ValidBooks(b) && PostError(b, q).None?
    ensures var e := NewEntry(b, q); var b' := b.(entries := b.entries + [e]);
            && ValidLines(b', |b.entries|) && ValidTotals(e)
            && e.period < |b.periods| && Within(b.periods[e.period], e.date)
  {
    var e := NewEntry(b, q);
    var b' := b.(entries := b.entries + [e]);
    StoredLineTotals(b.accounts, q.lines, LineCount(b.entries), Debit);
    StoredLineTotals(b.accounts, q.lines, LineCount(b.entries), Credit);
    assert b'.entries[..|b.entries|] == b.entries;
    forall k | 0 <= k < |e.lines|
      ensures OneSided(e.lines[k].debit, e.lines[k].credit) && Fits(e.lines[k].debit) && Fits(e.lines[k].credit)
    {
      assert StorableLine(q.lines[k]);
    }
  }

  /** Earlier entries do not notice an appended one. */
  lemma PrefixEntriesValid(b: Books, e: Entry, i: nat)
    requires i < |b.entries| && ValidEntry(b, i)
    ensures ValidEntry(b.(entries := b.entries + [e]), i)
  {
    assert (b.entries + [e])[..i] == b.entries[..i];
  }

  lemma AppendKeeps(b: Books, q: PostRequest)
    requires ValidBooks(b) && b.hasJournal && PostError(b, q).None?
    requires q.source.Document? || q.source == Manual(|b.entries|)
    ensures var b' := b.(entries := b.entries + [NewEntry(b, q)]); ValidBooks(b') && Extends(b, b')
  {
    var e := NewEntry(b, q);
    var b' := b.(entries := b.entries + [e]);
    NewEntryValid(b, q);
    AcceptedDayUnlocked(b, q.date, q.mayPostClosed);
    forall i | 0 <= i < |b'.entries| ensures ValidEntry(b', i) {
      if i < |b.entries| {
        PrefixEntriesValid(b, e, i);
      }
    }
  }

  lemma PostKeeps(b: Books, q: PostRequest)
    requires ValidBooks(b) && b.hasJournal && (q.source.Document? || q.source == Manual(|b.entries|))
    ensures var r := PostTo(b, q).books; ValidBooks(r) && Extends(b, r)
  {
    if PostError(b, q).None? {
      AppendKeeps(b, q);
    }
  }

  // ---------------------------------------------------------------- reversal

  /** Storing back what was read from storage is exact, so a reversal mirrors its original. */
  lemma SwappedMirrors(accounts: seq<Account>, lines: seq<Line>, firstId: nat)
    requires Resolvable(accounts, Swapped(lines))
    ensures Mirrors(StoredLines(accounts, Swapped(lines), firstId), lines)
  {
    forall k | 0 <= k < |lines|
      ensures Stored(lines[k].credit as real) == lines[k].credit && Stored(lines[k].debit as real) == lines[k].debit
    {
      StoredWhole(lines[k].credit);
      StoredWhole(lines[k].debit);
    }
  }

  lemma {:induction false} SameLineCount(a: seq<Entry>, b: seq<Entry>)
    requires |a| == |b| && forall i | 0 <= i < |a| :: a[i].lines == b[i].lines
    ensures LineCount(a) == LineCount(b)
  {
    if a != [] {
      SameLineCount(a[..|a| - 1], b[..|b| - 1]);
    }
  }

  lemma LinkKeeps(b: Books, original: nat, q: PostRequest)
    requires ValidBooks(b) && b.hasJournal && PostError(b, q).None?
    requires original < |b.entries| && b.entries[original].reversedBy.None?
    requires q == ReversalRequest(b, original, q.date, q.mayPostClosed) && b.entries[original].date <= q.date
    ensures var b' := b.(entries := Linked(b.entries, original, NewEntry(b, q)));
            ValidBooks(b') && Extends(b, b')
  {
    var e := NewEntry(b, q);
    var b' := b.(entries := Linked(b.entries, original, e));
    NewEntryValid(b, q);
    SwappedMirrors(b.accounts, b.entries[original].lines, LineCount(b.entries));
    AcceptedDayUnlocked(b, q.date, q.mayPostClosed);
    forall i | 0 <= i < |b.entries| ensures ValidLinks(b.entries, i) {
      assert ValidEntry(b, i);
    }
    forall i | 0 <= i < |b'.entries| ensures ValidEntry(b', i) {
      if i < |b.entries| {
        assert ValidEntry(b, i);
      }
      LinesAfterReversal(b, original, e, i);
      LinksAfterReversal(b.entries, original, e, i);
    }
  }

  lemma LinesAfterReversal(b: Books, original: nat, e: Entry, i: nat)
    requires original < |b.entries| && i <= |b.entries|
    requires i < |b.entries| ==> ValidLines(b, i)
    requires ValidLines(b.(entries := b.entries + [e]), |b.entries|)
    ensures ValidLines(b.(entries := Linked(b.entries, original, e)), i)
  {
    var b' := b.(entries := Linked(b.entries, original, e));
    SameLineCount((b.entries + [e])[..i], b'.entries[..i]);
    assert (b.entries + [e])[..i] == b.entries[..i];
  }

  lemma LinksAfterReversal(entries: seq<Entry>, original: nat, e: Entry, i: nat)
    requires original < |entries| && entries[original].reversedBy.None?
    requires forall j | 0 <= j < |entries| :: ValidLinks(entries, j)
    requires e.reversedBy.None? && e.source == Reversal(original)
    requires entries[original].date <= e.date && Mirrors(e.lines, entries[original].lines)
    requires i <= |entries|
    ensures ValidLinks(Linked(entries, original, e), i)
  {
    if i < |entries| {
      assert ValidLinks(entries, i);
    }
  }

  lemma ReverseKeeps(b: Books, original: nat, date: int, mayPostClosed: bool)
    requires ValidBooks(b) && b.hasJournal
    ensures var r := ReverseIn(b, original, date, mayPostClosed).books; ValidBooks(r) && Extends(b, r)
  {
    if ReverseIn(b, original, date, mayPostClosed).result.Success? {
      LinkKeeps(b, original, ReversalRequest(b, original, date, mayPostClosed));
    }
  }

  // ---------------------------------------------------------------- runs

  lemma WorkKeeps(b: Books, c: Call)
    requires ValidBooks(b) && b.hasJournal && ValidCall(c) && !c.SetStatus?
    ensures var r := Work(b, c).books; ValidBooks(r) && Extends(b, r)
  {
    match c {
      case Read(_) =>
      case AddAccount(_, a) => AddAccountKeeps(b, a);
      case AddPeriod(_, start, end) => AddPeriodKeeps(b, start, end);
      case PostDocument(_, date, kind, id, event, lines, may) =>
        PostKeeps(b, PostRequest(date, Document(kind, id, event), lines, may));
      case PostByHand(_, date, lines, may) => PostKeeps(b, ManualRequest(b, date, lines, may));
      case ReverseEntry(_, original, date, may) => ReverseKeeps(b, original, date, may);
    }
  }

  lemma StepKeeps(b: Books, c: Call)
    requires Sound(b) && ValidCall(c)
    ensures Sound(Step(b, c)) && Extends(b, Step(b, c))
  {
    var rows := DEFAULT_ACCOUNTS;
    if c.SetStatus? {
      ChangePeriodStatusKeeps(b, c.period, c.status);
      assert Step(b, c).accounts == b.accounts;
    } else {
      BootstrapKeeps(b, c.clock);
      var b1 := Bootstrap(b, c.clock);
      WorkKeeps(b1, c);
      DefaultsRemain(rows, b1, Work(b1, c).books);
      ExtendsTransitive(b, b1, Work(b1, c).books);
      assert Extends(b, b);
    }
  }

  /** Every run keeps the books sound and only ever extends them. */
  lemma {:induction false} RunKeeps(b: Books, calls: seq<Call>)
    requires Sound(b)
    requires forall i | 0 <= i < |calls| :: ValidCall(calls[i])
    ensures Sound(Run(b, calls)) && Extends(b, Run(b, calls))
  {
    if calls != [] {
      var before := Run(b, calls[..|calls| - 1]);
      RunKeeps(b, calls[..|calls| - 1]);
      StepKeeps(before, calls[|calls| - 1]);
      ExtendsTransitive(b, before, Run(b, calls));
    }
  }

  lemma ReachableSound(calls: seq<Call>)
    requires forall i | 0 <= i < |calls| :: ValidCall(calls[i])
    ensures Sound(Run(EMPTY_BOOKS, calls))
  {
    RunKeeps(EMPTY_BOOKS, calls);
  }
}
