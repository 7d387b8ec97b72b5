/**
 The books of one tenant and what every accounting call makes of them.

 A call either commits, and yields new books, or raises, and the transaction is rolled back to the
 books it started from (the bootstrap included). Rows are never deleted, so an id is a position.
 */
module Ledger {
  import opened Prelude
  import opened Posting
  import opened Chart
  import opened Calendar

  datatype PeriodStatus = Open | Closed | Locked

  datatype Period = Period(start: int, end: int, status: PeriodStatus)

  datatype EntryStatus = Draft | Posted

  datatype Line = Line(id: nat, account: nat, debit: int, credit: int)

  /** (source_type, source_id, event_type): a business document, a manual entry, or a reversal. */
  datatype Source =
    | Document(kind: string, id: nat, event: string)
    | Manual(id: nat)
    | Reversal(original: nat)

  datatype Entry = Entry(
    period: nat,
    date: int,
    status: EntryStatus,
    source: Source,
    totalDebit: int,
    totalCredit: int,
    lines: seq<Line>,
    reversalOf: Option<nat>,
    reversedBy: Option<nat>)

  datatype Books = Books(
    accounts: seq<Account>,
    hasJournal: bool,
    periods: seq<Period>,
    entries: seq<Entry>)

  const EMPTY_BOOKS: Books := Books([], false, [], [])

  datatype Error =
    | UnbalancedJournal | PeriodClosed | SystemAccountMissing | AccountNotPostable
    | StorageRejected | TriggerUnbalanced
    | NotFound | AccountTypeMismatch | DuplicateResource
    | InvalidDateRange | PeriodOverlap | IllegalStatusTransition
    | EntryAlreadyReversed | InvalidReversalDate

  datatype Outcome = Outcome(books: Books, result: Result<nat, Error>)

  /** The transaction of a call that began on `b`: an error leaves nothing behind. */
  function Transaction(b: Books, attempt: Outcome): (r: Outcome) {
    if attempt.result.Failure? then Outcome(b, attempt.result) else attempt
  }

  function Reject(b: Books, error: Error): (r: Outcome) {
    Outcome(b, Failure(error))
  }

  // ---------------------------------------------------------------- bootstrap

  function FirstPeriod(clock: Clock): (p: Period)
    requires ValidClock(clock)
  {
    Period(FiscalStart(clock), FiscalEnd(clock), Open)
  }

  function BootstrapWith(rows: seq<DefaultRow>, b: Books, clock: Clock): (r: Books)
    requires ValidClock(clock)
  {
    var accounts := Backfill(Codes(b.accounts), rows, b.accounts);
    if b.hasJournal then b.(accounts := accounts)
    else Books(accounts, true, b.periods + [FirstPeriod(clock)], b.entries)
  }

  function Bootstrap(b: Books, clock: Clock): (r: Books)
    requires ValidClock(clock)
  {
    BootstrapWith(DEFAULT_ACCOUNTS, b, clock)
  }

  // ---------------------------------------------------------------- accounts and periods

  datatype NewAccount = NewAccount(code: Code, kind: AccountType, parent: Option<nat>, postable: bool)

  function AddAccountTo(b: Books, a: NewAccount): (r: Outcome) {
    if a.parent.Some? && a.parent.value >= |b.accounts| then Reject(b, NotFound)
    else if a.parent.Some? && b.accounts[a.parent.value].kind != a.kind then Reject(b, AccountTypeMismatch)
    else if a.code in Codes(b.accounts) then Reject(b, DuplicateResource)
    else
      var row := Account(a.code, a.kind, a.parent, a.postable, None, true);
      Outcome(b.(accounts := Demote(b.accounts, a.parent) + [row]), Success(|b.accounts|))
  }

  function CreateAccount(b: Books, clock: Clock, a: NewAccount): (r: Outcome)
    requires ValidClock(clock)
  {
    Transaction(b, AddAccountTo(Bootstrap(b, clock), a))
  }

  predicate Within(p: Period, day: int) {
    p.start <= day <= p.end
  }

  predicate Overlaps(p: Period, q: Period) {
    p.start <= q.end && q.start <= p.end
  }

  function AddPeriodTo(b: Books, start: int, end: int): (r: Outcome) {
    var p := Period(start, end, Open);
    if end < start then Reject(b, InvalidDateRange)
    else if exists i | 0 <= i < |b.periods| :: Overlaps(b.periods[i], p) then Reject(b, PeriodOverlap)
    else Outcome(b.(periods := b.periods + [p]), Success(|b.periods|))
  }

  function CreatePeriod(b: Books, clock: Clock, start: int, end: int): (r: Outcome)
    requires ValidClock(clock)
  {
    Transaction(b, AddPeriodTo(Bootstrap(b, clock), start, end))
  }

  /** OPEN to CLOSED to LOCKED, and nothing else. */
  predicate LegalTransition(from: PeriodStatus, to: PeriodStatus) {
    (from.Open? && to.Closed?) || (from.Closed? && to.Locked?)
  }

  function ChangePeriodStatus(b: Books, p: nat, status: PeriodStatus): (r: Outcome) {
    if p >= |b.periods| then Reject(b, NotFound)
    else if !LegalTransition(b.periods[p].status, status) then Reject(b, IllegalStatusTransition)
    else Outcome(b.(periods := b.periods[p := b.periods[p].(status := status)]), Success(p))
  }

  // ---------------------------------------------------------------- posting

  function PeriodFor(periods: seq<Period>, day: int): (r: Option<nat>)
    ensures r.Some? ==> r.value < |periods| && Within(periods[r.value], day)
    ensures r.None? ==> forall i | 0 <= i < |periods| :: !Within(periods[i], day)
  {
    if periods == [] then None
    else
      var n := |periods| - 1;
      if Within(periods[n], day) then Some(n)
      else
        assert forall i | 0 <= i < n :: periods[..n][i] == periods[i];
        PeriodFor(periods[..n], day)
  }

  datatype PostRequest = PostRequest(
    date: int,
    source: Source,
    lines: seq<PostingLine>,
    mayPostClosed: bool)

  function Resolve(accounts: seq<Account>, target: Target): (r: Option<nat>)
    ensures r.Some? ==> r.value < |accounts|
  {
    match target
    case Role(code) => FindSystem(accounts, code)
    case Direct(id) => if id < |accounts| then Some(id) else None
  }

  predicate Resolvable(accounts: seq<Account>, lines: seq<PostingLine>) {
    forall i | 0 <= i < |lines| :: Resolve(accounts, lines[i].target).Some?
  }

  /** Every line goes to an active account that may be posted to. */
  predicate HitsPostable(accounts: seq<Account>, lines: seq<PostingLine>) {
    forall i | 0 <= i < |lines| ::
      var a := Resolve(accounts, lines[i].target);
      a.Some? ==> accounts[a.value].postable && accounts[a.value].active
  }

  predicate PeriodAccepts(periods: seq<Period>, day: int, mayPostClosed: bool) {
    var p := PeriodFor(periods, day);
    p.Some? && (periods[p.value].status.Open? || (periods[p.value].status.Closed? && mayPostClosed))
  }

  predicate SourceFree(entries: seq<Entry>, source: Source) {
    forall i | 0 <= i < |entries| :: entries[i].source != source
  }

  /** The first objection the service layer itself raises against a request on bootstrapped books. */
  function ServiceError(b: Books, q: PostRequest): (r: Option<Error>) {
    if !ServiceBalanced(q.lines) then Some(UnbalancedJournal)
    else if !PeriodAccepts(b.periods, q.date, q.mayPostClosed) then Some(PeriodClosed)
    else if !Resolvable(b.accounts, q.lines) then Some(SystemAccountMissing)
    else if !HitsPostable(b.accounts, q.lines) then Some(AccountNotPostable)
    else None
  }

  /** The first objection of all: service, then storage, then trigger. */
  function PostError(b: Books, q: PostRequest): (r: Option<Error>) {
    if ServiceError(b, q).Some? then ServiceError(b, q)
    else if !SourceFree(b.entries, q.source) || !Storable(q.lines) then Some(StorageRejected)
    else if !TriggerBalanced(q.lines) then Some(TriggerUnbalanced)
    else None
  }

  function LineCount(entries: seq<Entry>): (n: nat) {
    if entries == [] then 0 else LineCount(entries[..|entries| - 1]) + |entries[|entries| - 1].lines|
  }

  function StoredLine(accounts: seq<Account>, line: PostingLine, id: nat): (r: Line)
    requires Resolve(accounts, line.target).Some?
  {
    Line(id, Resolve(accounts, line.target).value, Stored(line.debit), Stored(line.credit))
  }

  function StoredLines(accounts: seq<Account>, lines: seq<PostingLine>, firstId: nat): (r: seq<Line>)
    requires Resolvable(accounts, lines)
  {
    seq(|lines|, i requires 0 <= i < |lines| => StoredLine(accounts, lines[i], firstId + i))
  }

  function NewEntry(b: Books, q: PostRequest): (e: Entry)
    requires PostError(b, q).None?
  {
    Entry(PeriodFor(b.periods, q.date).value, q.date, Posted, q.source,
          Stored(Total(q.lines, Debit)), Stored(Total(q.lines, Credit)),
          StoredLines(b.accounts, q.lines, LineCount(b.entries)), None, None)
  }

  function PostTo(b: Books, q: PostRequest): (r: Outcome) {
    var error := PostError(b, q);
    if error.Some? then Reject(b, error.value)
    else Outcome(b.(entries := b.entries + [NewEntry(b, q)]), Success(|b.entries|))
  }

  function Post(b: Books, clock: Clock, q: PostRequest): (r: Outcome)
    requires ValidClock(clock)
  {
    Transaction(b, PostTo(Bootstrap(b, clock), q))
  }

  datatype ManualLine = ManualLine(account: nat, debit: real, credit: real)

  function Symbolic(lines: seq<ManualLine>): (r: seq<PostingLine>)
    ensures |r| == |lines|
  {
    seq(|lines|, i requires 0 <= i < |lines| => PostingLine(Direct(lines[i].account), lines[i].debit, lines[i].credit))
  }

  function ManualRequest(b: Books, date: int, lines: seq<ManualLine>, mayPostClosed: bool): (q: PostRequest) {
    PostRequest(date, Manual(|b.entries|), Symbolic(lines), mayPostClosed)
  }

  function PostManualTo(b: Books, date: int, lines: seq<ManualLine>, mayPostClosed: bool): (r: Outcome) {
    var symbolic := Symbolic(lines);
    if exists i | 0 <= i < |lines| :: lines[i].account >= |b.accounts| then Reject(b, NotFound)
    else if !HitsPostable(b.accounts, symbolic) then Reject(b, AccountNotPostable)
    else if !ServiceBalanced(symbolic) then Reject(b, UnbalancedJournal)
    else PostTo(b, ManualRequest(b, date, lines, mayPostClosed))
  }

  function PostManual(b: Books, clock: Clock, date: int, lines: seq<ManualLine>, mayPostClosed: bool): (r: Outcome)
    requires ValidClock(clock)
  {
    Transaction(b, PostManualTo(Bootstrap(b, clock), date, lines, mayPostClosed))
  }

  // ---------------------------------------------------------------- reversal

  /** The stored lines of an entry with debit and credit exchanged, as a new request. */
  function Swapped(lines: seq<Line>): (r: seq<PostingLine>)
    ensures |r| == |lines|
  {
    seq(|lines|, i requires 0 <= i < |lines| =>
      PostingLine(Direct(lines[i].account), lines[i].credit as real, lines[i].debit as real))
  }

  function ReversalRequest(b: Books, original: nat, date: int, mayPostClosed: bool): (q: PostRequest)
    requires original < |b.entries|
  {
    PostRequest(date, Reversal(original), Swapped(b.entries[original].lines), mayPostClosed)
  }

  /** Append the reversal and write both links. */
  function Linked(entries: seq<Entry>, original: nat, reversal: Entry): (r: seq<Entry>)
    requires original < |entries|
    ensures |r| == |entries| + 1
  {
    entries[original := entries[original].(reversedBy := Some(|entries|))]
      + [reversal.(reversalOf := Some(original))]
  }

  function ReverseIn(b: Books, original: nat, date: int, mayPostClosed: bool): (r: Outcome) {
    if original >= |b.entries| then Reject(b, NotFound)
    else if b.entries[original].reversedBy.Some? then Reject(b, EntryAlreadyReversed)
    else if date < b.entries[original].date then Reject(b, InvalidReversalDate)
    else
      var q := ReversalRequest(b, original, date, mayPostClosed);
      var error := PostError(b, q);
      if error.Some? then Reject(b, error.value)
      else Outcome(b.(entries := Linked(b.entries, original, NewEntry(b, q))), Success(|b.entries|))
  }

  function Reverse(b: Books, clock: Clock, original: nat, date: int, mayPostClosed: bool): (r: Outcome)
    requires ValidClock(clock)
  {
    Transaction(b, ReverseIn(Bootstrap(b, clock), original, date, mayPostClosed))
  }

  // ---------------------------------------------------------------- runs

  /** One committed or rejected service call. Reads only bootstrap. */
  datatype Call =
    | Read(clock: Clock)
    | AddAccount(clock: Clock, account: NewAccount)
    | AddPeriod(clock: Clock, start: int, end: int)
    | SetStatus(period: nat, status: PeriodStatus)
    | PostDocument(clock: Clock, date: int, kind: string, id: nat, event: string, lines: seq<PostingLine>, mayPostClosed: bool)
    | PostByHand(clock: Clock, date: int, manual: seq<ManualLine>, mayPostClosed: bool)
    | ReverseEntry(clock: Clock, original: nat, date: int, mayPostClosed: bool)

  /** A document names its accounts by role; ids are only ever given by hand or by a reversal. */
  predicate ValidCall(c: Call) {
    && (c.SetStatus? || ValidClock(c.clock))
    && (c.PostDocument? ==> forall i | 0 <= i < |c.lines| :: c.lines[i].target.Role?)
  }

  /** What a call does to bootstrapped books. */
  function Work(b: Books, c: Call): (r: Outcome)
    requires !c.SetStatus?
  {
    match c
    case Read(_) => Outcome(b, Success(0))
    case AddAccount(_, a) => AddAccountTo(b, a)
    case AddPeriod(_, start, end) => AddPeriodTo(b, start, end)
    case PostDocument(_, date, kind, id, event, lines, may) =>
      PostTo(b, PostRequest(date, Document(kind, id, event), lines, may))
    case PostByHand(_, date, lines, may) => PostManualTo(b, date, lines, may)
    case ReverseEntry(_, original, date, may) => ReverseIn(b, original, date, may)
  }

  function Step(b: Books, c: Call): (r: Books)
    requires ValidCall(c)
  {
    if c.SetStatus? then ChangePeriodStatus(b, c.period, c.status).books
    else Transaction(b, Work(Bootstrap(b, c.clock), c)).books
  }

  function Run(b: Books, calls: seq<Call>): (r: Books)
    requires forall i | 0 <= i < |calls| :: ValidCall(calls[i])
  {
    if calls == [] then b else Step(Run(b, calls[..|calls| - 1]), calls[|calls| - 1])
  }
}
