/** Trial balance, profit and loss, balance sheet and general ledger, as folds over the journal. */
module Reports {
  import opened Prelude
  import opened Posting
  import opened Chart
  import opened Calendar
  import opened Ledger
  import opened LedgerInvariant

  // ---------------------------------------------------------------- trial balance

  function OnSide(l: Line, side: Side): (r: int) {
    if side.Debit? then l.debit else l.credit
  }

  predicate HasLine(lines: seq<Line>, a: nat) {
    exists k | 0 <= k < |lines| :: lines[k].account == a
  }

  function LinesOn(lines: seq<Line>, a: nat, side: Side): (r: int) {
    if lines == [] then 0
    else
      var last := lines[|lines| - 1];
      LinesOn(lines[..|lines| - 1], a, side) + (if last.account == a then OnSide(last, side) else 0)
  }

  predicate Counts(e: Entry, start: int, end: int) {
    e.status.Posted? && start <= e.date <= end
  }

  function Movement(entries: seq<Entry>, a: nat, side: Side, start: int, end: int): (r: int) {
    if entries == [] then 0
    else
      var last := entries[|entries| - 1];
      Movement(entries[..|entries| - 1], a, side, start, end)
        + (if Counts(last, start, end) then LinesOn(last.lines, a, side) else 0)
  }

  /** Whether the inner joins of the query produce a row for the account. */
  predicate Moved(entries: seq<Entry>, a: nat, start: int, end: int) {
    entries != [] &&
      var last := entries[|entries| - 1];
      Moved(entries[..|entries| - 1], a, start, end) || (Counts(last, start, end) && HasLine(last.lines, a))
  }

  datatype Row = Row(account: nat, code: Code, kind: AccountType, debit: int, credit: int)

  function RowsBelow(b: Books, n: nat, start: int, end: int): (rows: seq<Row>)
    requires n <= |b.accounts|
  {
    if n == 0 then []
    else
      var a := n - 1;
      RowsBelow(b, a, start, end)
        + if Moved(b.entries, a, start, end) then
            [Row(a, b.accounts[a].code, b.accounts[a].kind,
                 Movement(b.entries, a, Debit, start, end), Movement(b.entries, a, Credit, start, end))]
          else []
  }

  function TrialBalance(b: Books, start: int, end: int): (rows: seq<Row>) {
    RowsBelow(b, |b.accounts|, start, end)
  }

  /** The sum of one column, over all rows or over the rows of one account type. */
  function Column(rows: seq<Row>, kind: Option<AccountType>, side: Side): (r: int) {
    if rows == [] then 0
    else
      var last := rows[|rows| - 1];
      Column(rows[..|rows| - 1], kind, side)
        + (if kind.None? || kind.value == last.kind then (if side.Debit? then last.debit else last.credit) else 0)
  }

  // ---------------------------------------------------------------- the journal summed by type

  /** What the lines put on accounts numbered below `n`, of the given type if any. */
  function LinesBelow(lines: seq<Line>, accounts: seq<Account>, n: nat, kind: Option<AccountType>, side: Side): (r: int)
    requires n <= |accounts|
  {
    if lines == [] then 0
    else
      var last := lines[|lines| - 1];
      LinesBelow(lines[..|lines| - 1], accounts, n, kind, side)
        + (if last.account < n && (kind.None? || kind.value == accounts[last.account].kind) then OnSide(last, side) else 0)
  }

  function JournalBelow(entries: seq<Entry>, accounts: seq<Account>, n: nat, kind: Option<AccountType>, side: Side,
      start: int, end: int): (r: int)
    requires n <= |accounts|
  {
    if entries == [] then 0
    else
      var last := entries[|entries| - 1];
      JournalBelow(entries[..|entries| - 1], accounts, n, kind, side, start, end)
        + (if Counts(last, start, end) then LinesBelow(last.lines, accounts, n, kind, side) else 0)
  }

  lemma {:induction false} LinesBelowStep(lines: seq<Line>, accounts: seq<Account>, n: nat, kind: Option<AccountType>, side: Side)
    requires 0 < n <= |accounts|
    ensures LinesBelow(lines, accounts, n, kind, side) == LinesBelow(lines, accounts, n - 1, kind, side)
              + (if kind.None? || kind.value == accounts[n - 1].kind then LinesOn(lines, n - 1, side) else 0)
    ensures LinesBelow(lines, accounts, 0, kind, side) == 0
    ensures !HasLine(lines, n - 1) ==> LinesOn(lines, n - 1, side) == 0
  {
    if lines != [] {
      var init := lines[..|lines| - 1];
      LinesBelowStep(init, accounts, n, kind, side);
      assert forall k | 0 <= k < |init| :: init[k] == lines[k];
      assert !HasLine(lines, n - 1) ==> !HasLine(init, n - 1) && lines[|lines| - 1].account != n - 1;
    }
  }

  lemma {:induction false} JournalBelowStep(entries: seq<Entry>, accounts: seq<Account>, n: nat,
      kind: Option<AccountType>, side: Side, start: int, end: int)
    requires 0 < n <= |accounts|
    ensures JournalBelow(entries, accounts, n, kind, side, start, end)
            == JournalBelow(entries, accounts, n - 1, kind, side, start, end)
              + (if kind.None? || kind.value == accounts[n - 1].kind then Movement(entries, n - 1, side, start, end) else 0)
    ensures JournalBelow(entries, accounts, 0, kind, side, start, end) == 0
    ensures !Moved(entries, n - 1, start, end) ==> Movement(entries, n - 1, side, start, end) == 0
  {
    if entries != [] {
      JournalBelowStep(entries[..|entries| - 1], accounts, n, kind, side, start, end);
      LinesBelowStep(entries[|entries| - 1].lines, accounts, n, kind, side);
    }
  }

  lemma ColumnAppend(rows: seq<Row>, row: Row, kind: Option<AccountType>, side: Side)
    ensures Column(rows + [row], kind, side) == Column(rows, kind, side)
              + (if kind.None? || kind.value == row.kind then (if side.Debit? then row.debit else row.credit) else 0)
    ensures Column(rows + [], kind, side) == Column(rows, kind, side)
  {
    assert (rows + [row])[..|rows|] == rows;
    assert rows + [] == rows;
  }

  lemma {:induction false} ColumnBelow(b: Books, n: nat, kind: Option<AccountType>, side: Side, start: int, end: int)
    requires n <= |b.accounts|
    ensures Column(RowsBelow(b, n, start, end), kind, side) == JournalBelow(b.entries, b.accounts, n, kind, side, start, end)
    decreases n
  {
    if n == 0 {
      EmptyBelow(b.entries, b.accounts, kind, side, start, end);
    } else {
      var a := n - 1;
      ColumnBelow(b, a, kind, side, start, end);
      JournalBelowStep(b.entries, b.accounts, n, kind, side, start, end);
      ColumnAppend(RowsBelow(b, a, start, end),
                   Row(a, b.accounts[a].code, b.accounts[a].kind,
                       Movement(b.entries, a, Debit, start, end), Movement(b.entries, a, Credit, start, end)),
                   kind, side);
    }
  }

  lemma {:induction false} EmptyBelow(entries: seq<Entry>, accounts: seq<Account>, kind: Option<AccountType>,
      side: Side, start: int, end: int)
    ensures JournalBelow(entries, accounts, 0, kind, side, start, end) == 0
  {
    if entries != [] {
      EmptyBelow(entries[..|entries| - 1], accounts, kind, side, start, end);
      NoLinesBelowZero(entries[|entries| - 1].lines, accounts, kind, side);
    }
  }

  lemma {:induction false} NoLinesBelowZero(lines: seq<Line>, accounts: seq<Account>, kind: Option<AccountType>, side: Side)
    ensures LinesBelow(lines, accounts, 0, kind, side) == 0
  {
    if lines != [] {
      NoLinesBelowZero(lines[..|lines| - 1], accounts, kind, side);
    }
  }

  // ---------------------------------------------------------------- debits equal credits

  /** What the posted entries of a date range carry in total. */
  function EntryTotals(entries: seq<Entry>, start: int, end: int): (r: int) {
    if entries == [] then 0
    else
      var last := entries[|entries| - 1];
      EntryTotals(entries[..|entries| - 1], start, end) + (if Counts(last, start, end) then last.totalDebit else 0)
  }

  ghost predicate LinesPlaced(lines: seq<Line>, accounts: seq<Account>) {
    forall k | 0 <= k < |lines| :: lines[k].account < |accounts|
  }

  /** The part of `ValidBooks` the totals need, stable under dropping the last entry. */
  ghost predicate BalancedEntries(entries: seq<Entry>, accounts: seq<Account>) {
    forall i | 0 <= i < |entries| ::
      && LinesPlaced(entries[i].lines, accounts)
      && LineTotal(entries[i].lines, Debit) == entries[i].totalDebit
      && LineTotal(entries[i].lines, Credit) == entries[i].totalDebit
  }

  lemma BooksBalanced(b: Books)
    requires ValidBooks(b)
    ensures BalancedEntries(b.entries, b.accounts)
  {
    forall i | 0 <= i < |b.entries|
      ensures LinesPlaced(b.entries[i].lines, b.accounts)
           && LineTotal(b.entries[i].lines, Debit) == b.entries[i].totalDebit
           && LineTotal(b.entries[i].lines, Credit) == b.entries[i].totalDebit
    {
      assert ValidEntry(b, i);
    }
  }

  lemma {:induction false} AllLines(lines: seq<Line>, accounts: seq<Account>, side: Side)
    requires LinesPlaced(lines, accounts)
    ensures LinesBelow(lines, accounts, |accounts|, None, side) == LineTotal(lines, side)
  {
    if lines != [] {
      AllLines(lines[..|lines| - 1], accounts, side);
    }
  }

  lemma {:induction false} WholeJournal(entries: seq<Entry>, accounts: seq<Account>, side: Side, start: int, end: int)
    requires BalancedEntries(entries, accounts)
    ensures JournalBelow(entries, accounts, |accounts|, None, side, start, end) == EntryTotals(entries, start, end)
  {
    if entries != [] {
      var init := entries[..|entries| - 1];
      assert forall i | 0 <= i < |init| :: init[i] == entries[i];
      WholeJournal(init, accounts, side, start, end);
      AllLines(entries[|entries| - 1].lines, accounts, side);
    }
  }

  /** For every date range both columns of the trial balance sum to what the range's entries carry. */
  lemma TrialBalanceBalances(b: Books, start: int, end: int)
    requires ValidBooks(b)
    ensures var rows := TrialBalance(b, start, end);
            Column(rows, None, Debit) == Column(rows, None, Credit) == EntryTotals(b.entries, start, end)
  {
    BooksBalanced(b);
    ColumnBelow(b, |b.accounts|, None, Debit, start, end);
    ColumnBelow(b, |b.accounts|, None, Credit, start, end);
    WholeJournal(b.entries, b.accounts, Debit, start, end);
    WholeJournal(b.entries, b.accounts, Credit, start, end);
  }

  // ---------------------------------------------------------------- adjacent ranges

  /** Every account's movement over a range is the sum over the two ranges it splits into. */
  lemma {:induction false} MovementAdds(entries: seq<Entry>, a: nat, side: Side, start: int, mid: int, end: int)
    requires start <= mid + 1 && mid <= end
    ensures Movement(entries, a, side, start, mid) + Movement(entries, a, side, mid + 1, end)
         == Movement(entries, a, side, start, end)
  {
    if entries != [] {
      MovementAdds(entries[..|entries| - 1], a, side, start, mid, end);
    }
  }

  lemma {:induction false} JournalAdds(entries: seq<Entry>, accounts: seq<Account>, kind: Option<AccountType>,
      side: Side, start: int, mid: int, end: int)
    requires start <= mid + 1 && mid <= end
    ensures JournalBelow(entries, accounts, |accounts|, kind, side, start, mid)
            + JournalBelow(entries, accounts, |accounts|, kind, side, mid + 1, end)
         == JournalBelow(entries, accounts, |accounts|, kind, side, start, end)
  {
    if entries != [] {
      JournalAdds(entries[..|entries| - 1], accounts, kind, side, start, mid, end);
    }
  }

  /** A trial-balance column over a range is the sum of the columns over the two ranges it splits into. */
  lemma TrialBalanceAdds(b: Books, kind: Option<AccountType>, side: Side, start: int, mid: int, end: int)
    requires start <= mid + 1 && mid <= end
    ensures Column(TrialBalance(b, start, mid), kind, side) + Column(TrialBalance(b, mid + 1, end), kind, side)
         == Column(TrialBalance(b, start, end), kind, side)
  {
    ColumnBelow(b, |b.accounts|, kind, side, start, mid);
    ColumnBelow(b, |b.accounts|, kind, side, mid + 1, end);
    ColumnBelow(b, |b.accounts|, kind, side, start, end);
    JournalAdds(b.entries, b.accounts, kind, side, start, mid, end);
  }

  // ---------------------------------------------------------------- profit and loss, balance sheet

  predicate DebitNormal(kind: AccountType) {
    kind.Asset? || kind.Expense?
  }

  datatype Figure = Figure(account: nat, amount: int)

  /** A movement on the type's normal side. */
  function Normal(kind: AccountType, debit: int, credit: int): (r: int) {
    if DebitNormal(kind) then debit - credit else credit - debit
  }

  /** The rows of one type, each as its movement on the type's normal side. */
  function Listing(rows: seq<Row>, kind: AccountType): (r: seq<Figure>) {
    if rows == [] then []
    else
      var last := rows[|rows| - 1];
      Listing(rows[..|rows| - 1], kind)
        + if last.kind == kind then
            [Figure(last.account, Normal(kind, last.debit, last.credit))]
          else []
  }

  function Sum(figures: seq<Figure>): (r: int) {
    if figures == [] then 0 else Sum(figures[..|figures| - 1]) + figures[|figures| - 1].amount
  }

  datatype ProfitAndLoss = ProfitAndLoss(revenue: seq<Figure>, expense: seq<Figure>)

  function ProfitAndLossReport(b: Books, start: int, end: int): (r: ProfitAndLoss) {
    var rows := TrialBalance(b, start, end);
    ProfitAndLoss(Listing(rows, Revenue), Listing(rows, Expense))
  }

  function NetIncome(b: Books, start: int, end: int): (r: int) {
    var report := ProfitAndLossReport(b, start, end);
    Sum(report.revenue) - Sum(report.expense)
  }

  datatype BalanceSheet = BalanceSheet(assets: seq<Figure>, liabilities: seq<Figure>, equity: seq<Figure>, earnings: int)

  /** date(1970, 1, 1), where the cumulative figures start. */
  const EPOCH: int := 719163

  function BalanceSheetReport(b: Books, asOf: int): (r: BalanceSheet) {
    var cumulative := TrialBalance(b, EPOCH, asOf);
    var p := PeriodFor(b.periods, asOf);
    var rows := if p.Some? then TrialBalance(b, b.periods[p.value].start, asOf) else [];
    BalanceSheet(Listing(cumulative, Asset), Listing(cumulative, Liability), Listing(cumulative, Equity),
                 Sum(Listing(rows, Revenue)) - Sum(Listing(rows, Expense)))
  }

  function TotalAssets(s: BalanceSheet): (r: int) { Sum(s.assets) }

  function TotalLiabilities(s: BalanceSheet): (r: int) { Sum(s.liabilities) }

  function TotalEquity(s: BalanceSheet): (r: int) { Sum(s.equity) + s.earnings }

  lemma EpochDay()
    ensures EPOCH == DayNumber(Date(1970, 1, 1))
  {
  }

  lemma ListingAppend(rows: seq<Row>, row: Row, kind: AccountType)
    ensures Sum(Listing(rows + [row], kind))
         == Sum(Listing(rows, kind)) + if row.kind == kind then Normal(kind, row.debit, row.credit) else 0
  {
    assert (rows + [row])[..|rows|] == rows;
    var figure := Figure(row.account, Normal(kind, row.debit, row.credit));
    assert Listing(rows, kind) + [] == Listing(rows, kind);
    SumAppend(Listing(rows, kind), figure);
  }

  lemma {:induction false} ListingSum(rows: seq<Row>, kind: AccountType)
    ensures Sum(Listing(rows, kind)) == Normal(kind, Column(rows, Some(kind), Debit), Column(rows, Some(kind), Credit))
  {
    if rows != [] {
      var init, row := rows[..|rows| - 1], rows[|rows| - 1];
      ListingSum(init, kind);
      assert rows == init + [row];
      ListingAppend(init, row, kind);
      ColumnAppend(init, row, Some(kind), Debit);
      ColumnAppend(init, row, Some(kind), Credit);
    }
  }

  lemma SumAppend(figures: seq<Figure>, f: Figure)
    ensures Sum(figures + [f]) == Sum(figures) + f.amount
  {
    assert (figures + [f])[..|figures|] == figures;
  }

  lemma {:induction false} TypesPartition(rows: seq<Row>, side: Side)
    ensures Column(rows, None, side)
         == Column(rows, Some(Asset), side) + Column(rows, Some(Liability), side) + Column(rows, Some(Equity), side)
            + Column(rows, Some(Revenue), side) + Column(rows, Some(Expense), side)
  {
    if rows != [] {
      TypesPartition(rows[..|rows| - 1], side);
    }
  }

  /**
   The accounting identity over any range: what the range earned is what it added to assets net of
   what it added to liabilities and equity.
   */
  lemma IncomeIsNetWorthChange(b: Books, start: int, end: int)
    requires ValidBooks(b)
    ensures var rows := TrialBalance(b, start, end);
            NetIncome(b, start, end)
            == Sum(Listing(rows, Asset)) - Sum(Listing(rows, Liability)) - Sum(Listing(rows, Equity))
  {
    var rows := TrialBalance(b, start, end);
    TrialBalanceBalances(b, start, end);
    TypesPartition(rows, Debit);
    TypesPartition(rows, Credit);
    ListingSum(rows, Asset);
    ListingSum(rows, Liability);
    ListingSum(rows, Equity);
    ListingSum(rows, Revenue);
    ListingSum(rows, Expense);
  }

  lemma IncomeAdds(b: Books, start: int, mid: int, end: int)
    requires start <= mid + 1 && mid <= end
    ensures NetIncome(b, start, mid) + NetIncome(b, mid + 1, end) == NetIncome(b, start, end)
  {
    forall s, t
      ensures NetIncome(b, s, t)
           == Column(TrialBalance(b, s, t), Some(Revenue), Credit) - Column(TrialBalance(b, s, t), Some(Revenue), Debit)
              - Column(TrialBalance(b, s, t), Some(Expense), Debit) + Column(TrialBalance(b, s, t), Some(Expense), Credit)
    {
      ListingSum(TrialBalance(b, s, t), Revenue);
      ListingSum(TrialBalance(b, s, t), Expense);
    }
    TrialBalanceAdds(b, Some(Revenue), Debit, start, mid, end);
    TrialBalanceAdds(b, Some(Revenue), Credit, start, mid, end);
    TrialBalanceAdds(b, Some(Expense), Debit, start, mid, end);
    TrialBalanceAdds(b, Some(Expense), Credit, start, mid, end);
  }

  /** By how much a balance sheet fails to balance. */
  function Gap(s: BalanceSheet): (r: int) {
    TotalAssets(s) - TotalLiabilities(s) - TotalEquity(s)
  }

  /** The exact gap, with no assumption about when entries are dated. */
  lemma GapIsUnclosedIncome(b: Books, asOf: int)
    requires ValidBooks(b)
    ensures var p := PeriodFor(b.periods, asOf);
            Gap(BalanceSheetReport(b, asOf))
            == NetIncome(b, EPOCH, asOf) - (if p.Some? then NetIncome(b, b.periods[p.value].start, asOf) else 0)
  {
    IncomeIsNetWorthChange(b, EPOCH, asOf);
  }

  lemma {:induction false} NothingBefore(entries: seq<Entry>, a: nat, start: int, end: int)
    requires forall i | 0 <= i < |entries| :: EPOCH <= entries[i].date
    requires end < EPOCH
    ensures !Moved(entries, a, start, end)
  {
    if entries != [] {
      NothingBefore(entries[..|entries| - 1], a, start, end);
    }
  }

  lemma {:induction false} NoRowsBefore(b: Books, n: nat, start: int, end: int)
    requires forall i | 0 <= i < |b.entries| :: EPOCH <= b.entries[i].date
    requires end < EPOCH && n <= |b.accounts|
    ensures RowsBelow(b, n, start, end) == []
    decreases n
  {
    if n > 0 {
      NoRowsBefore(b, n - 1, start, end);
      NothingBefore(b.entries, n - 1, start, end);
    }
  }

  /** No entry is dated before 1970. */
  ghost predicate ModernEntries(b: Books) {
    forall i | 0 <= i < |b.entries| :: DayNumber(Date(1970, 1, 1)) <= b.entries[i].date
  }

  lemma NoIncomeBefore(b: Books, start: int, end: int)
    requires ModernEntries(b) && end < EPOCH
    ensures NetIncome(b, start, end) == 0
  {
    EpochDay();
    NoRowsBefore(b, |b.accounts|, start, end);
  }

  /** Income since inception less income since `start` is income before `start`. */
  lemma IncomeBefore(b: Books, start: int, asOf: int)
    requires ModernEntries(b) && start <= asOf
    ensures NetIncome(b, EPOCH, asOf) - NetIncome(b, start, asOf) == NetIncome(b, EPOCH, start - 1)
  {
    if EPOCH <= start {
      IncomeAdds(b, EPOCH, start - 1, asOf);
    } else {
      NoIncomeBefore(b, EPOCH, start - 1);
      if EPOCH <= asOf {
        IncomeAdds(b, start, EPOCH - 1, asOf);
        NoIncomeBefore(b, start, EPOCH - 1);
      } else {
        NoIncomeBefore(b, EPOCH, asOf);
        NoIncomeBefore(b, start, asOf);
      }
    }
  }

  /** The last day before the fiscal period that contains `asOf`; `asOf` itself if none does. */
  function LastPriorDay(b: Books, asOf: int): (day: int) {
    var p := PeriodFor(b.periods, asOf);
    if p.Some? then b.periods[p.value].start - 1 else asOf
  }

  lemma PriorIncome(b: Books, asOf: int)
    requires ModernEntries(b)
    ensures var p := PeriodFor(b.periods, asOf);
            NetIncome(b, EPOCH, asOf) - (if p.Some? then NetIncome(b, b.periods[p.value].start, asOf) else 0)
            == NetIncome(b, EPOCH, LastPriorDay(b, asOf))
  {
    var p := PeriodFor(b.periods, asOf);
    if p.Some? {
      IncomeBefore(b, b.periods[p.value].start, asOf);
    } else {
      assert LastPriorDay(b, asOf) == asOf;
    }
  }

  /**
   With no entry before 1970, the sheet is off by exactly the income dated before the fiscal period
   that contains `asOf` (all income, if none does). It balances if and only if that income is zero,
   that is, has been closed out to equity.
   */
  lemma SheetBalancesWhenClosedOut(b: Books, asOf: int)
    requires ValidBooks(b) && ModernEntries(b)
    ensures var sheet := BalanceSheetReport(b, asOf);
            var prior := NetIncome(b, EPOCH, LastPriorDay(b, asOf));
            && TotalAssets(sheet) - TotalLiabilities(sheet) - TotalEquity(sheet) == prior
            && (TotalAssets(sheet) == TotalLiabilities(sheet) + TotalEquity(sheet) <==> prior == 0)
  {
    GapIsUnclosedIncome(b, asOf);
    PriorIncome(b, asOf);
  }

  // ---------------------------------------------------------------- what a locked period freezes

  lemma {:induction false} SameMovement(entries: seq<Entry>, entries': seq<Entry>, a: nat, side: Side, start: int, end: int)
    requires |entries| <= |entries'|
    requires forall i | 0 <= i < |entries| :: EntryKept(entries[i], entries'[i])
    requires forall i | |entries| <= i < |entries'| :: !(start <= entries'[i].date <= end)
    ensures Movement(entries', a, side, start, end) == Movement(entries, a, side, start, end)
    ensures Moved(entries', a, start, end) == Moved(entries, a, start, end)
    decreases |entries'|
  {
    if entries' != [] {
      var n := |entries'| - 1;
      if n < |entries| {
        assert EntryKept(entries[n], entries'[n]);
        SameMovement(entries[..n], entries'[..n], a, side, start, end);
      } else {
        SameMovement(entries, entries'[..n], a, side, start, end);
      }
    }
  }

  lemma {:induction false} SameRows(b: Books, b': Books, n: nat, start: int, end: int)
    requires ValidBooks(b) && Extends(b, b') && n <= |b'.accounts|
    requires forall i | |b.entries| <= i < |b'.entries| :: !(start <= b'.entries[i].date <= end)
    ensures RowsBelow(b', n, start, end) == RowsBelow(b, if n <= |b.accounts| then n else |b.accounts|, start, end)
    decreases n
  {
    if n > 0 {
      SameRows(b, b', n - 1, start, end);
      SameMovement(b.entries, b'.entries, n - 1, Debit, start, end);
      SameMovement(b.entries, b'.entries, n - 1, Credit, start, end);
      if n <= |b.accounts| {
        assert AccountKept(b.accounts[n - 1], b'.accounts[n - 1]);
      } else {
        UnknownUnmoved(b, n - 1, start, end);
      }
    }
  }

  lemma UnknownUnmoved(b: Books, a: nat, start: int, end: int)
    requires ValidBooks(b) && |b.accounts| <= a
    ensures !Moved(b.entries, a, start, end)
  {
    forall i | 0 <= i < |b.entries| ensures !HasLine(b.entries[i].lines, a) {
      assert ValidEntry(b, i);
    }
    NoLineNoRow(b.entries, a, start, end);
  }

  lemma {:induction false} NoLineNoRow(entries: seq<Entry>, a: nat, start: int, end: int)
    requires forall i | 0 <= i < |entries| :: !HasLine(entries[i].lines, a)
    ensures !Moved(entries, a, start, end)
  {
    if entries != [] {
      NoLineNoRow(entries[..|entries| - 1], a, start, end);
    }
  }

  lemma FrozenByExtension(b: Books, b': Books, p: nat, start: int, end: int)
    requires ValidBooks(b) && Extends(b, b')
    requires p < |b.periods| && b.periods[p].status.Locked?
    requires b.periods[p].start <= start && end <= b.periods[p].end
    ensures TrialBalance(b', start, end) == TrialBalance(b, start, end)
    ensures b'.periods[p] == b.periods[p]
  {
    assert PeriodKept(b.periods[p], b'.periods[p]);
    forall i | |b.entries| <= i < |b'.entries| ensures !(start <= b'.entries[i].date <= end) {
      assert !LockedDay(b, b'.entries[i].date);
    }
    SameRows(b, b', |b'.accounts|, start, end);
  }

  /**
   Once a fiscal period is LOCKED, no run of service calls changes the trial balance (or the profit
   and loss) of any date range inside it.
   */
  lemma LockedPeriodFrozen(b: Books, p: nat, start: int, end: int, calls: seq<Call>)
    requires Sound(b) && (forall i | 0 <= i < |calls| :: ValidCall(calls[i]))
    requires p < |b.periods| && b.periods[p].status.Locked?
    requires b.periods[p].start <= start && end <= b.periods[p].end
    ensures TrialBalance(Run(b, calls), start, end) == TrialBalance(b, start, end)
    ensures ProfitAndLossReport(Run(b, calls), start, end) == ProfitAndLossReport(b, start, end)
    ensures p < |Run(b, calls).periods| && Run(b, calls).periods[p] == b.periods[p]
  {
    RunKeeps(b, calls);
    FrozenByExtension(b, Run(b, calls), p, start, end);
  }
}
