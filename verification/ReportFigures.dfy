/** What the figures of the reports are, account by account and in signs, and what a business event does to income. */
module ReportFigures {
  import opened Prelude
  import opened Posting
  import opened Chart
  import opened Calendar
  import opened Ledger
  import opened LedgerInvariant
  import opened Reports
  import opened ChartRuns
  import opened PostingRules
  import opened PostedMovements
  import opened ControlBalances

  // ---------------------------------------------------------------- the trial balance, row by row

  /** The row an account has in the trial balance, if it has one. */
  ghost predicate RowOf(b: Books, row: Row, start: int, end: int) {
    && row.account < |b.accounts| && Moved(b.entries, row.account, start, end)
    && row.code == b.accounts[row.account].code && row.kind == b.accounts[row.account].kind
    && row.debit == Movement(b.entries, row.account, Debit, start, end)
    && row.credit == Movement(b.entries, row.account, Credit, start, end)
  }

  lemma {:induction false} RowsBelowExact(b: Books, n: nat, start: int, end: int, row: Row)
    requires n <= |b.accounts|
    ensures row in RowsBelow(b, n, start, end) <==> row.account < n && RowOf(b, row, start, end)
    decreases n
  {
    if n > 0 {
      RowsBelowExact(b, n - 1, start, end, row);
    }
  }

  lemma {:induction false} RowsBelowOnce(b: Books, n: nat, start: int, end: int)
    requires n <= |b.accounts|
    ensures forall i, j | 0 <= i < j < |RowsBelow(b, n, start, end)| ::
              RowsBelow(b, n, start, end)[i].account < RowsBelow(b, n, start, end)[j].account
    decreases n
  {
    if n > 0 {
      var before := RowsBelow(b, n - 1, start, end);
      RowsBelowOnce(b, n - 1, start, end);
      forall i | 0 <= i < |before| ensures before[i].account < n - 1 {
        RowsBelowExact(b, n - 1, start, end, before[i]);
      }
    }
  }

  /** The trial balance has one row for each account that moved, with its own two movements, and no other. */
  lemma TrialBalanceExact(b: Books, start: int, end: int, row: Row)
    ensures row in TrialBalance(b, start, end) <==> RowOf(b, row, start, end)
    ensures var rows := TrialBalance(b, start, end); forall i, j | 0 <= i < j < |rows| :: rows[i].account < rows[j].account
  {
    RowsBelowExact(b, |b.accounts|, start, end, row);
    RowsBelowOnce(b, |b.accounts|, start, end);
  }

  // ---------------------------------------------------------------- the figures of a listing

  /** An account of the type that moved, and how: debit less credit for assets and expenses, the reverse for the rest. */
  ghost predicate FigureOf(b: Books, kind: AccountType, f: Figure, start: int, end: int) {
    && f.account < |b.accounts| && b.accounts[f.account].kind == kind && Moved(b.entries, f.account, start, end)
    && var debit, credit := Movement(b.entries, f.account, Debit, start, end), Movement(b.entries, f.account, Credit, start, end);
       match kind
       case Asset => f.amount == debit - credit
       case Expense => f.amount == debit - credit
       case Liability => f.amount == credit - debit
       case Equity => f.amount == credit - debit
       case Revenue => f.amount == credit - debit
  }

  lemma {:induction false} ListingRows(rows: seq<Row>, kind: AccountType, f: Figure)
    ensures f in Listing(rows, kind) <==>
              exists row :: row in rows && row.kind == kind && row.account == f.account && f.amount == Normal(kind, row.debit, row.credit)
  {
    if rows != [] {
      var init, last := rows[..|rows| - 1], rows[|rows| - 1];
      ListingRows(init, kind, f);
      assert forall row :: row in rows <==> row in init || row == last;
    }
  }

  /** A listing has one figure for each account of its type that moved, in the type's own sign, and no other. */
  lemma ListingExact(b: Books, kind: AccountType, start: int, end: int, f: Figure)
    ensures f in Listing(TrialBalance(b, start, end), kind) <==> FigureOf(b, kind, f, start, end)
  {
    var rows := TrialBalance(b, start, end);
    ListingRows(rows, kind, f);
    if f in Listing(rows, kind) {
      var row :| row in rows && row.kind == kind && row.account == f.account && f.amount == Normal(kind, row.debit, row.credit);
      TrialBalanceExact(b, start, end, row);
    }
    if FigureOf(b, kind, f, start, end) {
      var a := b.accounts[f.account];
      var row := Row(f.account, a.code, a.kind,
                     Movement(b.entries, f.account, Debit, start, end), Movement(b.entries, f.account, Credit, start, end));
      TrialBalanceExact(b, start, end, row);
    }
  }

  /** The two halves of the profit and loss. */
  lemma ProfitAndLossExact(b: Books, start: int, end: int, f: Figure)
    ensures f in ProfitAndLossReport(b, start, end).revenue <==> FigureOf(b, Revenue, f, start, end)
    ensures f in ProfitAndLossReport(b, start, end).expense <==> FigureOf(b, Expense, f, start, end)
  {
    ListingExact(b, Revenue, start, end, f);
    ListingExact(b, Expense, start, end, f);
  }

  /** The three parts of the balance sheet, since 1970, and the earnings of the period that contains the day, if one does. */
  lemma BalanceSheetExact(b: Books, asOf: int, f: Figure)
    ensures var sheet := BalanceSheetReport(b, asOf);
            && (f in sheet.assets <==> FigureOf(b, Asset, f, DayNumber(Date(1970, 1, 1)), asOf))
            && (f in sheet.liabilities <==> FigureOf(b, Liability, f, DayNumber(Date(1970, 1, 1)), asOf))
            && (f in sheet.equity <==> FigureOf(b, Equity, f, DayNumber(Date(1970, 1, 1)), asOf))
    ensures var p := PeriodFor(b.periods, asOf);
            BalanceSheetReport(b, asOf).earnings == if p.Some? then NetIncome(b, b.periods[p.value].start, asOf) else 0
  {
    EpochDay();
    ListingExact(b, Asset, EPOCH, asOf, f);
    ListingExact(b, Liability, EPOCH, asOf, f);
    ListingExact(b, Equity, EPOCH, asOf, f);
  }

  // ---------------------------------------------------------------- net income from the journal

  /** What the journal puts on one side of the accounts of a type. */
  function OfKind(b: Books, kind: AccountType, side: Side, start: int, end: int): (r: int) {
    JournalBelow(b.entries, b.accounts, |b.accounts|, Some(kind), side, start, end)
  }

  /** Net income is what revenue accounts were credited less debited, less what expense accounts were debited less credited. */
  lemma NetIncomeExact(b: Books, start: int, end: int)
    ensures NetIncome(b, start, end)
         == (OfKind(b, Revenue, Credit, start, end) - OfKind(b, Revenue, Debit, start, end))
            - (OfKind(b, Expense, Debit, start, end) - OfKind(b, Expense, Credit, start, end))
  {
    var rows := TrialBalance(b, start, end);
    ListingSum(rows, Revenue);
    ListingSum(rows, Expense);
    ColumnBelow(b, |b.accounts|, Some(Revenue), Debit, start, end);
    ColumnBelow(b, |b.accounts|, Some(Revenue), Credit, start, end);
    ColumnBelow(b, |b.accounts|, Some(Expense), Debit, start, end);
    ColumnBelow(b, |b.accounts|, Some(Expense), Credit, start, end);
  }

  // ---------------------------------------------------------------- roles at home

  /** The range of codes of each account type. */
  predicate InRange(kind: AccountType, code: Code) {
    match kind
    case Asset => 1000 <= code < 2000
    case Liability => 2000 <= code < 3000
    case Equity => 3000 <= code < 4000
    case Revenue => 4000 <= code < 5000
    case Expense => 5000 <= code < 6000
  }

  predicate RowsAtHome(rows: seq<DefaultRow>) {
    forall i | 0 <= i < |rows| ::
      InRange(rows[i].kind, rows[i].code) && (rows[i].system.Some? ==> rows[i].kind == Home(rows[i].system.value))
  }

  /** Every default account is of the type its code belongs to, and every role is on an account of its own type. */
  lemma DefaultRowsAtHome()
    ensures RowsAtHome(DEFAULT_ACCOUNTS)
  {
    assert RowsAtHome(ASSET_ROWS);
    assert RowsAtHome(LIABILITY_ROWS);
    assert RowsAtHome(EQUITY_ROWS);
    assert RowsAtHome(REVENUE_ROWS);
    assert RowsAtHome(EXPENSE_ROWS);
  }

  ghost predicate RolesAtHome(accounts: seq<Account>) {
    forall i | 0 <= i < |accounts| && accounts[i].system.Some? :: accounts[i].kind == Home(accounts[i].system.value)
  }

  lemma {:induction false} FreshRolesAtHome(rows: seq<DefaultRow>)
    requires RowsAtHome(rows)
    ensures RolesAtHome(Backfill({}, rows, []))
  {
    if rows != [] {
      var n := |rows| - 1;
      var init := rows[..n];
      assert RowsAtHome(init) by {
        assert forall i | 0 <= i < n :: init[i] == rows[i];
      }
      FreshRolesAtHome(init);
      var before := Backfill({}, init, []);
      assert Backfill({}, rows, []) == before + [FromDefault(before, rows[n])];
    }
  }

  lemma BootstrapWithAtHome(rows: seq<DefaultRow>, b: Books, clock: Clock)
    requires RowsAtHome(rows) && ValidClock(clock) && RolesAtHome(b.accounts)
    requires if b.hasJournal then RowCodes(rows) <= Codes(b.accounts) else b.accounts == []
    ensures RolesAtHome(BootstrapWith(rows, b, clock).accounts)
  {
    if b.hasJournal {
      BackfillDone(Codes(b.accounts), rows, b.accounts);
    } else {
      assert Codes(b.accounts) == {};
      FreshRolesAtHome(rows);
    }
  }

  lemma StepAtHome(b: Books, c: Call)
    requires Sound(b) && RolesAtHome(b.accounts) && ValidCall(c)
    ensures RolesAtHome(Step(b, c).accounts)
    ensures !c.SetStatus? ==> RolesAtHome(Bootstrap(b, c.clock).accounts)
  {
    if !c.SetStatus? {
      DefaultRowsAtHome();
      BootstrapWithAtHome(DEFAULT_ACCOUNTS, b, c.clock);
      WorkChart(Bootstrap(b, c.clock), c);
    }
  }

  /** After every run each role's account is of the role's own type. */
  lemma {:induction false} RolesAlwaysAtHome(calls: seq<Call>)
    requires forall i | 0 <= i < |calls| :: ValidCall(calls[i])
    ensures RolesAtHome(Run(EMPTY_BOOKS, calls).accounts)
  {
    if calls != [] {
      var init := calls[..|calls| - 1];
      RolesAlwaysAtHome(init);
      ReachableSound(init);
      StepAtHome(Run(EMPTY_BOOKS, init), calls[|calls| - 1]);
    }
  }

  // ---------------------------------------------------------------- what a document does to income

  /** Credits less debits on the roles of revenue and expense, as stored. */
  function DocumentIncome(lines: seq<PostingLine>): (r: int) {
    if lines == [] then 0
    else
      var last := lines[|lines| - 1];
      DocumentIncome(lines[..|lines| - 1])
        + if last.target.Role? && (Home(last.target.code) == Revenue || Home(last.target.code) == Expense)
          then Stored(last.credit) - Stored(last.debit) else 0
  }

  /** Credits less debits of stored lines on accounts of revenue and expense. */
  function LinesIncome(lines: seq<Line>, accounts: seq<Account>): (r: int) {
    LinesBelow(lines, accounts, |accounts|, Some(Revenue), Credit) - LinesBelow(lines, accounts, |accounts|, Some(Revenue), Debit)
    + LinesBelow(lines, accounts, |accounts|, Some(Expense), Credit) - LinesBelow(lines, accounts, |accounts|, Some(Expense), Debit)
  }

  lemma LinesBelowAppend(lines: seq<Line>, l: Line, accounts: seq<Account>, kind: Option<AccountType>, side: Side)
    ensures LinesBelow(lines + [l], accounts, |accounts|, kind, side)
         == LinesBelow(lines, accounts, |accounts|, kind, side)
            + if l.account < |accounts| && (kind.None? || kind.value == accounts[l.account].kind) then OnSide(l, side) else 0
  {
    assert (lines + [l])[..|lines|] == lines;
  }

  lemma LinesIncomeAppend(lines: seq<Line>, l: Line, accounts: seq<Account>)
    ensures LinesIncome(lines + [l], accounts)
         == LinesIncome(lines, accounts)
            + if l.account < |accounts| && (accounts[l.account].kind == Revenue || accounts[l.account].kind == Expense)
              then l.credit - l.debit else 0
  {
    LinesBelowAppend(lines, l, accounts, Some(Revenue), Debit);
    LinesBelowAppend(lines, l, accounts, Some(Revenue), Credit);
    LinesBelowAppend(lines, l, accounts, Some(Expense), Debit);
    LinesBelowAppend(lines, l, accounts, Some(Expense), Credit);
  }

  lemma {:induction false} StoredIncome(accounts: seq<Account>, lines: seq<PostingLine>, firstId: nat)
    requires ValidChart(accounts) && RolesAtHome(accounts) && Resolvable(accounts, lines) && ByRole(lines)
    ensures LinesIncome(StoredLines(accounts, lines, firstId), accounts) == DocumentIncome(lines)
  {
    if lines != [] {
      var n := |lines| - 1;
      StoredAppend(accounts, lines, firstId);
      StoredIncome(accounts, lines[..n], firstId);
      LinesIncomeAppend(StoredLines(accounts, lines[..n], firstId), StoredLine(accounts, lines[n], firstId + n), accounts);
      RoleIsAccount(accounts, lines[n].target.code, Resolve(accounts, lines[n].target).value);
    }
  }

  lemma JournalAppend(entries: seq<Entry>, e: Entry, accounts: seq<Account>, kind: AccountType, side: Side, start: int, end: int)
    ensures JournalBelow(entries + [e], accounts, |accounts|, Some(kind), side, start, end)
         == JournalBelow(entries, accounts, |accounts|, Some(kind), side, start, end)
            + if Counts(e, start, end) then LinesBelow(e.lines, accounts, |accounts|, Some(kind), side) else 0
  {
    assert (entries + [e])[..|entries|] == entries;
  }

  lemma PostedOfKind(b: Books, q: PostRequest, kind: AccountType, side: Side, start: int, end: int)
    requires PostError(b, q).None?
    ensures OfKind(PostTo(b, q).books, kind, side, start, end)
         == OfKind(b, kind, side, start, end)
            + if start <= q.date <= end
              then LinesBelow(StoredLines(b.accounts, q.lines, LineCount(b.entries)), b.accounts, |b.accounts|, Some(kind), side) else 0
  {
    JournalAppend(b.entries, NewEntry(b, q), b.accounts, kind, side, start, end);
  }

  lemma PostedIncome(b: Books, q: PostRequest, start: int, end: int)
    requires PostError(b, q).None?
    ensures NetIncome(PostTo(b, q).books, start, end)
         == NetIncome(b, start, end)
            + if start <= q.date <= end then LinesIncome(StoredLines(b.accounts, q.lines, LineCount(b.entries)), b.accounts) else 0
  {
    NetIncomeExact(b, start, end);
    NetIncomeExact(PostTo(b, q).books, start, end);
    PostedOfKind(b, q, Revenue, Debit, start, end);
    PostedOfKind(b, q, Revenue, Credit, start, end);
    PostedOfKind(b, q, Expense, Debit, start, end);
    PostedOfKind(b, q, Expense, Credit, start, end);
  }

  lemma BootstrapIncome(b: Books, clock: Clock, start: int, end: int)
    requires Sound(b) && ValidClock(clock)
    ensures NetIncome(Bootstrap(b, clock), start, end) == NetIncome(b, start, end)
  {
    BootstrapKeeps(b, clock);
    if !b.hasJournal {
      NetIncomeExact(b, start, end);
      NetIncomeExact(Bootstrap(b, clock), start, end);
    }
  }

  lemma DocumentMovesIncomeIn(b: Books, q: PostRequest, start: int, end: int)
    requires ValidChart(b.accounts) && RolesAtHome(b.accounts) && ByRole(q.lines) && PostError(b, q).None?
    ensures NetIncome(PostTo(b, q).books, start, end)
         == NetIncome(b, start, end) + if start <= q.date <= end then DocumentIncome(q.lines) else 0
  {
    PostedIncome(b, q, start, end);
    StoredIncome(b.accounts, q.lines, LineCount(b.entries));
  }

  lemma DocumentMovesIncomeFrom(b: Books, clock: Clock, q: PostRequest, start: int, end: int)
    requires Sound(b) && RolesAtHome(b.accounts) && ValidClock(clock) && ByRole(q.lines)
    requires Post(b, clock, q).result.Success?
    ensures NetIncome(Post(b, clock, q).books, start, end)
         == NetIncome(b, start, end) + if start <= q.date <= end then DocumentIncome(q.lines) else 0
  {
    BootstrapKeeps(b, clock);
    StepAtHome(b, Read(clock));
    BootstrapIncome(b, clock, start, end);
    DocumentMovesIncomeIn(Bootstrap(b, clock), q, start, end);
  }

  /**
   After every run: an accepted document raises the net income of every range that holds its date by what
   it credits to revenue and expense roles less what it debits to them, as stored, and of no other range.
   */
  lemma DocumentMovesIncome(calls: seq<Call>, clock: Clock, q: PostRequest, start: int, end: int)
    requires (forall i | 0 <= i < |calls| :: ValidCall(calls[i])) && ValidClock(clock) && ByRole(q.lines)
    requires Post(Run(EMPTY_BOOKS, calls), clock, q).result.Success?
    ensures NetIncome(Post(Run(EMPTY_BOOKS, calls), clock, q).books, start, end)
         == NetIncome(Run(EMPTY_BOOKS, calls), start, end) + if start <= q.date <= end then DocumentIncome(q.lines) else 0
  {
    ReachableSound(calls);
    RolesAlwaysAtHome(calls);
    DocumentMovesIncomeFrom(Run(EMPTY_BOOKS, calls), clock, q, start, end);
  }

  // ---------------------------------------------------------------- what a business event does to income

  /** Sales less returns, less the cost of what left the stock and stayed out. */
  function EventIncome(e: Event): (r: int) {
    match e
    case CashSold(net, _, cost) => Stored(net) - Stored(cost)
    case CreditSold(net, _) => Stored(net)
    case Fulfilled(cost) => -Stored(cost)
    case CustomerPaid(_, _) => 0
    case Returned(net, _, cost) => -Stored(net) + Stored(cost)
    case Refunded(net, _, cost, restock) => -Stored(net) + if restock then Stored(cost) else 0
    case Received(_) => 0
    case Billed(_, _) => 0
    case SupplierPaid(_, _) => 0
  }

  function DocumentsIncome(docs: seq<seq<PostingLine>>): (r: int) {
    if docs == [] then 0 else DocumentsIncome(docs[..|docs| - 1]) + DocumentIncome(docs[|docs| - 1])
  }

  lemma DocumentIncomeAppend(lines: seq<PostingLine>, l: PostingLine)
    ensures DocumentIncome(lines + [l])
         == DocumentIncome(lines)
            + if l.target.Role? && (Home(l.target.code) == Revenue || Home(l.target.code) == Expense)
              then Stored(l.credit) - Stored(l.debit) else 0
  {
    assert (lines + [l])[..|lines|] == lines;
  }

  /** One line: its amount with its sign, if its role is of revenue or expense. */
  lemma LineIncome(lines: seq<PostingLine>, code: SystemCode, amount: real)
    ensures var counted := Home(code) == Revenue || Home(code) == Expense;
            && DocumentIncome(lines + [Dr(code, amount)]) == DocumentIncome(lines) - (if counted then Stored(amount) else 0)
            && DocumentIncome(lines + [Cr(code, amount)]) == DocumentIncome(lines) + (if counted then Stored(amount) else 0)
  {
    ZeroStored();
    DocumentIncomeAppend(lines, Dr(code, amount));
    DocumentIncomeAppend(lines, Cr(code, amount));
  }

  lemma PairIncome(dr: SystemCode, cr: SystemCode, amount: real)
    ensures DocumentIncome([Dr(dr, amount), Cr(cr, amount)])
         == (if Home(cr) == Revenue || Home(cr) == Expense then Stored(amount) else 0)
            - (if Home(dr) == Revenue || Home(dr) == Expense then Stored(amount) else 0)
  {
    var none: seq<PostingLine> := [];
    LineIncome(none, dr, amount);
    LineIncome(none + [Dr(dr, amount)], cr, amount);
    assert none + [Dr(dr, amount)] + [Cr(cr, amount)] == [Dr(dr, amount), Cr(cr, amount)];
  }

  /** A sale: the net is income; the whole and the tax are not. */
  lemma InvoicedIncome(whole: SystemCode, net: real, tax: real)
    requires Home(whole) == Asset
    ensures DocumentIncome(Invoiced(whole, SalesRevenue, VatOutput, net, tax)) == Stored(net)
  {
    var none: seq<PostingLine> := [];
    LineIncome(none, whole, net + tax);
    LineIncome(none + [Dr(whole, net + tax)], SalesRevenue, net);
    var two := [Dr(whole, net + tax), Cr(SalesRevenue, net)];
    assert none + [Dr(whole, net + tax)] + [Cr(SalesRevenue, net)] == two;
    LineIncome(two, VatOutput, tax);
    assert two + [] == two;
  }

  lemma SettledIncome(whole: SystemCode, part: SystemCode, vat: SystemCode, net: real, tax: real)
    requires !(Home(whole) == Revenue || Home(whole) == Expense) && !(Home(vat) == Revenue || Home(vat) == Expense)
    ensures DocumentIncome(Settled(whole, part, vat, net, tax))
         == -(if Home(part) == Revenue || Home(part) == Expense then Stored(net) else 0)
  {
    var none: seq<PostingLine> := [];
    var one := [Dr(part, net)];
    LineIncome(none, part, net);
    assert none + one == one && one + [] == one;
    LineIncome(one, vat, tax);
    LineIncome(one + if tax != 0.0 then [Dr(vat, tax)] else [], whole, net + tax);
  }

  lemma DocumentsIncomeOf(x: seq<PostingLine>, y: seq<PostingLine>)
    ensures DocumentsIncome([x]) == DocumentIncome(x)
    ensures DocumentsIncome([x, y]) == DocumentIncome(x) + DocumentIncome(y)
  {
    assert [x][..0] == [] && [x, y][..1] == [x];
  }

  /** Goods back into stock, if there are any to put back. */
  lemma RestockIncome(first: seq<PostingLine>, cost: real, present: bool)
    ensures var docs := if present && cost != 0.0 then [first, [Dr(Inventory, cost), Cr(Cogs, cost)]] else [first];
            DocumentsIncome(docs) == DocumentIncome(first) + if present then Stored(cost) else 0
  {
    ZeroStored();
    PairIncome(Inventory, Cogs, cost);
    DocumentsIncomeOf(first, [Dr(Inventory, cost), Cr(Cogs, cost)]);
  }

  lemma SaleIncome(e: Event)
    requires e.CashSold? || e.CreditSold? || e.Fulfilled? || e.CustomerPaid?
    ensures DocumentsIncome(Entries(e)) == EventIncome(e)
  {
    match e
    case CashSold(net, tax, cost) =>
      InvoicedIncome(Cash, net, tax);
      PairIncome(Cogs, Inventory, cost);
      DocumentsIncomeOf(CashSale(net, tax, cost).0, CashSale(net, tax, cost).1);
    case CreditSold(net, tax) =>
      InvoicedIncome(ArControl, net, tax);
      DocumentsIncomeOf(CreditSale(net, tax), []);
    case Fulfilled(cost) =>
      PairIncome(Cogs, Inventory, cost);
      DocumentsIncomeOf(CogsRecognition(cost), []);
    case CustomerPaid(amount, cash) =>
      PairIncome(if cash then Cash else Bank, ArControl, amount);
      DocumentsIncomeOf(CustomerPayment(amount, cash), []);
  }

  lemma ReturnIncome(e: Event)
    requires e.Returned? || e.Refunded?
    ensures DocumentsIncome(Entries(e)) == EventIncome(e)
  {
    var whole := if e.Returned? then ArControl else Cash;
    SettledIncome(whole, SalesReturns, VatOutput, e.net, e.tax);
    RestockIncome(Settled(whole, SalesReturns, VatOutput, e.net, e.tax), e.cost, e.Returned? || e.restock);
  }

  lemma PurchaseIncome(e: Event)
    requires e.Received? || e.Billed? || e.SupplierPaid?
    ensures DocumentsIncome(Entries(e)) == EventIncome(e)
  {
    match e
    case Received(cost) =>
      PairIncome(Inventory, Grni, cost);
      DocumentsIncomeOf(GoodsReceipt(cost), []);
    case Billed(net, tax) =>
      SettledIncome(ApControl, Grni, VatInput, net, tax);
      DocumentsIncomeOf(SupplierBill(net, tax), []);
    case SupplierPaid(amount, cash) =>
      PairIncome(ApControl, if cash then Cash else Bank, amount);
      DocumentsIncomeOf(SupplierPayment(amount, cash), []);
  }

  /** The documents of an event are worth to income what the event is: a credit sale its net, and nothing for money merely moving. */
  lemma EventIncomeExact(e: Event)
    ensures DocumentsIncome(Entries(e)) == EventIncome(e)
  {
    if e.CashSold? || e.CreditSold? || e.Fulfilled? || e.CustomerPaid? {
      SaleIncome(e);
    } else if e.Returned? || e.Refunded? {
      ReturnIncome(e);
    } else {
      PurchaseIncome(e);
    }
  }

  lemma CreditSaleIncome(lines: seq<PostingLine>, net: real, tax: real)
    requires lines == CreditSale(net, tax)
    ensures ByRole(lines) && DocumentIncome(lines) == Stored(net)
  {
    InvoicedIncome(ArControl, net, tax);
  }

  /** So a credit sale, once accepted, raises the net income of every range that holds its date by its net, as stored. */
  lemma CreditSaleRaisesIncome(calls: seq<Call>, clock: Clock, q: PostRequest, net: real, tax: real, start: int, end: int)
    requires (forall i | 0 <= i < |calls| :: ValidCall(calls[i])) && ValidClock(clock) && q.lines == CreditSale(net, tax)
    requires Post(Run(EMPTY_BOOKS, calls), clock, q).result.Success? && start <= q.date <= end
    ensures NetIncome(Post(Run(EMPTY_BOOKS, calls), clock, q).books, start, end)
         == NetIncome(Run(EMPTY_BOOKS, calls), start, end) + Stored(net)
  {
    CreditSaleIncome(q.lines, net, tax);
    DocumentMovesIncome(calls, clock, q, start, end);
  }
}
