/**
 The control accounts of the ledger itself: what the books show for receivables, payables and goods
 received not invoiced after any run of service calls whose documents record a sequence of business
 events, in stored amounts.
 */
module ControlBalances {
  import opened Prelude
  import opened Posting
  import opened Chart
  import opened Calendar
  import opened Ledger
  import opened LedgerInvariant
  import opened Reports
  import opened Reversals
  import opened PostingRules
  import opened ChartRuns

  // ---------------------------------------------------------------- balances

  /** Debit less credit of all posted lines on an account. */
  function Balance(entries: seq<Entry>, a: nat): (r: int) {
    if entries == [] then 0
    else
      var last := entries[|entries| - 1];
      Balance(entries[..|entries| - 1], a) + if last.status.Posted? then NetOn(last, a) else 0
  }

  /** Which is what the trial balance shows over any range that covers the journal. */
  lemma {:induction false} BalanceIsMovement(entries: seq<Entry>, a: nat, start: int, end: int)
    requires forall i | 0 <= i < |entries| :: start <= entries[i].date <= end
    ensures Balance(entries, a) == Movement(entries, a, Debit, start, end) - Movement(entries, a, Credit, start, end)
  {
    if entries != [] {
      BalanceIsMovement(entries[..|entries| - 1], a, start, end);
    }
  }

  /** The balance of a role's account; nothing before there is one. */
  function RoleBalance(b: Books, code: SystemCode): (r: int) {
    var a := FindSystem(b.accounts, code);
    if a.Some? then Balance(b.entries, a.value) else 0
  }

  /** What a request puts on a role, each line rounded as it is stored. */
  function StoredNet(lines: seq<PostingLine>, code: SystemCode): (r: int) {
    if lines == [] then 0
    else
      var last := lines[|lines| - 1];
      StoredNet(lines[..|lines| - 1], code) + if last.target == Role(code) then Stored(last.debit) - Stored(last.credit) else 0
  }

  lemma BalanceAppend(entries: seq<Entry>, e: Entry, a: nat)
    ensures Balance(entries + [e], a) == Balance(entries, a) + if e.status.Posted? then NetOn(e, a) else 0
  {
    assert (entries + [e])[..|entries|] == entries;
  }

  lemma LinesOnAppend(lines: seq<Line>, l: Line, a: nat)
    ensures LinesOn(lines + [l], a, Debit) - LinesOn(lines + [l], a, Credit)
         == LinesOn(lines, a, Debit) - LinesOn(lines, a, Credit) + if l.account == a then l.debit - l.credit else 0
  {
    assert (lines + [l])[..|lines|] == lines;
  }

  /** The lines a document stores put on a role's account what the request put on the role. */
  lemma {:induction false} StoredLinesNet(accounts: seq<Account>, lines: seq<PostingLine>, firstId: nat, code: SystemCode, a: nat)
    requires Resolvable(accounts, lines) && forall k | 0 <= k < |lines| :: lines[k].target.Role?
    requires FindSystem(accounts, code) == Some(a)
    ensures LinesOn(StoredLines(accounts, lines, firstId), a, Debit) - LinesOn(StoredLines(accounts, lines, firstId), a, Credit)
         == StoredNet(lines, code)
  {
    if lines != [] {
      var n := |lines| - 1;
      var init, last := lines[..n], lines[n];
      StoredLinesNet(accounts, init, firstId, code, a);
      var row := StoredLine(accounts, last, firstId + n);
      assert StoredLines(accounts, lines, firstId) == StoredLines(accounts, init, firstId) + [row];
      LinesOnAppend(StoredLines(accounts, init, firstId), row, a);
      assert row.account == a <==> last.target == Role(code) by {
        assert FindSystem(accounts, last.target.code).Some?;
      }
    }
  }

  // ---------------------------------------------------------------- one call

  ghost predicate Accepted(b: Books, c: Call)
    requires ValidCall(c) && !c.SetStatus?
  {
    Work(Bootstrap(b, c.clock), c).result.Success?
  }

  /** An accepted call posts by document or not at all. */
  ghost predicate ByDocument(b: Books, c: Call)
    requires ValidCall(c)
  {
    c.PostByHand? || c.ReverseEntry? ==> !Accepted(b, c)
  }

  /** The lines of the document an accepted call posted, if it was one. */
  ghost function DocumentOf(b: Books, c: Call): (r: seq<seq<PostingLine>>)
    requires ValidCall(c)
  {
    if c.PostDocument? && Accepted(b, c) then [c.lines] else []
  }

  /** Bootstrapped books show the same balance, and have an account for the role. */
  lemma BootstrapBalance(b: Books, clock: Clock, code: SystemCode)
    requires Sound(b) && ValidClock(clock)
    ensures var r := Bootstrap(b, clock);
            RoleBalance(r, code) == RoleBalance(b, code) && FindSystem(r.accounts, code).Some? && ValidChart(r.accounts)
  {
    BootstrapKeeps(b, clock);
    RolesAlwaysResolve(b, clock, code);
    if !b.hasJournal {
      assert b.entries == [];
    }
  }

  lemma PostBalance(b: Books, q: PostRequest, code: SystemCode)
    requires FindSystem(b.accounts, code).Some? && PostError(b, q).None?
    requires forall k | 0 <= k < |q.lines| :: q.lines[k].target.Role?
    ensures RoleBalance(PostTo(b, q).books, code) == RoleBalance(b, code) + StoredNet(q.lines, code)
  {
    var a := FindSystem(b.accounts, code).value;
    BalanceAppend(b.entries, NewEntry(b, q), a);
    StoredLinesNet(b.accounts, q.lines, LineCount(b.entries), code, a);
  }

  lemma AddAccountBalance(b: Books, a: NewAccount, code: SystemCode)
    requires ValidBooks(b) && b.hasJournal && FindSystem(b.accounts, code).Some?
    ensures RoleBalance(AddAccountTo(b, a).books, code) == RoleBalance(b, code)
  {
    var r := AddAccountTo(b, a).books;
    AddAccountKeeps(b, a);
    var i := FindSystem(b.accounts, code).value;
    assert AccountKept(b.accounts[i], r.accounts[i]);
    RoleFixed(b.accounts, r.accounts, code, i);
  }

  function DocumentsNet(docs: seq<seq<PostingLine>>, code: SystemCode): (r: int) {
    if docs == [] then 0 else DocumentsNet(docs[..|docs| - 1], code) + StoredNet(docs[|docs| - 1], code)
  }

  lemma {:induction false} DocumentsNetAppend(x: seq<seq<PostingLine>>, y: seq<seq<PostingLine>>, code: SystemCode)
    ensures DocumentsNet(x + y, code) == DocumentsNet(x, code) + DocumentsNet(y, code)
  {
    if y == [] {
      assert x + y == x;
    } else {
      DocumentsNetAppend(x, y[..|y| - 1], code);
      assert (x + y)[..|x + y| - 1] == x + y[..|y| - 1];
    }
  }

  lemma OneDocument(lines: seq<PostingLine>, code: SystemCode)
    ensures DocumentsNet([lines], code) == StoredNet(lines, code)
  {
    assert [lines][..0] == [];
  }

  lemma WorkBalance(b: Books, c: Call, code: SystemCode)
    requires ValidBooks(b) && b.hasJournal && FindSystem(b.accounts, code).Some?
    requires ValidCall(c) && !c.SetStatus? && !c.PostByHand? && !c.ReverseEntry? && Work(b, c).result.Success?
    ensures RoleBalance(Work(b, c).books, code) == RoleBalance(b, code) + if c.PostDocument? then StoredNet(c.lines, code) else 0
  {
    if c.AddAccount? {
      AddAccountBalance(b, c.account, code);
    } else if c.PostDocument? {
      PostBalance(b, PostRequest(c.date, Document(c.kind, c.id, c.event), c.lines, c.mayPostClosed), code);
    }
  }

  /** A call moves a role's balance by the document it posted. */
  lemma StepBalance(b: Books, c: Call, code: SystemCode)
    requires Sound(b) && ValidCall(c) && ByDocument(b, c)
    ensures RoleBalance(Step(b, c), code) == RoleBalance(b, code) + DocumentsNet(DocumentOf(b, c), code)
  {
    if !c.SetStatus? && Accepted(b, c) {
      BootstrapKeeps(b, c.clock);
      BootstrapBalance(b, c.clock, code);
      WorkBalance(Bootstrap(b, c.clock), c, code);
      OneDocument(if c.PostDocument? then c.lines else [], code);
    }
  }

  // ---------------------------------------------------------------- whole runs

  /** The documents a run posted, in order. */
  ghost function Documents(calls: seq<Call>): (r: seq<seq<PostingLine>>)
    requires forall i | 0 <= i < |calls| :: ValidCall(calls[i])
  {
    if calls == [] then []
    else
      var init := calls[..|calls| - 1];
      Documents(init) + DocumentOf(Run(EMPTY_BOOKS, init), calls[|calls| - 1])
  }

  ghost predicate OnlyDocuments(calls: seq<Call>)
    requires forall i | 0 <= i < |calls| :: ValidCall(calls[i])
  {
    calls == [] ||
      var init := calls[..|calls| - 1];
      OnlyDocuments(init) && ByDocument(Run(EMPTY_BOOKS, init), calls[|calls| - 1])
  }

  /** After any run that posts by document alone, every role shows what the documents put on it. */
  lemma {:induction false} RunBalance(calls: seq<Call>, code: SystemCode)
    requires (forall i | 0 <= i < |calls| :: ValidCall(calls[i])) && OnlyDocuments(calls)
    ensures RoleBalance(Run(EMPTY_BOOKS, calls), code) == DocumentsNet(Documents(calls), code)
  {
    if calls != [] {
      var init, c := calls[..|calls| - 1], calls[|calls| - 1];
      RunBalance(init, code);
      ReachableSound(init);
      var b := Run(EMPTY_BOOKS, init);
      StepBalance(b, c, code);
      DocumentsNetAppend(Documents(init), DocumentOf(b, c), code);
    }
  }

  // ---------------------------------------------------------------- events

  /** The one or two entries an event is recorded by. */
  function Entries(e: Event): (r: seq<seq<PostingLine>>)
  {
    match e
    case CashSold(net, tax, cost) => var s := CashSale(net, tax, cost); [s.0, s.1]
    case CreditSold(net, tax) => [CreditSale(net, tax)]
    case Fulfilled(cost) => [CogsRecognition(cost)]
    case CustomerPaid(amount, cash) => [CustomerPayment(amount, cash)]
    case Returned(net, tax, cost) => var s := SalesReturn(net, tax, cost); if s.1.Some? then [s.0, s.1.value] else [s.0]
    case Refunded(net, tax, cost, restock) =>
      var s := PosRefund(net, tax, cost, restock); if s.1.Some? then [s.0, s.1.value] else [s.0]
    case Received(cost) => [GoodsReceipt(cost)]
    case Billed(net, tax) => [SupplierBill(net, tax)]
    case SupplierPaid(amount, cash) => [SupplierPayment(amount, cash)]
  }

  function Recorded(events: seq<Event>): (r: seq<seq<PostingLine>>) {
    if events == [] then [] else Recorded(events[..|events| - 1]) + Entries(events[|events| - 1])
  }

  /** Documents less settlements on the three control accounts, each amount as it is stored. */
  function StoredReceivable(e: Event): (r: int) {
    if e.CreditSold? then Stored(e.net + e.tax)
    else if e.CustomerPaid? then -Stored(e.amount)
    else if e.Returned? then -Stored(e.net + e.tax) else 0
  }

  function StoredPayable(e: Event): (r: int) {
    if e.Billed? then Stored(e.net + e.tax) else if e.SupplierPaid? then -Stored(e.amount) else 0
  }

  function StoredUnbilled(e: Event): (r: int) {
    if e.Received? then Stored(e.cost) else if e.Billed? then -Stored(e.net) else 0
  }

  /** What an event is worth on a control account, debit positive. */
  function Worth(e: Event, code: SystemCode): (r: int) {
    match code
    case ArControl => StoredReceivable(e)
    case ApControl => -StoredPayable(e)
    case Grni => -StoredUnbilled(e)
    case _ => 0
  }

  predicate Control(code: SystemCode) {
    code == ArControl || code == ApControl || code == Grni
  }

  lemma StoredNetAppend(lines: seq<PostingLine>, l: PostingLine, code: SystemCode)
    ensures StoredNet(lines + [l], code)
         == StoredNet(lines, code) + if l.target == Role(code) then Stored(l.debit) - Stored(l.credit) else 0
  {
    assert (lines + [l])[..|lines|] == lines;
  }

  lemma PairNet(a: PostingLine, b: PostingLine, code: SystemCode)
    ensures StoredNet([a, b], code) == StoredNet([a], code) + StoredNet([b], code)
  {
    StoredNetAppend([], a, code);
    StoredNetAppend([], b, code);
    StoredNetAppend([a], b, code);
    assert [] + [a] == [a] && [] + [b] == [b] && [a] + [b] == [a, b];
  }

  /** One line: on its own role its stored amount, on its side; elsewhere nothing. */
  lemma SideNet(side: SystemCode, amount: real, code: SystemCode)
    ensures StoredNet([Dr(side, amount)], code) == if side == code then Stored(amount) else 0
    ensures StoredNet([Cr(side, amount)], code) == if side == code then -Stored(amount) else 0
  {
    ZeroStored();
    StoredNetAppend([], Dr(side, amount), code);
    StoredNetAppend([], Cr(side, amount), code);
    assert [] + [Dr(side, amount)] == [Dr(side, amount)] && [] + [Cr(side, amount)] == [Cr(side, amount)];
  }

  lemma DrCrNet(dr: SystemCode, cr: SystemCode, amount: real, code: SystemCode)
    ensures StoredNet([Dr(dr, amount), Cr(cr, amount)], code)
         == (if dr == code then Stored(amount) else 0) - (if cr == code then Stored(amount) else 0)
  {
    PairNet(Dr(dr, amount), Cr(cr, amount), code);
    SideNet(dr, amount, code);
    SideNet(cr, amount, code);
  }

  lemma InvoicedStored(whole: SystemCode, part: SystemCode, vat: SystemCode, net: real, tax: real, code: SystemCode)
    requires vat != code
    ensures StoredNet(Invoiced(whole, part, vat, net, tax), code)
         == (if whole == code then Stored(net + tax) else 0) - (if part == code then Stored(net) else 0)
  {
    PairNet(Dr(whole, net + tax), Cr(part, net), code);
    SideNet(whole, net + tax, code);
    SideNet(part, net, code);
    StoredNetAppend([Dr(whole, net + tax), Cr(part, net)], Cr(vat, tax), code);
    assert [Dr(whole, net + tax), Cr(part, net)] + [] == [Dr(whole, net + tax), Cr(part, net)];
  }

  lemma SettledStored(whole: SystemCode, part: SystemCode, vat: SystemCode, net: real, tax: real, code: SystemCode)
    requires vat != code
    ensures StoredNet(Settled(whole, part, vat, net, tax), code)
         == (if part == code then Stored(net) else 0) - (if whole == code then Stored(net + tax) else 0)
  {
    var head := [Dr(part, net)] + if tax != 0.0 then [Dr(vat, tax)] else [];
    SideNet(part, net, code);
    SideNet(whole, net + tax, code);
    StoredNetAppend([Dr(part, net)], Dr(vat, tax), code);
    assert [Dr(part, net)] + [] == [Dr(part, net)];
    assert StoredNet(head, code) == StoredNet([Dr(part, net)], code);
    StoredNetAppend(head, Cr(whole, net + tax), code);
    StoredNetAppend([], Cr(whole, net + tax), code);
    assert [] + [Cr(whole, net + tax)] == [Cr(whole, net + tax)];
  }

  lemma TwoDocuments(x: seq<PostingLine>, y: seq<PostingLine>, code: SystemCode)
    ensures DocumentsNet([x, y], code) == StoredNet(x, code) + StoredNet(y, code)
  {
    assert [x, y][..1] == [x];
    OneDocument(x, code);
  }

  lemma CashSoldWorth(net: real, tax: real, cost: real, code: SystemCode)
    requires Control(code)
    ensures DocumentsNet(Entries(CashSold(net, tax, cost)), code) == Worth(CashSold(net, tax, cost), code)
  {
    var s := CashSale(net, tax, cost);
    TwoDocuments(s.0, s.1, code);
    InvoicedStored(Cash, SalesRevenue, VatOutput, net, tax, code);
    DrCrNet(Cogs, Inventory, cost, code);
  }

  lemma CreditSoldWorth(net: real, tax: real, code: SystemCode)
    requires Control(code)
    ensures DocumentsNet(Entries(CreditSold(net, tax)), code) == Worth(CreditSold(net, tax), code)
  {
    OneDocument(CreditSale(net, tax), code);
    InvoicedStored(ArControl, SalesRevenue, VatOutput, net, tax, code);
  }

  lemma FulfilledWorth(cost: real, code: SystemCode)
    requires Control(code)
    ensures DocumentsNet(Entries(Fulfilled(cost)), code) == Worth(Fulfilled(cost), code)
  {
    OneDocument(CogsRecognition(cost), code);
    DrCrNet(Cogs, Inventory, cost, code);
  }

  lemma CustomerPaidWorth(amount: real, cash: bool, code: SystemCode)
    requires Control(code)
    ensures DocumentsNet(Entries(CustomerPaid(amount, cash)), code) == Worth(CustomerPaid(amount, cash), code)
  {
    OneDocument(CustomerPayment(amount, cash), code);
    DrCrNet(if cash then Cash else Bank, ArControl, amount, code);
  }

  /** A credit for the whole, and perhaps goods back into stock: nothing else reaches a control account. */
  lemma SettledAndRestocked(whole: SystemCode, net: real, tax: real, cost: real, code: SystemCode)
    requires Control(code)
    ensures var first, second := Settled(whole, SalesReturns, VatOutput, net, tax), [Dr(Inventory, cost), Cr(Cogs, cost)];
            && DocumentsNet([first], code) == -(if whole == code then Stored(net + tax) else 0)
            && DocumentsNet([first, second], code) == DocumentsNet([first], code)
  {
    var first, second := Settled(whole, SalesReturns, VatOutput, net, tax), [Dr(Inventory, cost), Cr(Cogs, cost)];
    OneDocument(first, code);
    TwoDocuments(first, second, code);
    SettledStored(whole, SalesReturns, VatOutput, net, tax, code);
    DrCrNet(Inventory, Cogs, cost, code);
  }

  lemma ReturnWorth(e: Event, code: SystemCode)
    requires Control(code) && (e.Returned? || e.Refunded?)
    ensures DocumentsNet(Entries(e), code) == Worth(e, code)
  {
    SettledAndRestocked(if e.Returned? then ArControl else Cash, e.net, e.tax, e.cost, code);
  }

  lemma ReceivedWorth(cost: real, code: SystemCode)
    requires Control(code)
    ensures DocumentsNet(Entries(Received(cost)), code) == Worth(Received(cost), code)
  {
    OneDocument(GoodsReceipt(cost), code);
    DrCrNet(Inventory, Grni, cost, code);
  }

  lemma BilledWorth(net: real, tax: real, code: SystemCode)
    requires Control(code)
    ensures DocumentsNet(Entries(Billed(net, tax)), code) == Worth(Billed(net, tax), code)
  {
    OneDocument(SupplierBill(net, tax), code);
    SettledStored(ApControl, Grni, VatInput, net, tax, code);
  }

  lemma SupplierPaidWorth(amount: real, cash: bool, code: SystemCode)
    requires Control(code)
    ensures DocumentsNet(Entries(SupplierPaid(amount, cash)), code) == Worth(SupplierPaid(amount, cash), code)
  {
    OneDocument(SupplierPayment(amount, cash), code);
    DrCrNet(ApControl, if cash then Cash else Bank, amount, code);
  }

  lemma EventWorth(e: Event, code: SystemCode)
    requires Control(code)
    ensures DocumentsNet(Entries(e), code) == Worth(e, code)
  {
    match e
    case CashSold(net, tax, cost) => CashSoldWorth(net, tax, cost, code);
    case CreditSold(net, tax) => CreditSoldWorth(net, tax, code);
    case Fulfilled(cost) => FulfilledWorth(cost, code);
    case CustomerPaid(amount, cash) => CustomerPaidWorth(amount, cash, code);
    case Returned(_, _, _) => ReturnWorth(e, code);
    case Refunded(_, _, _, _) => ReturnWorth(e, code);
    case Received(cost) => ReceivedWorth(cost, code);
    case Billed(net, tax) => BilledWorth(net, tax, code);
    case SupplierPaid(amount, cash) => SupplierPaidWorth(amount, cash, code);
  }

  function TotalWorth(events: seq<Event>, code: SystemCode): (r: int) {
    if events == [] then 0 else TotalWorth(events[..|events| - 1], code) + Worth(events[|events| - 1], code)
  }

  lemma {:induction false} RecordedWorth(events: seq<Event>, code: SystemCode)
    requires Control(code)
    ensures DocumentsNet(Recorded(events), code) == TotalWorth(events, code)
  {
    if events != [] {
      var init, e := events[..|events| - 1], events[|events| - 1];
      RecordedWorth(init, code);
      DocumentsNetAppend(Recorded(init), Entries(e), code);
      EventWorth(e, code);
    }
  }

  /**
   The books themselves. After any run of service calls from nothing whose accepted postings are the
   entries of a sequence of business events, in order, each control account's balance is its documents
   less its settlements in stored amounts, whatever accounts, periods and refusals came in between.
   */
  lemma LedgerControlAccounts(calls: seq<Call>, events: seq<Event>, code: SystemCode)
    requires (forall i | 0 <= i < |calls| :: ValidCall(calls[i])) && OnlyDocuments(calls)
    requires Documents(calls) == Recorded(events) && Control(code)
    ensures RoleBalance(Run(EMPTY_BOOKS, calls), code) == TotalWorth(events, code)
  {
    RunBalance(calls, code);
    RecordedWorth(events, code);
  }

  /** What the amounts come to before rounding. */
  function ExactWorth(events: seq<Event>, code: SystemCode): (r: real) {
    match code
    case ArControl => Receivable(events)
    case ApControl => -Payable(events)
    case Grni => -Unbilled(events)
    case _ => 0.0
  }

  /** Which is within half a quantum per event of the unrounded documents less settlements. */
  lemma {:induction false} WorthNear(events: seq<Event>, code: SystemCode)
    requires Control(code)
    ensures -(|events| as real) * 0.5 <= TotalWorth(events, code) as real - ExactWorth(events, code) <= |events| as real * 0.5
  {
    if events != [] {
      WorthNear(events[..|events| - 1], code);
      EventNear(events[|events| - 1]);
    }
  }

  lemma EventNear(e: Event)
    ensures e.CreditSold? || e.Returned? || e.Billed? ==> -0.5 <= Stored(e.net + e.tax) as real - (e.net + e.tax) <= 0.5
    ensures e.Billed? ==> -0.5 <= Stored(e.net) as real - e.net <= 0.5
    ensures e.CustomerPaid? || e.SupplierPaid? ==> -0.5 <= Stored(e.amount) as real - e.amount <= 0.5
    ensures e.Received? ==> -0.5 <= Stored(e.cost) as real - e.cost <= 0.5
  {
    if e.CreditSold? || e.Returned? || e.Billed? {
      StoredError(e.net + e.tax);
    }
    if e.Billed? {
      StoredError(e.net);
    }
    if e.CustomerPaid? || e.SupplierPaid? {
      StoredError(e.amount);
    }
    if e.Received? {
      StoredError(e.cost);
    }
  }
}
