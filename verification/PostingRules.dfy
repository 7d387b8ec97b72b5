/** The posting rules: which lines each business event turns into, and what they add up to. */
module PostingRules {
  import opened Prelude
  import opened Posting

  function Dr(code: SystemCode, amount: real): (l: PostingLine) {
    PostingLine(Role(code), amount, 0.0)
  }

  function Cr(code: SystemCode, amount: real): (l: PostingLine) {
    PostingLine(Role(code), 0.0, amount)
  }

  function CogsRecognition(cost: real): (r: seq<PostingLine>) {
    [Dr(Cogs, cost), Cr(Inventory, cost)]
  }

  /** A debit for the whole, a credit for the net and, when there is tax, one for the tax. */
  function Invoiced(whole: SystemCode, part: SystemCode, vat: SystemCode, net: real, tax: real): (r: seq<PostingLine>) {
    [Dr(whole, net + tax), Cr(part, net)] + if tax != 0.0 then [Cr(vat, tax)] else []
  }

  /** A debit for the net, one for any tax, and a credit for the whole. */
  function Settled(whole: SystemCode, part: SystemCode, vat: SystemCode, net: real, tax: real): (r: seq<PostingLine>) {
    [Dr(part, net)] + (if tax != 0.0 then [Dr(vat, tax)] else []) + [Cr(whole, net + tax)]
  }

  function CashSale(net: real, tax: real, cost: real): (r: (seq<PostingLine>, seq<PostingLine>)) {
    (Invoiced(Cash, SalesRevenue, VatOutput, net, tax), [Dr(Cogs, cost), Cr(Inventory, cost)])
  }

  function CreditSale(net: real, tax: real): (r: seq<PostingLine>) {
    Invoiced(ArControl, SalesRevenue, VatOutput, net, tax)
  }

  function CustomerPayment(amount: real, cash: bool): (r: seq<PostingLine>) {
    [Dr(if cash then Cash else Bank, amount), Cr(ArControl, amount)]
  }

  function SalesReturn(net: real, tax: real, cost: real): (r: (seq<PostingLine>, Option<seq<PostingLine>>)) {
    (Settled(ArControl, SalesReturns, VatOutput, net, tax),
     if cost != 0.0 then Some([Dr(Inventory, cost), Cr(Cogs, cost)]) else None)
  }

  function PosRefund(net: real, tax: real, cost: real, restock: bool): (r: (seq<PostingLine>, Option<seq<PostingLine>>)) {
    (Settled(Cash, SalesReturns, VatOutput, net, tax),
     if restock && cost != 0.0 then Some([Dr(Inventory, cost), Cr(Cogs, cost)]) else None)
  }

  function GoodsReceipt(cost: real): (r: seq<PostingLine>) {
    [Dr(Inventory, cost), Cr(Grni, cost)]
  }

  function SupplierBill(goodsCost: real, tax: real): (r: seq<PostingLine>) {
    Settled(ApControl, Grni, VatInput, goodsCost, tax)
  }

  function SupplierPayment(amount: real, cash: bool): (r: seq<PostingLine>) {
    [Dr(ApControl, amount), Cr(if cash then Cash else Bank, amount)]
  }

  // ---------------------------------------------------------------- sums of short entries

  lemma TwoLines(a: PostingLine, b: PostingLine, side: Side)
    ensures Total([a, b], side) == Amount(a, side) + Amount(b, side)
    ensures StoredTotal([a, b], side) == Stored(Amount(a, side)) + Stored(Amount(b, side))
  {
    assert [a, b][..1] == [a] && [a][..0] == [];
    assert Total([a], side) == Amount(a, side);
    assert StoredTotal([a], side) == Stored(Amount(a, side));
  }

  lemma ThreeLines(a: PostingLine, b: PostingLine, c: PostingLine, side: Side)
    ensures Total([a, b, c], side) == Amount(a, side) + Amount(b, side) + Amount(c, side)
    ensures StoredTotal([a, b, c], side) == Stored(Amount(a, side)) + Stored(Amount(b, side)) + Stored(Amount(c, side))
  {
    TwoLines(a, b, side);
    assert [a, b, c][..2] == [a, b];
  }

  // ---------------------------------------------------------------- net / tax entries

  /** What it takes, in the amounts alone, for a net/tax/total entry to pass both layers. */
  predicate NetTaxAccepted(net: real, tax: real) {
    && 0 < Stored(net)
    && (tax == 0.0 || 0 < Stored(tax))
    && Stored(net) + Stored(tax) == Stored(net + tax)
    && Stored(net + tax) < NUMERIC_LIMIT
  }

  lemma ZeroStored()
    ensures Stored(0.0) == 0
  {
    StoredWhole(0);
  }

  lemma InvoicedTotals(whole: SystemCode, part: SystemCode, vat: SystemCode, net: real, tax: real)
    ensures var l := Invoiced(whole, part, vat, net, tax);
            && Total(l, Debit) == net + tax == Total(l, Credit)
            && StoredTotal(l, Debit) == Stored(net + tax) && StoredTotal(l, Credit) == Stored(net) + Stored(tax)
  {
    var l := Invoiced(whole, part, vat, net, tax);
    ZeroStored();
    if tax != 0.0 {
      assert l == [Dr(whole, net + tax), Cr(part, net), Cr(vat, tax)];
      ThreeLines(l[0], l[1], l[2], Debit);
      ThreeLines(l[0], l[1], l[2], Credit);
    } else {
      assert l == [Dr(whole, net + tax), Cr(part, net)];
      TwoLines(l[0], l[1], Debit);
      TwoLines(l[0], l[1], Credit);
    }
  }

  lemma SettledTotals(whole: SystemCode, part: SystemCode, vat: SystemCode, net: real, tax: real)
    ensures var l := Settled(whole, part, vat, net, tax);
            && Total(l, Debit) == net + tax == Total(l, Credit)
            && StoredTotal(l, Credit) == Stored(net + tax) && StoredTotal(l, Debit) == Stored(net) + Stored(tax)
  {
    var l := Settled(whole, part, vat, net, tax);
    ZeroStored();
    if tax != 0.0 {
      assert l == [Dr(part, net), Dr(vat, tax), Cr(whole, net + tax)];
      ThreeLines(l[0], l[1], l[2], Debit);
      ThreeLines(l[0], l[1], l[2], Credit);
    } else {
      assert l == [Dr(part, net), Cr(whole, net + tax)];
      TwoLines(l[0], l[1], Debit);
      TwoLines(l[0], l[1], Credit);
    }
  }

  /** A one-amount line is storable exactly when the stored amount is positive and fits. */
  lemma SideStorable(code: SystemCode, amount: real)
    ensures StorableLine(Dr(code, amount)) <==> 0 < Stored(amount) < NUMERIC_LIMIT
    ensures StorableLine(Cr(code, amount)) <==> 0 < Stored(amount) < NUMERIC_LIMIT
  {
    ZeroStored();
  }

  lemma InvoicedPostable(whole: SystemCode, part: SystemCode, vat: SystemCode, net: real, tax: real)
    ensures Postable(Invoiced(whole, part, vat, net, tax)) <==> NetTaxAccepted(net, tax)
  {
    var l := Invoiced(whole, part, vat, net, tax);
    InvoicedTotals(whole, part, vat, net, tax);
    SideStorable(whole, net + tax);
    SideStorable(part, net);
    SideStorable(vat, tax);
    StoredNear(net + tax);
    assert l[0] == Dr(whole, net + tax) && l[1] == Cr(part, net) && (tax != 0.0 ==> |l| == 3 && l[2] == Cr(vat, tax));
    ZeroStored();
  }

  lemma SettledPostable(whole: SystemCode, part: SystemCode, vat: SystemCode, net: real, tax: real)
    ensures Postable(Settled(whole, part, vat, net, tax)) <==> NetTaxAccepted(net, tax)
  {
    var l := Settled(whole, part, vat, net, tax);
    SettledTotals(whole, part, vat, net, tax);
    SideStorable(whole, net + tax);
    SideStorable(part, net);
    SideStorable(vat, tax);
    StoredNear(net + tax);
    assert l[0] == Dr(part, net) && l[|l| - 1] == Cr(whole, net + tax) && (tax != 0.0 ==> |l| == 3 && l[1] == Dr(vat, tax));
    ZeroStored();
  }

  /**
   The rules with tax, at any precision: both layers accept the entry exactly when net and any tax
   survive rounding as positive amounts, the whole fits, and rounding the parts agrees with rounding
   the whole.
   */
  lemma TaxedRulesPostable(net: real, tax: real)
    ensures Postable(CreditSale(net, tax)) <==> NetTaxAccepted(net, tax)
    ensures Postable(SupplierBill(net, tax)) <==> NetTaxAccepted(net, tax)
    ensures forall cost :: Postable(SalesReturn(net, tax, cost).0) <==> NetTaxAccepted(net, tax)
    ensures forall cost :: Postable(CashSale(net, tax, cost).0) <==> NetTaxAccepted(net, tax)
    ensures forall cost, restock :: Postable(PosRefund(net, tax, cost, restock).0) <==> NetTaxAccepted(net, tax)
  {
    InvoicedPostable(ArControl, SalesRevenue, VatOutput, net, tax);
    InvoicedPostable(Cash, SalesRevenue, VatOutput, net, tax);
    SettledPostable(ApControl, Grni, VatInput, net, tax);
    SettledPostable(ArControl, SalesReturns, VatOutput, net, tax);
    SettledPostable(Cash, SalesReturns, VatOutput, net, tax);
  }

  /** On amounts already at four decimals that fit the column, this is just net > 0 and tax >= 0. */
  lemma ExactNetTax(net: int, tax: int)
    requires net + tax < NUMERIC_LIMIT
    ensures NetTaxAccepted(net as real, tax as real) <==> net > 0 && tax >= 0
  {
    StoredWhole(net);
    StoredWhole(tax);
    StoredWhole(net + tax);
    assert net as real + tax as real == (net + tax) as real;
  }

  // ---------------------------------------------------------------- business events

  datatype Event =
    | CashSold(net: real, tax: real, cost: real)
    | CreditSold(net: real, tax: real)
    | Fulfilled(cost: real)
    | CustomerPaid(amount: real, cash: bool)
    | Returned(net: real, tax: real, cost: real)
    | Refunded(net: real, tax: real, cost: real, restock: bool)
    | Received(cost: real)
    | Billed(net: real, tax: real)
    | SupplierPaid(amount: real, cash: bool)

  function OrNothing(lines: Option<seq<PostingLine>>): (r: seq<PostingLine>) {
    if lines.Some? then lines.value else []
  }

  /** All lines an event posts, over its one or two entries. */
  function Lines(e: Event): (r: seq<PostingLine>) {
    match e
    case CashSold(net, tax, cost) => var s := CashSale(net, tax, cost); s.0 + s.1
    case CreditSold(net, tax) => CreditSale(net, tax)
    case Fulfilled(cost) => CogsRecognition(cost)
    case CustomerPaid(amount, cash) => CustomerPayment(amount, cash)
    case Returned(net, tax, cost) => var s := SalesReturn(net, tax, cost); s.0 + OrNothing(s.1)
    case Refunded(net, tax, cost, restock) => var s := PosRefund(net, tax, cost, restock); s.0 + OrNothing(s.1)
    case Received(cost) => GoodsReceipt(cost)
    case Billed(net, tax) => SupplierBill(net, tax)
    case SupplierPaid(amount, cash) => SupplierPayment(amount, cash)
  }

  /** Debit less credit on one role. */
  function Net(lines: seq<PostingLine>, code: SystemCode): (r: real) {
    if lines == [] then 0.0
    else
      var last := lines[|lines| - 1];
      Net(lines[..|lines| - 1], code) + (if last.target == Role(code) then last.debit - last.credit else 0.0)
  }

  lemma {:induction false} NetAppend(x: seq<PostingLine>, y: seq<PostingLine>, code: SystemCode)
    ensures Net(x + y, code) == Net(x, code) + Net(y, code)
  {
    if y == [] {
      assert x + y == x;
    } else {
      NetAppend(x, y[..|y| - 1], code);
      assert (x + y)[..|x + y| - 1] == x + y[..|y| - 1];
    }
  }

  function On(l: PostingLine, code: SystemCode): (r: real) {
    if l.target == Role(code) then l.debit - l.credit else 0.0
  }

  lemma NetTwo(a: PostingLine, b: PostingLine, code: SystemCode)
    ensures Net([a, b], code) == On(a, code) + On(b, code)
    ensures Net([a], code) == On(a, code)
  {
    assert [a, b][..1] == [a] && [a][..0] == [];
    assert Net([a], code) == On(a, code);
  }

  lemma InvoicedNet(whole: SystemCode, part: SystemCode, vat: SystemCode, net: real, tax: real, code: SystemCode)
    ensures Net(Invoiced(whole, part, vat, net, tax), code)
         == On(Dr(whole, net + tax), code) + On(Cr(part, net), code) + On(Cr(vat, tax), code)
  {
    NetTwo(Dr(whole, net + tax), Cr(part, net), code);
    NetTwo(Cr(vat, tax), Cr(vat, tax), code);
    NetAppend([Dr(whole, net + tax), Cr(part, net)], if tax != 0.0 then [Cr(vat, tax)] else [], code);
  }

  lemma SettledNet(whole: SystemCode, part: SystemCode, vat: SystemCode, net: real, tax: real, code: SystemCode)
    ensures Net(Settled(whole, part, vat, net, tax), code)
         == On(Dr(part, net), code) + On(Dr(vat, tax), code) + On(Cr(whole, net + tax), code)
  {
    var middle := if tax != 0.0 then [Dr(vat, tax)] else [];
    NetTwo(Dr(part, net), Dr(part, net), code);
    NetTwo(Dr(vat, tax), Dr(vat, tax), code);
    NetTwo(Cr(whole, net + tax), Cr(whole, net + tax), code);
    NetAppend([Dr(part, net)], middle, code);
    NetAppend([Dr(part, net)] + middle, [Cr(whole, net + tax)], code);
  }

  /** The restocking entry, present or not. */
  lemma RestockNet(cost: real, present: bool, code: SystemCode)
    ensures Net(OrNothing(if present then Some([Dr(Inventory, cost), Cr(Cogs, cost)]) else None), code)
         == if present then On(Dr(Inventory, cost), code) + On(Cr(Cogs, cost), code) else 0.0
  {
    NetTwo(Dr(Inventory, cost), Cr(Cogs, cost), code);
  }

  /** What one event does to each role, written out: the reference the fold is compared with. */
  function Effect(e: Event, code: SystemCode): (r: real) {
    match e
    case CashSold(net, tax, cost) =>
      (match code case Cash => net + tax case SalesRevenue => -net case VatOutput => -tax
                  case Cogs => cost case Inventory => -cost case _ => 0.0)
    case CreditSold(net, tax) =>
      (match code case ArControl => net + tax case SalesRevenue => -net case VatOutput => -tax case _ => 0.0)
    case Fulfilled(cost) => (match code case Cogs => cost case Inventory => -cost case _ => 0.0)
    case CustomerPaid(amount, cash) =>
      (match code case ArControl => -amount case Cash => (if cash then amount else 0.0)
                  case Bank => (if cash then 0.0 else amount) case _ => 0.0)
    case Returned(net, tax, cost) =>
      (match code case SalesReturns => net case VatOutput => tax case ArControl => -(net + tax)
                  case Inventory => cost case Cogs => -cost case _ => 0.0)
    case Refunded(net, tax, cost, restock) =>
      (match code case SalesReturns => net case VatOutput => tax case Cash => -(net + tax)
                  case Inventory => (if restock then cost else 0.0) case Cogs => (if restock then -cost else 0.0) case _ => 0.0)
    case Received(cost) => (match code case Inventory => cost case Grni => -cost case _ => 0.0)
    case Billed(net, tax) =>
      (match code case Grni => net case VatInput => tax case ApControl => -(net + tax) case _ => 0.0)
    case SupplierPaid(amount, cash) =>
      (match code case ApControl => amount case Cash => (if cash then -amount else 0.0)
                  case Bank => (if cash then 0.0 else -amount) case _ => 0.0)
  }

  lemma CashSaleEffect(e: Event, code: SystemCode)
    requires e.CashSold?
    ensures Net(Lines(e), code) == Effect(e, code)
  {
    var s := CashSale(e.net, e.tax, e.cost);
    NetAppend(s.0, s.1, code);
    InvoicedNet(Cash, SalesRevenue, VatOutput, e.net, e.tax, code);
    NetTwo(Dr(Cogs, e.cost), Cr(Inventory, e.cost), code);
  }

  lemma SaleEffect(e: Event, code: SystemCode)
    requires e.CreditSold? || e.Fulfilled? || e.CustomerPaid?
    ensures Net(Lines(e), code) == Effect(e, code)
  {
    match e {
      case CreditSold(net, tax) => InvoicedNet(ArControl, SalesRevenue, VatOutput, net, tax, code);
      case Fulfilled(cost) => NetTwo(Dr(Cogs, cost), Cr(Inventory, cost), code);
      case CustomerPaid(amount, cash) => NetTwo(Dr(if cash then Cash else Bank, amount), Cr(ArControl, amount), code);
    }
  }

  lemma ReturnEffect(e: Event, code: SystemCode)
    requires e.Returned?
    ensures Net(Lines(e), code) == Effect(e, code)
  {
    var s := SalesReturn(e.net, e.tax, e.cost);
    NetAppend(s.0, OrNothing(s.1), code);
    SettledNet(ArControl, SalesReturns, VatOutput, e.net, e.tax, code);
    RestockNet(e.cost, e.cost != 0.0, code);
  }

  lemma RefundEffect(e: Event, code: SystemCode)
    requires e.Refunded?
    ensures Net(Lines(e), code) == Effect(e, code)
  {
    var s := PosRefund(e.net, e.tax, e.cost, e.restock);
    NetAppend(s.0, OrNothing(s.1), code);
    SettledNet(Cash, SalesReturns, VatOutput, e.net, e.tax, code);
    RestockNet(e.cost, e.restock && e.cost != 0.0, code);
  }

  lemma PurchaseEffect(e: Event, code: SystemCode)
    requires e.Received? || e.Billed? || e.SupplierPaid?
    ensures Net(Lines(e), code) == Effect(e, code)
  {
    match e {
      case Received(cost) => ReceivedEffect(cost, code);
      case Billed(net, tax) => BilledEffect(net, tax, code);
      case SupplierPaid(amount, cash) => SupplierPaidEffect(amount, cash, code);
    }
  }

  lemma ReceivedEffect(cost: real, code: SystemCode)
    ensures Net(Lines(Received(cost)), code) == Effect(Received(cost), code)
  {
    NetTwo(Dr(Inventory, cost), Cr(Grni, cost), code);
  }

  lemma BilledEffect(net: real, tax: real, code: SystemCode)
    ensures Net(Lines(Billed(net, tax)), code) == Effect(Billed(net, tax), code)
  {
    SettledNet(ApControl, Grni, VatInput, net, tax, code);
  }

  lemma SupplierPaidEffect(amount: real, cash: bool, code: SystemCode)
    ensures Net(Lines(SupplierPaid(amount, cash)), code) == Effect(SupplierPaid(amount, cash), code)
  {
    NetTwo(Dr(ApControl, amount), Cr(if cash then Cash else Bank, amount), code);
  }

  /** The lines of an event have exactly the effect written out for it, on every role. */
  lemma EventEffect(e: Event, code: SystemCode)
    ensures Net(Lines(e), code) == Effect(e, code)
  {
    if e.Returned? {
      ReturnEffect(e, code);
    } else if e.Refunded? {
      RefundEffect(e, code);
    } else if e.Received? || e.Billed? || e.SupplierPaid? {
      PurchaseEffect(e, code);
    } else if e.CashSold? {
      CashSaleEffect(e, code);
    } else {
      SaleEffect(e, code);
    }
  }

  // ---------------------------------------------------------------- control accounts

  function Posted(events: seq<Event>): (r: seq<PostingLine>) {
    if events == [] then [] else Posted(events[..|events| - 1]) + Lines(events[|events| - 1])
  }

  /** Sales invoiced on credit, less customer payments and credited returns. */
  function Receivable(events: seq<Event>): (r: real) {
    if events == [] then 0.0
    else
      var e := events[|events| - 1];
      Receivable(events[..|events| - 1])
        + (if e.CreditSold? then e.net + e.tax
           else if e.CustomerPaid? then -e.amount
           else if e.Returned? then -(e.net + e.tax) else 0.0)
  }

  /** Supplier bills, less supplier payments. */
  function Payable(events: seq<Event>): (r: real) {
    if events == [] then 0.0
    else
      var e := events[|events| - 1];
      Payable(events[..|events| - 1])
        + (if e.Billed? then e.net + e.tax else if e.SupplierPaid? then -e.amount else 0.0)
  }

  /** Goods received, less goods billed. */
  function Unbilled(events: seq<Event>): (r: real) {
    if events == [] then 0.0
    else
      var e := events[|events| - 1];
      Unbilled(events[..|events| - 1]) + (if e.Received? then e.cost else if e.Billed? then -e.net else 0.0)
  }

  function Effects(events: seq<Event>, code: SystemCode): (r: real) {
    if events == [] then 0.0 else Effects(events[..|events| - 1], code) + Effect(events[|events| - 1], code)
  }

  /** Folding the lines of a run of events is adding up the events' effects. */
  lemma {:induction false} PostedNet(events: seq<Event>, code: SystemCode)
    ensures Net(Posted(events), code) == Effects(events, code)
  {
    if events != [] {
      var e := events[|events| - 1];
      PostedNet(events[..|events| - 1], code);
      NetAppend(Posted(events[..|events| - 1]), Lines(e), code);
      EventEffect(e, code);
    }
  }

  lemma {:induction false} ReceivableEffects(events: seq<Event>)
    ensures Effects(events, ArControl) == Receivable(events)
  {
    if events != [] {
      ReceivableEffects(events[..|events| - 1]);
    }
  }

  lemma {:induction false} PayableEffects(events: seq<Event>)
    ensures Effects(events, ApControl) == -Payable(events)
  {
    if events != [] {
      PayableEffects(events[..|events| - 1]);
    }
  }

  lemma {:induction false} UnbilledEffects(events: seq<Event>)
    ensures Effects(events, Grni) == -Unbilled(events)
  {
    if events != [] {
      UnbilledEffects(events[..|events| - 1]);
    }
  }

  /**
   Over every sequence of events the three control accounts are documents minus settlements: AR on
   its debit side, AP and GRNI on their credit side.
   */
  lemma ControlAccounts(events: seq<Event>)
    ensures Net(Posted(events), ArControl) == Receivable(events)
    ensures Net(Posted(events), ApControl) == -Payable(events)
    ensures Net(Posted(events), Grni) == -Unbilled(events)
  {
    PostedNet(events, ArControl);
    PostedNet(events, ApControl);
    PostedNet(events, Grni);
    ReceivableEffects(events);
    PayableEffects(events);
    UnbilledEffects(events);
  }

  /**
   A cash sale followed by its full restocked refund leaves cash, output VAT, inventory and cost of
   goods sold where they were, and shows the sale and the return as equal and opposite revenue.
   */
  lemma SaleThenRefundCancels(net: real, tax: real, cost: real, code: SystemCode)
    ensures var both := Posted([CashSold(net, tax, cost), Refunded(net, tax, cost, true)]);
            Net(both, code) == match code case SalesRevenue => -net case SalesReturns => net case _ => 0.0
  {
    var sale, refund := CashSold(net, tax, cost), Refunded(net, tax, cost, true);
    PostedNet([sale, refund], code);
    assert [sale, refund][..1] == [sale] && [sale][..0] == [];
    assert Effects([sale], code) == Effect(sale, code);
  }
}
