/** What a general-ledger report lists and in which sign, said without the report's own terms. */
module LedgerFigures {
  import opened Prelude
  import opened Posting
  import opened Chart
  import opened Calendar
  import opened Ledger
  import opened LedgerInvariant
  import opened Reports
  import opened GeneralLedger

  /** A posted line of the account, dated inside the range. */
  ghost predicate Listed(entries: seq<Entry>, a: nat, x: Item, start: int, end: int) {
    && start <= x.date <= end
    && exists i, k | 0 <= i < |entries| && 0 <= k < |entries[i].lines| ::
         && entries[i].status.Posted? && entries[i].date == x.date
         && entries[i].lines[k] == Line(x.id, a, x.debit, x.credit)
  }

  lemma {:induction false} LineItemsExact(lines: seq<Line>, a: nat, date: int, x: Item)
    ensures x in LineItems(lines, a, date) <==> x.date == date && Line(x.id, a, x.debit, x.credit) in lines
  {
    if lines != [] {
      var init, last := lines[..|lines| - 1], lines[|lines| - 1];
      LineItemsExact(init, a, date, x);
      assert forall l :: l in lines <==> l in init || l == last;
    }
  }

  /** The account's items, by entry. */
  lemma {:induction false} ItemsExact(entries: seq<Entry>, a: nat, x: Item)
    ensures x in Items(entries, a) <==>
              exists e :: e in entries && e.status.Posted? && e.date == x.date && Line(x.id, a, x.debit, x.credit) in e.lines
  {
    if entries != [] {
      var init, last := entries[..|entries| - 1], entries[|entries| - 1];
      ItemsExact(init, a, x);
      LineItemsExact(last.lines, a, last.date, x);
      assert forall e :: e in entries <==> e in init || e == last;
    }
  }

  lemma {:induction false} WindowExact(items: seq<Item>, start: int, end: int, x: Item)
    ensures x in Window(items, start, end) <==> x in items && start <= x.date <= end
  {
    if items != [] {
      var init, last := items[..|items| - 1], items[|items| - 1];
      WindowExact(init, start, end, x);
      assert forall y :: y in items <==> y in init || y == last;
    }
  }

  lemma ListedIsItem(entries: seq<Entry>, a: nat, x: Item, start: int, end: int)
    ensures Listed(entries, a, x, start, end) <==> x in Items(entries, a) && start <= x.date <= end
  {
    ItemsExact(entries, a, x);
    if e :| e in entries && e.status.Posted? && e.date == x.date && Line(x.id, a, x.debit, x.credit) in e.lines {
      var i :| 0 <= i < |entries| && entries[i] == e;
      var k :| 0 <= k < |e.lines| && e.lines[k] == Line(x.id, a, x.debit, x.credit);
      assert entries[i].lines[k] == e.lines[k];
    }
  }

  /**
   The report of an account lists exactly its posted lines dated in the range, once each, by date and
   within a date by line id; of an account that does not exist there is none.
   */
  lemma ReportLists(b: Books, a: nat, start: int, end: int, x: Item)
    requires ValidBooks(b)
    ensures Report(b, a, start, end).None? <==> |b.accounts| <= a
    ensures a < |b.accounts| ==>
              var items := Report(b, a, start, end).value.items;
              && (x in items <==> Listed(b.entries, a, x, start, end))
              && (forall i, j | 0 <= i < j < |items| ::
                    items[i].date < items[j].date || (items[i].date == items[j].date && items[i].id < items[j].id))
  {
    if a < |b.accounts| {
      var all := Items(b.entries, a);
      var window := Window(all, start, end);
      var items := Ordered(window);
      BooksItemIds(b, a);
      WindowIds(all, start, end);
      OrderedSorts(window);
      OrderedPermutes(window);
      DistinctPermutation(window, items);
      SameMembers(items, window, x);
      WindowExact(all, start, end, x);
      ListedIsItem(b.entries, a, x, start, end);
    }
  }

  lemma SameMembers(p: seq<Item>, q: seq<Item>, x: Item)
    requires multiset(p) == multiset(q)
    ensures x in p <==> x in q
  {
    assert x in p <==> x in multiset(p);
    assert x in q <==> x in multiset(q);
  }

  /** Debit less credit for assets and expenses, credit less debit for the rest. */
  predicate InNaturalSign(kind: AccountType, figure: int, debit: int, credit: int) {
    match kind
    case Asset => figure == debit - credit
    case Expense => figure == debit - credit
    case Liability => figure == credit - debit
    case Equity => figure == credit - debit
    case Revenue => figure == credit - debit
  }

  lemma {:induction false} NothingEarlier(entries: seq<Entry>, a: nat, since: int)
    requires forall i | 0 <= i < |entries| :: since <= entries[i].date
    ensures Before(Items(entries, a), since) == 0
  {
    if entries != [] {
      var last := entries[|entries| - 1];
      NothingEarlier(entries[..|entries| - 1], a, since);
      BeforeAppend(Items(entries[..|entries| - 1], a), if last.status.Posted? then LineItems(last.lines, a, last.date) else [], since);
      LineItemsNet(last.lines, a, last.date, since);
    }
  }

  /** Opening and closing balance are all the account's movement before the range and through it, in its natural sign. */
  lemma BalancesInNaturalSign(b: Books, a: nat, start: int, end: int, since: int)
    requires ValidBooks(b) && a < |b.accounts| && since <= start <= end + 1
    requires forall i | 0 <= i < |b.entries| :: since <= b.entries[i].date
    ensures var r, kind := Report(b, a, start, end).value, b.accounts[a].kind;
            && InNaturalSign(kind, r.opening,
                             Movement(b.entries, a, Debit, since, start - 1), Movement(b.entries, a, Credit, since, start - 1))
            && InNaturalSign(kind, Closing(r), Movement(b.entries, a, Debit, since, end), Movement(b.entries, a, Credit, since, end))
  {
    NothingEarlier(b.entries, a, since);
    LedgerMatchesTrialBalance(b.entries, a, since, start - 1);
    LedgerMatchesTrialBalance(b.entries, a, since, end);
    ClosingIsNextOpening(b, a, start, end, end + 1);
  }

  /** Each running balance is the one before it, or the opening one, moved by its own line in the natural sign. */
  lemma RunningSteps(b: Books, a: nat, start: int, end: int, k: nat)
    requires a < |b.accounts| && k < |Report(b, a, start, end).value.items|
    ensures var r := Report(b, a, start, end).value;
            var before := if k == 0 then r.opening else r.running[k - 1];
            InNaturalSign(b.accounts[a].kind, r.running[k] - before, r.items[k].debit, r.items[k].credit)
  {
    var items := Items(b.entries, a);
    RunningStep(Ordered(Window(items, start, end)), Before(items, start), k);
  }

  lemma {:induction false} RunningStep(items: seq<Item>, opening: int, k: nat)
    requires k < |items|
    ensures Running(items, opening)[k] == (if k == 0 then opening else Running(items, opening)[k - 1]) + items[k].debit - items[k].credit
    decreases |items|
  {
    if k < |items| - 1 {
      RunningStep(items[..|items| - 1], opening, k);
    }
  }
}
