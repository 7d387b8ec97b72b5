/** One account's ledger: opening balance, lines in (date, line id) order, running balances. */
module GeneralLedger {
  import opened Prelude
  import opened Posting
  import opened Chart
  import opened Ledger
  import opened LedgerInvariant
  import opened Reports

  /** A posted line of the account, joined with its entry's date. */
  datatype Item = Item(date: int, id: nat, debit: int, credit: int)

  function LineItems(lines: seq<Line>, a: nat, date: int): (r: seq<Item>) {
    if lines == [] then []
    else
      var last := lines[|lines| - 1];
      LineItems(lines[..|lines| - 1], a, date)
        + if last.account == a then [Item(date, last.id, last.debit, last.credit)] else []
  }

  /** Every posted line of the account. */
  function Items(entries: seq<Entry>, a: nat): (r: seq<Item>) {
    if entries == [] then []
    else
      var last := entries[|entries| - 1];
      Items(entries[..|entries| - 1], a) + if last.status.Posted? then LineItems(last.lines, a, last.date) else []
  }

  function Before(items: seq<Item>, day: int): (r: int) {
    if items == [] then 0
    else
      var last := items[|items| - 1];
      Before(items[..|items| - 1], day) + if last.date < day then last.debit - last.credit else 0
  }

  function Window(items: seq<Item>, start: int, end: int): (r: seq<Item>) {
    if items == [] then []
    else
      var last := items[|items| - 1];
      Window(items[..|items| - 1], start, end) + if start <= last.date <= end then [last] else []
  }

  /** ORDER BY entry_date, line id. */
  predicate NotAfter(x: Item, y: Item) {
    x.date < y.date || (x.date == y.date && x.id <= y.id)
  }

  function Insert(sorted: seq<Item>, x: Item): (r: seq<Item>) {
    if sorted == [] || NotAfter(sorted[|sorted| - 1], x) then sorted + [x]
    else Insert(sorted[..|sorted| - 1], x) + [sorted[|sorted| - 1]]
  }

  function Ordered(items: seq<Item>): (r: seq<Item>) {
    if items == [] then [] else Insert(Ordered(items[..|items| - 1]), items[|items| - 1])
  }

  /** The window function: opening plus the sum of the rows so far. */
  function Running(items: seq<Item>, opening: int): (r: seq<int>)
    ensures |r| == |items|
  {
    if items == [] then []
    else
      var shorter := Running(items[..|items| - 1], opening);
      var last := items[|items| - 1];
      shorter + [(if shorter == [] then opening else shorter[|shorter| - 1]) + last.debit - last.credit]
  }

  /** Liability, equity and revenue accounts are shown in their own natural sign. */
  function Sign(kind: AccountType): (r: int) {
    if kind.Liability? || kind.Equity? || kind.Revenue? then -1 else 1
  }

  function Signed(values: seq<int>, sign: int): (r: seq<int>)
    ensures |r| == |values|
  {
    seq(|values|, i requires 0 <= i < |values| => sign * values[i])
  }

  datatype Statement = Statement(opening: int, items: seq<Item>, running: seq<int>)

  function Report(b: Books, a: nat, start: int, end: int): (r: Option<Statement>) {
    if a >= |b.accounts| then None
    else
      var items := Items(b.entries, a);
      var opening := Before(items, start);
      var lines := Ordered(Window(items, start, end));
      var sign := Sign(b.accounts[a].kind);
      Some(Statement(sign * opening, lines, Signed(Running(lines, opening), sign)))
  }

  function Closing(r: Statement): (c: int) {
    if r.running != [] then r.running[|r.running| - 1] else r.opening
  }

  // ---------------------------------------------------------------- reference figures

  /** Net of the items that come no later than `x`. */
  function UpTo(items: seq<Item>, x: Item): (r: int) {
    if items == [] then 0
    else
      var last := items[|items| - 1];
      UpTo(items[..|items| - 1], x) + if NotAfter(last, x) then last.debit - last.credit else 0
  }

  ghost predicate IncreasingIds(items: seq<Item>) {
    forall i, j | 0 <= i < j < |items| :: items[i].id < items[j].id
  }

  ghost predicate DistinctIds(items: seq<Item>) {
    forall i, j | 0 <= i < j < |items| :: items[i].id != items[j].id
  }

  ghost predicate Sorted(items: seq<Item>) {
    forall i, j | 0 <= i < j < |items| :: NotAfter(items[i], items[j])
  }

  // ---------------------------------------------------------------- ordering preserves the figures

  lemma UpToAppend(items: seq<Item>, x: Item, y: Item)
    ensures UpTo(items + [x], y) == UpTo(items, y) + if NotAfter(x, y) then x.debit - x.credit else 0
  {
    assert (items + [x])[..|items|] == items;
  }

  lemma {:induction false} InsertKeepsNet(sorted: seq<Item>, x: Item, y: Item)
    ensures UpTo(Insert(sorted, x), y) == UpTo(sorted + [x], y)
  {
    if sorted != [] && !NotAfter(sorted[|sorted| - 1], x) {
      var init, last := sorted[..|sorted| - 1], sorted[|sorted| - 1];
      InsertKeepsNet(init, x, y);
      UpToAppend(Insert(init, x), last, y);
      UpToAppend(init, x, y);
      UpToAppend(init, last, y);
      UpToAppend(sorted, x, y);
      assert sorted == init + [last];
    }
  }

  lemma {:induction false} InsertPermutes(sorted: seq<Item>, x: Item)
    ensures multiset(Insert(sorted, x)) == multiset(sorted) + multiset{x}
    ensures |Insert(sorted, x)| == |sorted| + 1
  {
    if sorted != [] && !NotAfter(sorted[|sorted| - 1], x) {
      var init, last := sorted[..|sorted| - 1], sorted[|sorted| - 1];
      InsertPermutes(init, x);
      assert sorted == init + [last];
    }
  }

  lemma {:induction false} InsertSorts(sorted: seq<Item>, x: Item)
    requires Sorted(sorted)
    ensures Sorted(Insert(sorted, x))
    ensures forall k | 0 <= k < |Insert(sorted, x)| :: Insert(sorted, x)[k] in sorted || Insert(sorted, x)[k] == x
  {
    if sorted != [] && !NotAfter(sorted[|sorted| - 1], x) {
      InsertSorts(sorted[..|sorted| - 1], x);
    }
  }

  lemma {:induction false} OrderedSorts(items: seq<Item>)
    ensures Sorted(Ordered(items))
  {
    if items != [] {
      OrderedSorts(items[..|items| - 1]);
      InsertSorts(Ordered(items[..|items| - 1]), items[|items| - 1]);
    }
  }

  lemma InsertOnto(sorted: seq<Item>, init: seq<Item>, last: Item, y: Item)
    requires UpTo(sorted, y) == UpTo(init, y)
    ensures UpTo(Insert(sorted, last), y) == UpTo(init + [last], y)
  {
    InsertKeepsNet(sorted, last, y);
    UpToAppend(sorted, last, y);
    UpToAppend(init, last, y);
  }

  lemma {:induction false} OrderedKeepsNet(items: seq<Item>, y: Item)
    ensures UpTo(Ordered(items), y) == UpTo(items, y)
  {
    if items != [] {
      var init, last := items[..|items| - 1], items[|items| - 1];
      OrderedKeepsNet(init, y);
      InsertOnto(Ordered(init), init, last, y);
      assert items == init + [last];
    }
  }

  lemma {:induction false} OrderedPermutes(items: seq<Item>)
    ensures multiset(Ordered(items)) == multiset(items) && |Ordered(items)| == |items|
  {
    if items != [] {
      var init, last := items[..|items| - 1], items[|items| - 1];
      OrderedPermutes(init);
      InsertPermutes(Ordered(init), last);
      assert items == init + [last];
    }
  }

  // ---------------------------------------------------------------- running balances

  lemma {:induction false} RunningIsPrefixSum(items: seq<Item>, opening: int, k: nat)
    requires Sorted(items) && k < |items|
    requires forall j | k < j < |items| :: !NotAfter(items[j], items[k])
    ensures Running(items, opening)[k] == opening + UpTo(items, items[k])
  {
    var n := |items| - 1;
    var init := items[..n];
    if k < n {
      RunningIsPrefixSum(init, opening, k);
      assert Running(items, opening)[k] == Running(init, opening)[k];
    } else {
      AllUpTo(init, opening, items[k]);
    }
  }

  lemma {:induction false} AllUpTo(items: seq<Item>, opening: int, x: Item)
    requires forall i | 0 <= i < |items| :: NotAfter(items[i], x)
    ensures opening + UpTo(items, x) == if items == [] then opening else Running(items, opening)[|items| - 1]
  {
    if items != [] {
      AllUpTo(items[..|items| - 1], opening, x);
    }
  }

  /** Opening plus the part of the window up to `x` is everything up to `x`. */
  lemma {:induction false} WindowSplits(items: seq<Item>, start: int, end: int, x: Item)
    requires start <= x.date <= end
    ensures Before(items, start) + UpTo(Window(items, start, end), x) == UpTo(items, x)
  {
    if items != [] {
      var init, last := items[..|items| - 1], items[|items| - 1];
      WindowSplits(init, start, end, x);
      var w := Window(items, start, end);
      if start <= last.date <= end {
        assert w[..|w| - 1] == Window(init, start, end);
      } else {
        assert w == Window(init, start, end);
      }
    }
  }

  /** Opening plus the whole window is everything up to the window's last day. */
  lemma {:induction false} WindowTotal(items: seq<Item>, start: int, end: int, x: Item)
    requires start <= end + 1 && x.date == end && forall i | 0 <= i < |items| :: items[i].id <= x.id
    ensures Before(items, start) + UpTo(Window(items, start, end), x) == Before(items, end + 1)
    ensures forall k | 0 <= k < |Window(items, start, end)| ::
              NotAfter(Window(items, start, end)[k], x) && Window(items, start, end)[k] in items
              && start <= Window(items, start, end)[k].date <= end
  {
    if items != [] {
      var init, last := items[..|items| - 1], items[|items| - 1];
      WindowTotal(init, start, end, x);
      var w := Window(items, start, end);
      if start <= last.date <= end {
        assert w[..|w| - 1] == Window(init, start, end);
      } else {
        assert w == Window(init, start, end);
      }
    }
  }

  lemma {:induction false} WindowIds(items: seq<Item>, start: int, end: int)
    requires IncreasingIds(items)
    ensures IncreasingIds(Window(items, start, end))
    ensures forall k | 0 <= k < |Window(items, start, end)| ::
              Window(items, start, end)[k] in items && start <= Window(items, start, end)[k].date <= end
  {
    if items != [] {
      WindowIds(items[..|items| - 1], start, end);
    }
  }

  /** A permutation of items with distinct ids has distinct ids. */
  lemma DistinctPermutation(items: seq<Item>, r: seq<Item>)
    requires IncreasingIds(items) && multiset(r) == multiset(items)
    ensures DistinctIds(r)
  {
    forall i, j | 0 <= i < j < |r| ensures r[i].id != r[j].id {
      assert r[i] in multiset(r) && r[j] in multiset(r);
      var m :| 0 <= m < |items| && items[m] == r[i];
      var n :| 0 <= n < |items| && items[n] == r[j];
      if m == n {
        TwiceCounted(r, i, j);
        OnceCounted(items, m);
        assert false;
      }
    }
  }

  lemma TwiceCounted(r: seq<Item>, i: nat, j: nat)
    requires i < j < |r| && r[i] == r[j]
    ensures multiset(r)[r[i]] >= 2
  {
    assert r == r[..i] + [r[i]] + r[i + 1..j] + [r[j]] + r[j + 1..];
  }

  lemma OnceCounted(items: seq<Item>, m: nat)
    requires IncreasingIds(items) && m < |items|
    ensures multiset(items)[items[m]] == 1
  {
    assert items == items[..m] + [items[m]] + items[m + 1..];
    assert items[m] !in items[..m] && items[m] !in items[m + 1..];
  }

  // ---------------------------------------------------------------- ids of a valid journal

  ghost predicate IdsIn(items: seq<Item>, low: int, high: int) {
    forall k | 0 <= k < |items| :: low <= items[k].id < high
  }

  lemma IdsJoin(x: seq<Item>, y: seq<Item>, low: int, mid: int, high: int)
    requires IncreasingIds(x) && IdsIn(x, low, mid) && IncreasingIds(y) && IdsIn(y, mid, high) && low <= mid <= high
    ensures IncreasingIds(x + y) && IdsIn(x + y, low, high)
  {
    var z := x + y;
    assert forall k | 0 <= k < |z| :: z[k] == if k < |x| then x[k] else y[k - |x|];
  }

  lemma {:induction false} LineItemIds(lines: seq<Line>, a: nat, date: int, first: nat)
    requires forall k | 0 <= k < |lines| :: lines[k].id == first + k
    ensures IncreasingIds(LineItems(lines, a, date)) && IdsIn(LineItems(lines, a, date), first, first + |lines|)
  {
    if lines != [] {
      var n := |lines| - 1;
      LineItemIds(lines[..n], a, date, first);
      var last := LineItems(lines, a, date)[|LineItems(lines[..n], a, date)|..];
      assert LineItems(lines, a, date) == LineItems(lines[..n], a, date) + last;
      IdsJoin(LineItems(lines[..n], a, date), last, first, first + n, first + n + 1);
    }
  }

  lemma {:induction false} ItemIds(entries: seq<Entry>, a: nat)
    requires forall i, k | 0 <= i < |entries| && 0 <= k < |entries[i].lines| ::
               entries[i].lines[k].id == LineCount(entries[..i]) + k
    ensures IncreasingIds(Items(entries, a)) && IdsIn(Items(entries, a), 0, LineCount(entries))
  {
    if entries != [] {
      var n := |entries| - 1;
      var init, last := entries[..n], entries[n];
      assert forall i | 0 <= i < n :: init[i] == entries[i] && init[..i] == entries[..i];
      ItemIds(init, a);
      LineItemIds(last.lines, a, last.date, LineCount(init));
      IdsJoin(Items(init, a), LineItems(last.lines, a, last.date), 0, LineCount(init), LineCount(entries));
      assert last.status.Draft? ==> Items(entries, a) == Items(init, a);
    }
  }

  lemma BooksItemIds(b: Books, a: nat)
    requires ValidBooks(b)
    ensures IncreasingIds(Items(b.entries, a))
    ensures forall k | 0 <= k < |Items(b.entries, a)| :: Items(b.entries, a)[k].id < LineCount(b.entries)
  {
    forall i, k | 0 <= i < |b.entries| && 0 <= k < |b.entries[i].lines|
      ensures b.entries[i].lines[k].id == LineCount(b.entries[..i]) + k
    {
      assert ValidEntry(b, i);
    }
    ItemIds(b.entries, a);
  }

  // ---------------------------------------------------------------- the theorems

  lemma OrderedWindow(items: seq<Item>, start: int, end: int, k: nat)
    requires IncreasingIds(items) && k < |Ordered(Window(items, start, end))|
    ensures var lines := Ordered(Window(items, start, end));
            && Sorted(lines) && start <= lines[k].date <= end
            && (forall j | k < j < |lines| :: !NotAfter(lines[j], lines[k]))
  {
    var w := Window(items, start, end);
    var lines := Ordered(w);
    WindowIds(items, start, end);
    OrderedSorts(w);
    OrderedPermutes(w);
    DistinctPermutation(w, lines);
    assert lines[k] in multiset(lines);
    assert lines[k] in w;
    forall j | k < j < |lines| ensures !NotAfter(lines[j], lines[k]) {
      assert NotAfter(lines[k], lines[j]) && lines[k].id != lines[j].id;
    }
  }

  /**
   Each row shows the account's balance since inception through that row: the net of every posted
   line of the account dated earlier, or the same day with no later line id, whatever window asked.
   */
  lemma RunningSinceInception(b: Books, a: nat, start: int, end: int, k: nat)
    requires ValidBooks(b) && a < |b.accounts| && k < |Report(b, a, start, end).value.items|
    ensures var r := Report(b, a, start, end).value;
            r.running[k] == Sign(b.accounts[a].kind) * UpTo(Items(b.entries, a), r.items[k])
  {
    var items := Items(b.entries, a);
    var w := Window(items, start, end);
    var lines := Ordered(w);
    BooksItemIds(b, a);
    OrderedWindow(items, start, end, k);
    RunningIsPrefixSum(lines, Before(items, start), k);
    OrderedKeepsNet(w, lines[k]);
    WindowSplits(items, start, end, lines[k]);
  }

  /** The last running balance of a window is the balance before the day after it. */
  lemma WindowClosing(items: seq<Item>, start: int, end: int, x: Item)
    requires start <= end + 1 && x.date == end && forall i | 0 <= i < |items| :: items[i].id <= x.id
    ensures var lines := Ordered(Window(items, start, end));
            var opening := Before(items, start);
            (if lines == [] then opening else Running(lines, opening)[|lines| - 1]) == Before(items, end + 1)
  {
    var w := Window(items, start, end);
    var lines := Ordered(w);
    WindowTotal(items, start, end, x);
    OrderedKeepsNet(w, x);
    OrderedPermutes(w);
    forall k | 0 <= k < |lines| ensures NotAfter(lines[k], x) {
      assert lines[k] in multiset(lines);
      assert lines[k] in w;
    }
    AllUpTo(lines, Before(items, start), x);
  }

  /** The closing balance of a window is the opening balance of any window that starts the next day. */
  lemma ClosingIsNextOpening(b: Books, a: nat, start: int, end: int, nextEnd: int)
    requires ValidBooks(b) && a < |b.accounts| && start <= end + 1
    ensures Closing(Report(b, a, start, end).value) == Report(b, a, end + 1, nextEnd).value.opening
  {
    BooksItemIds(b, a);
    WindowClosing(Items(b.entries, a), start, end, Item(end, LineCount(b.entries), 0, 0));
  }

  /** The ledger and the trial balance agree: a window's movement is the account's trial-balance row. */
  lemma {:induction false} LedgerMatchesTrialBalance(entries: seq<Entry>, a: nat, start: int, end: int)
    requires start <= end + 1
    ensures Before(Items(entries, a), end + 1) - Before(Items(entries, a), start)
         == Movement(entries, a, Debit, start, end) - Movement(entries, a, Credit, start, end)
  {
    if entries != [] {
      var init, last := entries[..|entries| - 1], entries[|entries| - 1];
      LedgerMatchesTrialBalance(init, a, start, end);
      if last.status.Posted? {
        BeforeAppend(Items(init, a), LineItems(last.lines, a, last.date), end + 1);
        BeforeAppend(Items(init, a), LineItems(last.lines, a, last.date), start);
        LineItemsNet(last.lines, a, last.date, end + 1);
        LineItemsNet(last.lines, a, last.date, start);
      } else {
        assert Items(entries, a) == Items(init, a);
      }
    }
  }

  lemma {:induction false} BeforeAppend(x: seq<Item>, y: seq<Item>, day: int)
    ensures Before(x + y, day) == Before(x, day) + Before(y, day)
  {
    if y == [] {
      assert x + y == x;
    } else {
      BeforeAppend(x, y[..|y| - 1], day);
      assert (x + y)[..|x + y| - 1] == x + y[..|y| - 1];
    }
  }

  lemma {:induction false} LineItemsNet(lines: seq<Line>, a: nat, date: int, day: int)
    ensures Before(LineItems(lines, a, date), day)
         == if date < day then LinesOn(lines, a, Debit) - LinesOn(lines, a, Credit) else 0
  {
    if lines != [] {
      var init, last := lines[..|lines| - 1], lines[|lines| - 1];
      LineItemsNet(init, a, date, day);
      BeforeAppend(LineItems(init, a, date), if last.account == a then [Item(date, last.id, last.debit, last.credit)] else [], day);
    }
  }
}
