/**
 Keyset pagination of the audit log: pages of events, newest first, resumed
 from an opaque cursor that names the last event of the page before. Between
 two pages the table may gain or lose any rows.
 */
module Pagination {
  import opened Prelude
  import opened Cursor

  /** A timestamp, in microseconds from the start of year 1 to the end of year 9999. */
  type Instant = t: int | 0 <= t < 315_537_897_600_000_000

  type Uuid = u: int | 0 <= u < 0x1_0000_0000_0000_0000_0000_0000_0000_0000

  datatype Key = Key(time: Instant, id: Uuid)

  datatype Event = Event(
    time: Instant, id: Uuid, action: Text, resourceType: Text, resourceId: Option<int>, actor: Option<int>)
  {
    function At(): (r: Key) { Key(time, id) }
  }

  /** The rows of the log in any physical order; the primary key is the id. */
  type Table = t: seq<Event> | Keyed(t)

  predicate Keyed(t: seq<Event>) {
    forall i, j :: 0 <= i < j < |t| ==> t[i].id != t[j].id
  }

  datatype Query = Query(
    action: Option<Text>, resourceType: Option<Text>, resourceId: Option<int>, actor: Option<int>,
    from: Option<int>, to: Option<int>)

  datatype Page = Page(items: seq<Event>, next: Option<Text>, hasMore: bool)

  datatype Error = BadRange | BadCursor

  /** How a key is written as a cursor, and read back. */
  datatype Format = Format(write: Key -> Text, read: Text -> Option<Key>)

  /** Every key reads back, and none is written as the empty string, which means "no cursor". */
  ghost predicate Faithful(f: Format) {
    forall k: Key {:trigger f.write(k)} :: f.read(f.write(k)) == Some(k) && f.write(k) != []
  }

  /** The log's own format: a timestamp and an id as text, inside an encoded cursor. */
  function CursorFormat(render: Key -> (Text, Text), parse: (Text, Text) -> Option<Key>): (r: Format) {
    Format(
      k => var (a, b) := render(k); EncodeCursor(a, b),
      c => match DecodeCursor(c) case None => None case Some((a, b)) => parse(a, b))
  }

  /**
   It is faithful as soon as the ISO texts of these timestamps and the texts of
   UUIDs read back as they were written and hold no split surrogate pair.
   */
  lemma CursorFormatFaithful(render: Key -> (Text, Text), parse: (Text, Text) -> Option<Key>)
    requires forall k: Key {:trigger render(k)} ::
               var (a, b) := render(k); parse(a, b) == Some(k) && !SplitPair(a) && !SplitPair(b)
    ensures Faithful(CursorFormat(render, parse))
  {
    var f := CursorFormat(render, parse);
    forall k: Key ensures f.read(f.write(k)) == Some(k) && f.write(k) != [] {
      var (a, b) := render(k);
      CursorRoundTripsIff(a, b);
      CursorNonEmpty(a, b);
    }
  }

  // ---------------------------------------------------------------- the query

  predicate Below(a: Key, b: Key) {
    a.time < b.time || (a.time == b.time && a.id < b.id)
  }

  predicate After(e: Event, cursor: Option<Key>) {
    cursor.Some? ==> Below(e.At(), cursor.value)
  }

  /** An absent filter and an empty string both mean "any". */
  predicate Matches(q: Query, e: Event) {
    && (q.action.Some? && q.action.value != [] ==> e.action == q.action.value)
    && (q.resourceType.Some? && q.resourceType.value != [] ==> e.resourceType == q.resourceType.value)
    && (q.resourceId.Some? ==> e.resourceId == q.resourceId)
    && (q.actor.Some? ==> e.actor == q.actor)
    && (q.from.Some? ==> e.time >= q.from.value)
    && (q.to.Some? ==> e.time <= q.to.value)
  }

  predicate Descending(s: seq<Event>) {
    forall i, j :: 0 <= i < j < |s| ==> Below(s[j].At(), s[i].At())
  }

  lemma TailKeyed(t: seq<Event>)
    requires t != []
    ensures Keyed(t) ==> Keyed(t[1..]) && forall x :: x in t[1..] ==> x.id != t[0].id
  {
  }

  lemma ConsKeyed(e: Event, s: seq<Event>)
    ensures Keyed(s) && (forall x :: x in s ==> x.id != e.id) ==> Keyed([e] + s)
  {
    if Keyed(s) && forall x :: x in s ==> x.id != e.id {
      var r := [e] + s;
      forall i, j | 0 <= i < j < |r| ensures r[i].id != r[j].id {
        assert r[j] == s[j - 1] && s[j - 1] in s;
      }
    }
  }

  lemma ConsDescending(e: Event, s: seq<Event>)
    requires Descending(s) && forall x :: x in s ==> Below(x.At(), e.At())
    ensures Descending([e] + s)
  {
    var r := [e] + s;
    forall i, j | 0 <= i < j < |r| ensures Below(r[j].At(), r[i].At()) {
      assert r[j] == s[j - 1] && s[j - 1] in s;
    }
  }

  function Select(t: seq<Event>, q: Query, cursor: Option<Key>): (r: seq<Event>)
    ensures forall e :: e in r <==> e in t && Matches(q, e) && After(e, cursor)
    ensures Keyed(t) ==> Keyed(r)
  {
    if t == [] then []
    else
      var rest := Select(t[1..], q, cursor);
      if Matches(q, t[0]) && After(t[0], cursor) then
        TailKeyed(t); ConsKeyed(t[0], rest);
        [t[0]] + rest
      else rest
  }

  function Insert(e: Event, s: seq<Event>): (r: seq<Event>)
    requires Descending(s) && forall x :: x in s ==> x.id != e.id
    ensures Descending(r)
    ensures |r| == |s| + 1
    ensures forall x :: x in r <==> x == e || x in s
  {
    if s == [] then [e]
    else if Below(s[0].At(), e.At()) then [e] + s
    else
      var rest := Insert(e, s[1..]);
      ConsDescending(s[0], rest);
      [s[0]] + rest
  }

  function OrderBy(t: seq<Event>): (r: seq<Event>)
    requires Keyed(t)
    ensures Descending(r)
    ensures |r| == |t|
    ensures forall e :: e in r <==> e in t
  {
    if t == [] then [] else Insert(t[0], OrderBy(t[1..]))
  }

  /** Every row the query selects, newest first: what the pages cut up. */
  function Rows(t: Table, q: Query, cursor: Option<Key>): (r: seq<Event>)
    ensures Descending(r)
    ensures forall e :: e in r <==> e in t && Matches(q, e) && After(e, cursor)
  {
    OrderBy(Select(t, q, cursor))
  }

  function Take(s: seq<Event>, n: nat): (r: seq<Event>) {
    if |s| <= n then s else s[..n]
  }

  // ---------------------------------------------------------------- the service

  function Resolve(f: Format, cursor: Option<Text>): (r: Result<Option<Key>, Error>) {
    if cursor.None? || cursor.value == [] then Success(None)
    else match f.read(cursor.value)
      case None => Failure(BadCursor)
      case Some(k) => Success(Some(k))
  }

  function PageOf(f: Format, fetched: seq<Event>, limit: nat): (r: Page) {
    var items := Take(fetched, limit);
    var hasMore := |fetched| > limit;
    var next := if hasMore && items != [] then
                  Some(f.write(items[|items| - 1].At()))
                else None;
    Page(items, next, hasMore)
  }

  function ListEvents(f: Format, t: Table, limit: nat, cursor: Option<Text>, q: Query): (r: Result<Page, Error>) {
    if q.from.Some? && q.to.Some? && q.from.value > q.to.value then Failure(BadRange)
    else match Resolve(f, cursor)
      case Failure(e) => Failure(e)
      case Success(k) => Success(PageOf(f, Take(Rows(t, q, k), limit + 1), limit))
  }

  // ---------------------------------------------------------------- walks

  /**
   A client following `next`: page i is read from table i, with the cursor
   page i - 1 handed out.
   */
  ghost predicate Walk(f: Format, tables: seq<Table>, limit: nat, cursor: Option<Text>, q: Query, pages: seq<Page>)
    decreases |pages|
  {
    && |tables| == |pages| > 0
    && ListEvents(f, tables[0], limit, cursor, q) == Success(pages[0])
    && (|pages| > 1 ==>
          pages[0].next.Some? && Walk(f, tables[1..], limit, pages[0].next, q, pages[1..]))
  }

  predicate Ended(pages: seq<Page>) {
    |pages| > 0 && pages[|pages| - 1].next.None?
  }

  function Items(pages: seq<Page>): (r: seq<Event>) {
    if pages == [] then [] else pages[0].items + Items(pages[1..])
  }

  /** The cursor a page hands out names the last event on it. */
  lemma CursorResumes(f: Format, k: Key)
    requires Faithful(f)
    ensures Resolve(f, Some(f.write(k))) == Success(Some(k))
  {
    assert f.read(f.write(k)) == Some(k);
  }

  /** A page is the longest prefix the limit allows, and offers a cursor exactly when rows remain. */
  lemma PageIsPrefix(f: Format, t: Table, limit: nat, cursor: Option<Text>, q: Query, page: Page)
    requires limit >= 1
    requires ListEvents(f, t, limit, cursor, q) == Success(page)
    ensures var rows := Rows(t, q, Resolve(f, cursor).value);
            && page.items == Take(rows, limit)
            && page.hasMore == page.next.Some? == (|rows| > limit)
            && (page.next.Some? ==> page.next == Some(f.write(rows[limit - 1].At())))
  {
  }

  /** Rows above a cut of a descending sequence come before it, rows below after. */
  lemma CutAt(rows: seq<Event>, n: nat, e: Event)
    requires Descending(rows) && 1 <= n <= |rows| && e in rows
    ensures e in rows[..n] <==> !Below(e.At(), rows[n - 1].At())
    ensures e in rows[n..] <==> Below(e.At(), rows[n - 1].At())
  {
    var i :| 0 <= i < |rows| && rows[i] == e;
    if i < n {
      assert rows[..n][i] == e;
    } else {
      assert rows[n..][i - n] == e;
    }
  }

  /** What one page contributes to a walk that goes on from key `k`. */
  lemma PageStep(f: Format, t: Table, limit: nat, cursor: Option<Text>, q: Query, page: Page) returns (k: Key)
    requires Faithful(f) && limit >= 1
    requires ListEvents(f, t, limit, cursor, q) == Success(page) && page.next.Some?
    ensures Resolve(f, page.next) == Success(Some(k))
    ensures Descending(page.items) && |page.items| == limit
    ensures forall e :: e in page.items <==>
              e in t && Matches(q, e) && After(e, Resolve(f, cursor).value) && !Below(e.At(), k)
  {
    PageIsPrefix(f, t, limit, cursor, q, page);
    var rows := Rows(t, q, Resolve(f, cursor).value);
    k := rows[limit - 1].At();
    CursorResumes(f, k);
    forall e | e in rows ensures e in rows[..limit] <==> !Below(e.At(), k) {
      CutAt(rows, limit, e);
    }
  }

  /** The last page of a walk holds everything left. */
  lemma PageLast(f: Format, t: Table, limit: nat, cursor: Option<Text>, q: Query, page: Page)
    requires limit >= 1
    requires ListEvents(f, t, limit, cursor, q) == Success(page) && page.next.None?
    ensures Resolve(f, cursor).Success? && page.items == Rows(t, q, Resolve(f, cursor).value)
  {
    PageIsPrefix(f, t, limit, cursor, q, page);
  }

  lemma DescendingAppend(a: seq<Event>, b: seq<Event>, k: Key)
    requires Descending(a) && Descending(b)
    requires forall e :: e in a ==> !Below(e.At(), k)
    requires forall e :: e in b ==> Below(e.At(), k)
    ensures Descending(a + b)
  {
    var c := a + b;
    forall i, j | 0 <= i < j < |c| ensures Below(c[j].At(), c[i].At()) {
      assert i < |a| ==> a[i] in a && c[i] == a[i];
      assert j >= |a| ==> b[j - |a|] in b && c[j] == b[j - |a|];
    }
  }

  /** The start of a walk, as a key. */
  ghost function Start(f: Format, cursor: Option<Text>): (r: Option<Key>) {
    var r := Resolve(f, cursor);
    if r.Success? then r.value else None
  }

  /**
   Whatever happens to the table between pages: the items of a walk are
   strictly descending, so none repeats; each lies past the starting cursor,
   matches, and was in the table when its page was read.
   */
  lemma {:induction false} WalkDescends(f: Format, tables: seq<Table>, limit: nat, cursor: Option<Text>, q: Query, pages: seq<Page>)
    requires Faithful(f) && limit >= 1
    requires Walk(f, tables, limit, cursor, q, pages)
    ensures Descending(Items(pages))
    ensures forall e :: e in Items(pages) ==> After(e, Start(f, cursor)) && Matches(q, e)
    ensures forall e :: e in Items(pages) ==> exists i :: 0 <= i < |tables| && e in tables[i]
    decreases |pages|
  {
    PageIsPrefix(f, tables[0], limit, cursor, q, pages[0]);
    if |pages| == 1 {
      assert Items(pages) == pages[0].items;
    } else {
      var k := PageStep(f, tables[0], limit, cursor, q, pages[0]);
      WalkDescends(f, tables[1..], limit, pages[0].next, q, pages[1..]);
      var rest := Items(pages[1..]);
      LastIsWithin(f, tables[0], limit, cursor, q, pages[0], k);
      DescendingAppend(pages[0].items, rest, k);
      forall e | e in rest
        ensures After(e, Start(f, cursor))
        ensures exists i :: 0 <= i < |tables| && e in tables[i]
      {
        var i :| 0 <= i < |tables[1..]| && e in tables[1..][i];
        assert e in tables[i + 1];
      }
    }
  }

  lemma LastIsWithin(f: Format, t: Table, limit: nat, cursor: Option<Text>, q: Query, page: Page, k: Key)
    requires Faithful(f) && limit >= 1
    requires ListEvents(f, t, limit, cursor, q) == Success(page) && page.next.Some?
    requires Resolve(f, page.next) == Success(Some(k))
    ensures Start(f, cursor).Some? ==> Below(k, Start(f, cursor).value)
  {
    PageIsPrefix(f, t, limit, cursor, q, page);
    var rows := Rows(t, q, Resolve(f, cursor).value);
    CursorResumes(f, rows[limit - 1].At());
    assert rows[limit - 1] in rows;
  }

  /** A longer walk is a page and a walk. */
  lemma WalkTail(f: Format, tables: seq<Table>, limit: nat, cursor: Option<Text>, q: Query, pages: seq<Page>)
    requires Walk(f, tables, limit, cursor, q, pages) && |pages| > 1
    ensures pages[0].next.Some? && Walk(f, tables[1..], limit, pages[0].next, q, pages[1..])
    ensures Ended(pages[1..]) <==> Ended(pages)
    ensures Items(pages) == pages[0].items + Items(pages[1..])
  {
  }

  lemma TailHolds(tables: seq<Table>, e: Event)
    requires |tables| > 0 && forall i :: 0 <= i < |tables| ==> e in tables[i]
    ensures forall i :: 0 <= i < |tables[1..]| ==> e in tables[1..][i]
  {
    assert forall i :: 0 <= i < |tables[1..]| ==> tables[1..][i] == tables[i + 1];
  }

  /** What one page leaves to the rest of the walk: a row is on it, or past the cursor it hands out. */
  lemma OnPageOrPast(f: Format, t: Table, limit: nat, cursor: Option<Text>, q: Query, page: Page, e: Event)
    requires Faithful(f) && limit >= 1 && page.next.Some?
    requires ListEvents(f, t, limit, cursor, q) == Success(page)
    requires e in t && Matches(q, e) && After(e, Start(f, cursor))
    ensures e in page.items || After(e, Start(f, page.next))
  {
    var k := PageStep(f, t, limit, cursor, q, page);
  }

  /**
   A finished walk misses nothing that was there throughout: every matching
   row present in the table at every page, past the starting cursor, is
   returned (once, since the items strictly descend).
   */
  lemma {:induction false} WalkComplete(f: Format, tables: seq<Table>, limit: nat, cursor: Option<Text>, q: Query,
      pages: seq<Page>, e: Event)
    requires Faithful(f) && limit >= 1
    requires Walk(f, tables, limit, cursor, q, pages) && Ended(pages)
    requires Matches(q, e) && After(e, Start(f, cursor))
    requires forall i :: 0 <= i < |tables| ==> e in tables[i]
    ensures e in Items(pages)
    decreases |pages|
  {
    if |pages| == 1 {
      PageLast(f, tables[0], limit, cursor, q, pages[0]);
    } else {
      WalkTail(f, tables, limit, cursor, q, pages);
      OnPageOrPast(f, tables[0], limit, cursor, q, pages[0], e);
      if e !in pages[0].items {
        TailHolds(tables, e);
        WalkComplete(f, tables[1..], limit, pages[0].next, q, pages[1..], e);
      }
    }
  }

  /** How often an event occurs. */
  function Count(s: seq<Event>, e: Event): (r: nat) {
    multiset(s)[e]
  }

  lemma {:induction false} DescendingOnce(s: seq<Event>, e: Event)
    requires Descending(s) && e in s
    ensures Count(s, e) == 1
  {
    var t := s[1..];
    assert s == [s[0]] + t;
    TailElement(s, e);
    if e != s[0] {
      DescendingOnce(t, e);
    }
  }

  /** Both halves together: returned exactly once. */
  lemma PresentThroughoutOnce(f: Format, tables: seq<Table>, limit: nat, q: Query, pages: seq<Page>, e: Event)
    requires Faithful(f) && limit >= 1
    requires Walk(f, tables, limit, None, q, pages) && Ended(pages)
    requires Matches(q, e)
    requires forall i :: 0 <= i < |tables| ==> e in tables[i]
    ensures Count(Items(pages), e) == 1
  {
    WalkDescends(f, tables, limit, None, q, pages);
    WalkComplete(f, tables, limit, None, q, pages, e);
    DescendingOnce(Items(pages), e);
  }

  // ---------------------------------------------------------------- a table that stays put

  /** A descending sequence is determined by its elements. */
  lemma {:induction false} DescendingUnique(a: seq<Event>, b: seq<Event>)
    requires Descending(a) && Descending(b)
    requires forall e :: e in a <==> e in b
    ensures a == b
  {
    assert a != [] ==> a[0] in a;
    assert b != [] ==> b[0] in b;
    if a != [] {
      var i :| 0 <= i < |b| && b[i] == a[0];
      var j :| 0 <= j < |a| && a[j] == b[0];
      assert i == 0 && j == 0;
      forall e ensures e in a[1..] <==> e in b[1..] {
        TailElement(a, e);
        TailElement(b, e);
      }
      DescendingUnique(a[1..], b[1..]);
    }
  }

  lemma TailElement(s: seq<Event>, e: Event)
    requires Descending(s) && s != []
    ensures e in s[1..] <==> e in s && e != s[0]
  {
    if e in s[1..] {
      var i :| 0 <= i < |s[1..]| && s[1..][i] == e;
      assert Below(s[i + 1].At(), s[0].At());
    }
  }

  /** Resuming below the last row of a page selects exactly the rows the page left over. */
  lemma ResumeIsTail(t: Table, q: Query, cursor: Option<Key>, n: nat)
    requires 1 <= n <= |Rows(t, q, cursor)|
    ensures var rows := Rows(t, q, cursor); Rows(t, q, Some(rows[n - 1].At())) == rows[n..]
  {
    var rows := Rows(t, q, cursor);
    var k := rows[n - 1].At();
    var rest := Rows(t, q, Some(k));
    assert rows[n - 1] in rows;
    forall e ensures e in rest <==> e in rows[n..] {
      if e in rows {
        CutAt(rows, n, e);
      }
    }
    DescendingUnique(rest, rows[n..]);
  }

  /** Pages needed for a number of rows; an empty result still takes one. */
  function PagesFor(rows: nat, limit: nat): (r: nat)
    requires limit >= 1
  {
    if rows <= limit then 1 else 1 + PagesFor(rows - limit, limit)
  }

  /** Following `next` on a fixed table: the client's loop, which the remaining rows bound. */
  ghost function Follow(f: Format, t: Table, limit: nat, cursor: Option<Text>, q: Query): (pages: seq<Page>)
    requires Faithful(f) && limit >= 1
    requires ListEvents(f, t, limit, cursor, q).Success?
    decreases |Rows(t, q, Resolve(f, cursor).value)|
  {
    var page := ListEvents(f, t, limit, cursor, q).value;
    PageIsPrefix(f, t, limit, cursor, q, page);
    if page.next.None? then [page]
    else
      var rows := Rows(t, q, Resolve(f, cursor).value);
      CursorResumes(f, rows[limit - 1].At());
      ResumeIsTail(t, q, Resolve(f, cursor).value, limit);
      [page] + Follow(f, t, limit, page.next, q)
  }

  /** The last turn of the loop. */
  lemma FollowLast(f: Format, t: Table, limit: nat, cursor: Option<Text>, q: Query, page: Page)
    requires Faithful(f) && limit >= 1 && ListEvents(f, t, limit, cursor, q) == Success(page) && page.next.None?
    ensures Resolve(f, cursor).Success? && |Rows(t, q, Resolve(f, cursor).value)| <= limit
    ensures page.items == Rows(t, q, Resolve(f, cursor).value)
    ensures Follow(f, t, limit, cursor, q) == [page]
  {
    PageIsPrefix(f, t, limit, cursor, q, page);
  }

  /** Any other turn: the rows past the cursor a page hands out are those it left over. */
  lemma MoreRows(f: Format, t: Table, limit: nat, cursor: Option<Text>, q: Query, page: Page) returns (rows: seq<Event>)
    requires Faithful(f) && limit >= 1 && ListEvents(f, t, limit, cursor, q) == Success(page) && page.next.Some?
    ensures Resolve(f, cursor).Success? && rows == Rows(t, q, Resolve(f, cursor).value)
    ensures |rows| > limit && page.items == rows[..limit]
    ensures Resolve(f, page.next).Success? && ListEvents(f, t, limit, page.next, q).Success?
    ensures Rows(t, q, Resolve(f, page.next).value) == rows[limit..]
  {
    PageIsPrefix(f, t, limit, cursor, q, page);
    rows := Rows(t, q, Resolve(f, cursor).value);
    CursorResumes(f, rows[limit - 1].At());
    ResumeIsTail(t, q, Resolve(f, cursor).value, limit);
  }

  lemma MorePages(f: Format, t: Table, limit: nat, cursor: Option<Text>, q: Query, page: Page)
    requires Faithful(f) && limit >= 1 && ListEvents(f, t, limit, cursor, q) == Success(page) && page.next.Some?
    requires ListEvents(f, t, limit, page.next, q).Success?
    ensures Follow(f, t, limit, cursor, q) == [page] + Follow(f, t, limit, page.next, q)
  {
  }

  /** What the loop collects: everything past the cursor, on no more pages than that needs. */
  ghost predicate Collects(pages: seq<Page>, rows: seq<Event>, limit: nat)
    requires limit >= 1
  {
    Items(pages) == rows && |pages| == PagesFor(|rows|, limit)
  }

  lemma CollectsOneMore(pages: seq<Page>, page: Page, rest: seq<Page>, rows: seq<Event>, others: seq<Event>, limit: nat)
    requires 1 <= limit < |rows| && page.items == rows[..limit] && others == rows[limit..]
    requires Collects(rest, others, limit) && pages == [page] + rest
    ensures Collects(pages, rows, limit)
  {
    ItemsCons(page, rest);
    assert rows == rows[..limit] + rows[limit..];
  }

  lemma CollectsLast(f: Format, t: Table, limit: nat, cursor: Option<Text>, q: Query, page: Page)
    requires Faithful(f) && limit >= 1 && ListEvents(f, t, limit, cursor, q) == Success(page) && page.next.None?
    ensures Collects(Follow(f, t, limit, cursor, q), Rows(t, q, Resolve(f, cursor).value), limit)
  {
    FollowLast(f, t, limit, cursor, q, page);
    ItemsCons(page, []);
  }

  lemma CollectsMore(f: Format, t: Table, limit: nat, cursor: Option<Text>, q: Query, page: Page, rest: seq<Page>)
    requires Faithful(f) && limit >= 1 && ListEvents(f, t, limit, cursor, q) == Success(page) && page.next.Some?
    requires ListEvents(f, t, limit, page.next, q).Success? && rest == Follow(f, t, limit, page.next, q)
    requires Collects(rest, Rows(t, q, Resolve(f, page.next).value), limit)
    ensures Collects(Follow(f, t, limit, cursor, q), Rows(t, q, Resolve(f, cursor).value), limit)
  {
    var rows := MoreRows(f, t, limit, cursor, q, page);
    MorePages(f, t, limit, cursor, q, page);
    CollectsOneMore(Follow(f, t, limit, cursor, q), page, rest, rows, Rows(t, q, Resolve(f, page.next).value), limit);
  }

  /** On a fixed table the pages joined together are the unpaged result, whatever the limit. */
  lemma {:induction false} FollowIsWhole(f: Format, t: Table, limit: nat, cursor: Option<Text>, q: Query)
    requires Faithful(f) && limit >= 1
    requires ListEvents(f, t, limit, cursor, q).Success?
    ensures Collects(Follow(f, t, limit, cursor, q), Rows(t, q, Resolve(f, cursor).value), limit)
    decreases |Rows(t, q, Resolve(f, cursor).value)|
  {
    var page := ListEvents(f, t, limit, cursor, q).value;
    if page.next.Some? {
      var rows := MoreRows(f, t, limit, cursor, q, page);
      FollowIsWhole(f, t, limit, page.next, q);
      CollectsMore(f, t, limit, cursor, q, page, Follow(f, t, limit, page.next, q));
    } else {
      CollectsLast(f, t, limit, cursor, q, page);
    }
  }

  lemma ItemsCons(page: Page, rest: seq<Page>)
    ensures Items([page] + rest) == page.items + Items(rest)
    ensures rest == [] ==> Items([page]) == page.items
  {
    assert ([page] + rest)[1..] == rest;
    assert rest == [] ==> [page] + rest == [page];
  }

  function Copies(t: Table, n: nat): (r: seq<Table>)
    ensures |r| == n
  {
    if n == 0 then [] else [t] + Copies(t, n - 1)
  }

  /** The loop is a walk over the unchanging table, and it ends. */
  lemma {:induction false} FollowEnds(f: Format, t: Table, limit: nat, cursor: Option<Text>, q: Query)
    requires Faithful(f) && limit >= 1
    requires ListEvents(f, t, limit, cursor, q).Success?
    ensures var pages := Follow(f, t, limit, cursor, q);
            Walk(f, Copies(t, |pages|), limit, cursor, q, pages) && Ended(pages)
    decreases |Rows(t, q, Resolve(f, cursor).value)|
  {
    var page := ListEvents(f, t, limit, cursor, q).value;
    if page.next.None? {
      FollowLast(f, t, limit, cursor, q, page);
    } else {
      var rows := MoreRows(f, t, limit, cursor, q, page);
      MorePages(f, t, limit, cursor, q, page);
      FollowEnds(f, t, limit, page.next, q);
      var rest := Follow(f, t, limit, page.next, q);
      assert ([page] + rest)[1..] == rest;
      assert Copies(t, |rest| + 1)[1..] == Copies(t, |rest|);
    }
  }

  /** No walk over an unchanging table goes on longer: it is a prefix of the loop. */
  lemma {:induction false} WalkIsPrefix(f: Format, t: Table, limit: nat, cursor: Option<Text>, q: Query, pages: seq<Page>)
    requires Faithful(f) && limit >= 1
    requires Walk(f, Copies(t, |pages|), limit, cursor, q, pages)
    ensures ListEvents(f, t, limit, cursor, q).Success?
    ensures pages <= Follow(f, t, limit, cursor, q)
    decreases |pages|
  {
    assert pages == [pages[0]] + pages[1..];
    if |pages| > 1 {
      var rows := MoreRows(f, t, limit, cursor, q, pages[0]);
      MorePages(f, t, limit, cursor, q, pages[0]);
      WalkTail(f, Copies(t, |pages|), limit, cursor, q, pages);
      assert Copies(t, |pages|)[1..] == Copies(t, |pages| - 1);
      WalkIsPrefix(f, t, limit, pages[0].next, q, pages[1..]);
    }
  }

  /** A cursor that is not one, or names no key, is refused; the empty string is no cursor. */
  lemma CursorErrors(f: Format, t: Table, limit: nat, cursor: Option<Text>, q: Query)
    ensures ListEvents(f, t, limit, cursor, q) == Failure(BadRange) <==>
            q.from.Some? && q.to.Some? && q.from.value > q.to.value
    ensures ListEvents(f, t, limit, cursor, q) == Failure(BadCursor) <==>
            && !(q.from.Some? && q.to.Some? && q.from.value > q.to.value)
            && cursor.Some? && cursor.value != []
            && f.read(cursor.value).None?
  {
  }

  // ---------------------------------------------------------------- what the filters mean

  /**
   Whatever happens to the table: a walk returns only events inside the asked range of time, bounds
   included, with the asked action, resource type, resource and actor where one was asked for.
   */
  lemma WalkFiltered(f: Format, tables: seq<Table>, limit: nat, q: Query, pages: seq<Page>, e: Event)
    requires Faithful(f) && limit >= 1 && Walk(f, tables, limit, None, q, pages) && e in Items(pages)
    ensures q.from.Some? ==> q.from.value <= e.time
    ensures q.to.Some? ==> e.time <= q.to.value
    ensures q.action.Some? && q.action.value != [] ==> e.action == q.action.value
    ensures q.resourceType.Some? && q.resourceType.value != [] ==> e.resourceType == q.resourceType.value
    ensures q.resourceId.Some? ==> e.resourceId == Some(q.resourceId.value)
    ensures q.actor.Some? ==> e.actor == Some(q.actor.value)
  {
    WalkDescends(f, tables, limit, None, q, pages);
  }

  /** Asked for a range of time alone, a finished walk returns each event there throughout once if it lies in the range, else never. */
  lemma RangeWalk(f: Format, tables: seq<Table>, limit: nat, from: int, to: int, pages: seq<Page>, e: Event)
    requires Faithful(f) && limit >= 1
    requires Walk(f, tables, limit, None, Query(None, None, None, None, Some(from), Some(to)), pages) && Ended(pages)
    requires forall i :: 0 <= i < |tables| ==> e in tables[i]
    ensures Count(Items(pages), e) == if from <= e.time <= to then 1 else 0
  {
    var q := Query(None, None, None, None, Some(from), Some(to));
    if from <= e.time <= to {
      PresentThroughoutOnce(f, tables, limit, q, pages, e);
    } else if e in Items(pages) {
      WalkFiltered(f, tables, limit, q, pages, e);
    }
  }

  /** Asked for one kind of action alone, or for the empty string, which asks for nothing. */
  lemma ActionWalk(f: Format, tables: seq<Table>, limit: nat, action: Text, pages: seq<Page>, e: Event)
    requires Faithful(f) && limit >= 1
    requires Walk(f, tables, limit, None, Query(Some(action), None, None, None, None, None), pages) && Ended(pages)
    requires forall i :: 0 <= i < |tables| ==> e in tables[i]
    ensures Count(Items(pages), e) == if action == [] || e.action == action then 1 else 0
  {
    var q := Query(Some(action), None, None, None, None, None);
    if action == [] || e.action == action {
      PresentThroughoutOnce(f, tables, limit, q, pages, e);
    } else if e in Items(pages) {
      WalkDescends(f, tables, limit, None, q, pages);
    }
  }

}
