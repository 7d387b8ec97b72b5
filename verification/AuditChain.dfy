/**
 The audit hash chain: rows linked by a trigger inside concurrent transactions, and the query that
 recomputes the chain.

 One table of the two chained ones is modelled; the other has the same trigger, sequence and query.
 */
module AuditChain {
  import opened Prelude
  import opened ChainHash

  type Tenant = Option<string>

  datatype Row = Row(fields: Fields, prevHash: Option<string>, hash: Option<string>, chainSeq: Option<nat>)

  // ---------------------------------------------------------------- selecting and ordering rows

  function OfTenant(rows: seq<Row>, x: Tenant): (r: seq<Row>) {
    if rows == [] then []
    else
      var last := rows[|rows| - 1];
      OfTenant(rows[..|rows| - 1], x) + if last.fields.tenant == x then [last] else []
  }

  /** ORDER BY chain_seq: ascending, NULLs last. */
  predicate Precedes(x: Row, y: Row) {
    x.chainSeq.Some? && (y.chainSeq.None? || x.chainSeq.value < y.chainSeq.value)
  }

  function Insert(ordered: seq<Row>, x: Row): (r: seq<Row>) {
    if ordered == [] || !Precedes(x, ordered[|ordered| - 1]) then ordered + [x]
    else Insert(ordered[..|ordered| - 1], x) + [ordered[|ordered| - 1]]
  }

  function Ordered(rows: seq<Row>): (r: seq<Row>) {
    if rows == [] then [] else Insert(Ordered(rows[..|rows| - 1]), rows[|rows| - 1])
  }

  /** LAG(hash) OVER (PARTITION BY tenant_id ORDER BY chain_seq), seen from after `before`. */
  function LastHash(before: seq<Row>, x: Tenant): (h: Option<string>) {
    if before == [] then None
    else if before[|before| - 1].fields.tenant == x then before[|before| - 1].hash
    else LastHash(before[..|before| - 1], x)
  }

  // ---------------------------------------------------------------- the verifier

  datatype BrokenLink = BrokenLink(row: Row, linkBroken: bool, hashBroken: bool)

  /** The WHERE clause; comparing with a NULL hash is unknown, hence not reported by itself. */
  predicate Reported(H: string -> string, expected: Option<string>, row: Row) {
    row.prevHash != expected || (row.hash.Some? && row.hash.value != H(Preimage(expected, row.fields)))
  }

  /** What the query reports over rows it has put in order. */
  function Report(H: string -> string, ordered: seq<Row>): (r: seq<BrokenLink>) {
    if ordered == [] then []
    else
      var init, last := ordered[..|ordered| - 1], ordered[|ordered| - 1];
      var expected := LastHash(init, last.fields.tenant);
      Report(H, init)
        + if Reported(H, expected, last) then
            [BrokenLink(last, last.prevHash != expected, last.hash != Some(H(Preimage(expected, last.fields))))]
          else []
  }

  /** One table checked for one tenant, or, given NULL, all of its rows at once. */
  function CheckTable(H: string -> string, rows: seq<Row>, tenant: Tenant): (r: seq<BrokenLink>) {
    Report(H, CheckOrder(rows, tenant))
  }

  /** The rows a check looks at, in the order it looks at them. */
  function CheckOrder(rows: seq<Row>, tenant: Tenant): (r: seq<Row>) {
    if tenant.Some? then Ordered(OfTenant(rows, tenant)) else Ordered(rows)
  }

  datatype TableName = AuditEvents | SecurityEvents

  /** audit_events is skipped for NULL: row-level security cannot show it every tenant's rows. */
  function Verified(H: string -> string, rows: TableName -> seq<Row>, tenant: Tenant, tables: seq<TableName>): (r: seq<BrokenLink>) {
    if tables == [] then []
    else
      var last := tables[|tables| - 1];
      Verified(H, rows, tenant, tables[..|tables| - 1])
        + if last.AuditEvents? && tenant.None? then [] else CheckTable(H, rows(last), tenant)
  }

  method VerifyChain(H: string -> string, rows: TableName -> seq<Row>, tenant: Tenant, tables: seq<TableName>)
    returns (broken: seq<BrokenLink>)
    ensures broken == Verified(H, rows, tenant, tables)
    ensures broken == [] <==> forall t | t in tables && Checked(t, tenant) :: Clean(H, rows(t), tenant)
    ensures forall link :: link in broken <==>
              exists t, p | t in tables && Checked(t, tenant) && 0 <= p < |CheckOrder(rows(t), tenant)| ::
                BrokenAt(H, CheckOrder(rows(t), tenant), p) && link == LinkAt(H, CheckOrder(rows(t), tenant), p)
  {
    broken := [];
    for i := 0 to |tables|
      invariant broken == Verified(H, rows, tenant, tables[..i])
    {
      assert tables[..i + 1][..i] == tables[..i];
      if tables[i].AuditEvents? && tenant.None? {
        continue;
      }
      broken := broken + CheckTable(H, rows(tables[i]), tenant);
    }
    assert tables[..|tables|] == tables;
    VerifiedCleanIff(H, rows, tenant, tables);
    VerifiedNames(H, rows, tenant, tables);
  }

  // ---------------------------------------------------------------- what a report says

  /** `j` is the row before `i` of the same tenant. */
  predicate JustBefore(rows: seq<Row>, j: int, i: int) {
    && 0 <= j < i < |rows| && rows[j].fields.tenant == rows[i].fields.tenant
    && forall k | j < k < i :: rows[k].fields.tenant != rows[i].fields.tenant
  }

  /** The hash the row ought to link to. */
  ghost function Preceding(rows: seq<Row>, i: nat): (h: Option<string>)
    requires i < |rows|
  {
    if j :| JustBefore(rows, j, i) then rows[j].hash else None
  }

  ghost predicate LinkBad(rows: seq<Row>, i: nat)
    requires i < |rows|
  {
    rows[i].prevHash != Preceding(rows, i)
  }

  ghost predicate HashBad(H: string -> string, rows: seq<Row>, i: nat)
    requires i < |rows|
  {
    rows[i].hash != Some(H(Preimage(Preceding(rows, i), rows[i].fields)))
  }

  /** Its link is not the preceding hash, or it has a hash and that is not the recomputed one. */
  ghost predicate BrokenAt(H: string -> string, rows: seq<Row>, i: nat)
    requires i < |rows|
  {
    LinkBad(rows, i) || (rows[i].hash.Some? && HashBad(H, rows, i))
  }

  ghost function LinkAt(H: string -> string, rows: seq<Row>, i: nat): (link: BrokenLink)
    requires i < |rows|
  {
    BrokenLink(rows[i], LinkBad(rows, i), HashBad(H, rows, i))
  }

  lemma {:induction false} LastHashPrecedes(before: seq<Row>, row: Row)
    ensures LastHash(before, row.fields.tenant) == Preceding(before + [row], |before|)
    decreases |before|
  {
    var rows, n := before + [row], |before|;
    if n > 0 {
      var x := row.fields.tenant;
      if before[n - 1].fields.tenant == x {
        assert JustBefore(rows, n - 1, n);
        JustOne(rows, n);
      } else {
        var init := before[..n - 1];
        LastHashPrecedes(init, row);
        assert before == init + [before[n - 1]];
        SameRowBefore(init, before[n - 1], row);
      }
    }
  }

  /** There is at most one such row. */
  lemma JustOne(rows: seq<Row>, i: int)
    ensures forall j, k | JustBefore(rows, j, i) && JustBefore(rows, k, i) :: j == k
  {
  }

  lemma SkipsOther(init: seq<Row>, other: Row, row: Row, j: int)
    requires other.fields.tenant != row.fields.tenant
    ensures var n := |init| + 1;
            && (JustBefore(init + [row], j, n - 1) <==> JustBefore(init + [other] + [row], j, n))
            && (0 <= j < n - 1 ==> (init + [row])[j] == (init + [other] + [row])[j])
  {
    var n := |init| + 1;
    var a, b := init + [row], init + [other] + [row];
    assert forall k | 0 <= k < n - 1 :: a[k] == b[k] == init[k];
    assert a[n - 1] == row && b[n - 1] == other && b[n] == row;
    if JustBefore(a, j, n - 1) {
      assert forall k | j < k < n :: b[k].fields.tenant != row.fields.tenant;
    }
  }

  lemma SameRowBefore(init: seq<Row>, other: Row, row: Row)
    requires other.fields.tenant != row.fields.tenant
    ensures Preceding(init + [row], |init|) == Preceding(init + [other] + [row], |init| + 1)
  {
    var a, b, m, n := init + [row], init + [other] + [row], |init|, |init| + 1;
    forall j ensures JustBefore(a, j, m) <==> JustBefore(b, j, n) {
      SkipsOther(init, other, row, j);
    }
    if j :| JustBefore(a, j, m) {
      assert JustBefore(b, j, n) && a[j] == b[j];
      JustOne(a, m);
      JustOne(b, n);
    }
  }

  /** What comes later does not change what precedes. */
  lemma PrecedingPrefix(rows: seq<Row>, n: nat, i: nat)
    requires i < n <= |rows|
    ensures Preceding(rows[..n], i) == Preceding(rows, i)
  {
    assert forall j :: JustBefore(rows[..n], j, i) <==> JustBefore(rows, j, i);
    JustOne(rows, i);
    JustOne(rows[..n], i);
  }

  predicate Increasing(ps: seq<nat>) {
    forall a, b | 0 <= a < b < |ps| :: ps[a] < ps[b]
  }

  /** The links are those of the positions, one each, in order. */
  ghost predicate Lists(H: string -> string, rows: seq<Row>, links: seq<BrokenLink>, ps: seq<nat>) {
    && |links| == |ps| && Increasing(ps)
    && (forall a | 0 <= a < |ps| :: ps[a] < |rows| && BrokenAt(H, rows, ps[a]) && links[a] == LinkAt(H, rows, ps[a]))
    && (forall i: nat | i < |rows| && BrokenAt(H, rows, i) :: i in ps)
  }

  /**
   The report lists, in order and once each, exactly the rows whose link is not the hash of the same
   tenant's row before, or whose hash is there and is not the recomputed one, each with both findings.
   */
  lemma {:induction false} ReportExact(H: string -> string, rows: seq<Row>) returns (ps: seq<nat>)
    ensures Lists(H, rows, Report(H, rows), ps)
    decreases |rows|
  {
    ps := [];
    if rows != [] {
      var n := |rows| - 1;
      var init, last := rows[..n], rows[n];
      assert rows == init + [last];
      ps := ReportExact(H, init);
      LastHashPrecedes(init, last);
      ListsLater(H, rows, Report(H, init), ps);
      if BrokenAt(H, rows, n) {
        ps := ps + [n];
      }
    }
  }

  /** A listing of all but the last row, seen from the whole. */
  lemma ListsLater(H: string -> string, rows: seq<Row>, links: seq<BrokenLink>, ps: seq<nat>)
    requires rows != [] && Lists(H, rows[..|rows| - 1], links, ps)
    ensures |links| == |ps| && Increasing(ps)
    ensures forall a | 0 <= a < |ps| :: ps[a] < |rows| - 1 && BrokenAt(H, rows, ps[a]) && links[a] == LinkAt(H, rows, ps[a])
    ensures forall i: nat | i < |rows| - 1 && BrokenAt(H, rows, i) :: i in ps
  {
    var n := |rows| - 1;
    forall i: nat | i < n
      ensures BrokenAt(H, rows[..n], i) <==> BrokenAt(H, rows, i)
      ensures LinkAt(H, rows[..n], i) == LinkAt(H, rows, i)
    {
      PrecedingPrefix(rows, n, i);
    }
  }

  lemma ReportNames(H: string -> string, rows: seq<Row>, link: BrokenLink)
    ensures link in Report(H, rows) <==> exists p | 0 <= p < |rows| :: BrokenAt(H, rows, p) && link == LinkAt(H, rows, p)
  {
    var links := Report(H, rows);
    var ps := ReportExact(H, rows);
    if link in links {
      var a :| 0 <= a < |links| && links[a] == link;
      assert BrokenAt(H, rows, ps[a]);
    }
    if p: nat :| p < |rows| && BrokenAt(H, rows, p) && link == LinkAt(H, rows, p) {
      var a :| 0 <= a < |ps| && ps[a] == p;
      assert links[a] == link;
    }
  }

  lemma VerifiedNames(H: string -> string, rows: TableName -> seq<Row>, tenant: Tenant, tables: seq<TableName>)
    ensures forall link :: link in Verified(H, rows, tenant, tables) <==>
              exists t, p | t in tables && Checked(t, tenant) && 0 <= p < |CheckOrder(rows(t), tenant)| ::
                BrokenAt(H, CheckOrder(rows(t), tenant), p) && link == LinkAt(H, CheckOrder(rows(t), tenant), p)
  {
    forall link ensures link in Verified(H, rows, tenant, tables) <==> FoundIn(H, rows, tenant, tables, link) {
      VerifiedFrom(H, rows, tenant, tables, link);
    }
    forall link, t ensures link in CheckTable(H, rows(t), tenant) <==>
              exists p | 0 <= p < |CheckOrder(rows(t), tenant)| ::
                BrokenAt(H, CheckOrder(rows(t), tenant), p) && link == LinkAt(H, CheckOrder(rows(t), tenant), p)
    {
      ReportNames(H, CheckOrder(rows(t), tenant), link);
    }
  }

  lemma VerifiedAppend(H: string -> string, rows: TableName -> seq<Row>, tenant: Tenant, init: seq<TableName>, last: TableName)
    ensures Verified(H, rows, tenant, init + [last])
         == Verified(H, rows, tenant, init) + if Checked(last, tenant) then CheckTable(H, rows(last), tenant) else []
  {
    assert (init + [last])[..|init|] == init;
  }

  /** The link is in the check of one of the tables. */
  ghost predicate FoundIn(H: string -> string, rows: TableName -> seq<Row>, tenant: Tenant, tables: seq<TableName>, link: BrokenLink) {
    exists t | t in tables && Checked(t, tenant) :: link in CheckTable(H, rows(t), tenant)
  }

  lemma FoundAppend(H: string -> string, rows: TableName -> seq<Row>, tenant: Tenant,
      init: seq<TableName>, last: TableName, link: BrokenLink)
    ensures FoundIn(H, rows, tenant, init + [last], link)
       <==> FoundIn(H, rows, tenant, init, link) || (Checked(last, tenant) && link in CheckTable(H, rows(last), tenant))
  {
    var tables := init + [last];
    assert forall t :: t in tables <==> t in init || t == last;
  }

  lemma InSum(link: BrokenLink, a: seq<BrokenLink>, b: seq<BrokenLink>)
    ensures link in a + b <==> link in a || link in b
  {
  }

  lemma {:induction false} VerifiedFrom(H: string -> string, rows: TableName -> seq<Row>, tenant: Tenant, tables: seq<TableName>,
      link: BrokenLink)
    ensures link in Verified(H, rows, tenant, tables) <==> FoundIn(H, rows, tenant, tables, link)
  {
    if tables != [] {
      var init, last := tables[..|tables| - 1], tables[|tables| - 1];
      assert tables == init + [last];
      VerifiedFrom(H, rows, tenant, init, link);
      FoundAppend(H, rows, tenant, init, last, link);
      VerifiedAppend(H, rows, tenant, init, last);
      InSum(link, Verified(H, rows, tenant, init), if Checked(last, tenant) then CheckTable(H, rows(last), tenant) else []);
    }
  }

  // ---------------------------------------------------------------- when a report is empty

  ghost predicate CleanFor(H: string -> string, rows: seq<Row>, x: Tenant) {
    Report(H, Ordered(OfTenant(rows, x))) == []
  }

  /** Nothing to report of a tenant in a table; given NULL, of any tenant. */
  ghost predicate Clean(H: string -> string, rows: seq<Row>, tenant: Tenant) {
    if tenant.Some? then CleanFor(H, rows, tenant) else forall x: Tenant :: CleanFor(H, rows, x)
  }

  lemma CheckCleanIff(H: string -> string, rows: seq<Row>, tenant: Tenant)
    ensures CheckTable(H, rows, tenant) == [] <==> Clean(H, rows, tenant)
  {
    if tenant.None? {
      SweepMatchesTenants(H, rows);
    }
  }

  predicate Checked(t: TableName, tenant: Tenant) {
    t.SecurityEvents? || tenant.Some?
  }

  lemma VerifiedLast(H: string -> string, rows: TableName -> seq<Row>, tenant: Tenant, init: seq<TableName>, last: TableName)
    ensures Verified(H, rows, tenant, init + [last]) == []
       <==> Verified(H, rows, tenant, init) == [] && (Checked(last, tenant) ==> Clean(H, rows(last), tenant))
  {
    assert (init + [last])[..|init|] == init;
    CheckCleanIff(H, rows(last), tenant);
  }

  ghost predicate AllClean(H: string -> string, rows: TableName -> seq<Row>, tenant: Tenant, tables: seq<TableName>) {
    forall t | t in tables && Checked(t, tenant) :: Clean(H, rows(t), tenant)
  }

  lemma AllCleanAppend(H: string -> string, rows: TableName -> seq<Row>, tenant: Tenant, init: seq<TableName>, last: TableName)
    ensures AllClean(H, rows, tenant, init + [last])
       <==> AllClean(H, rows, tenant, init) && (Checked(last, tenant) ==> Clean(H, rows(last), tenant))
  {
    var tables := init + [last];
    assert forall t :: t in tables <==> t in init || t == last;
  }

  /** The whole verification is silent exactly when every table it checks is clean. */
  lemma {:induction false} VerifiedCleanIff(H: string -> string, rows: TableName -> seq<Row>, tenant: Tenant, tables: seq<TableName>)
    ensures Verified(H, rows, tenant, tables) == [] <==> AllClean(H, rows, tenant, tables)
  {
    if tables != [] {
      var init, last := tables[..|tables| - 1], tables[|tables| - 1];
      assert tables == init + [last];
      VerifiedCleanIff(H, rows, tenant, init);
      VerifiedLast(H, rows, tenant, init, last);
      AllCleanAppend(H, rows, tenant, init, last);
    }
  }

  // ---------------------------------------------------------------- transactions

  /** Where a transaction is inside the trigger. */
  datatype Phase =
    | Idle
    | Locked(fields: Fields)
    | Fetched(fields: Fields, prev: Option<string>)
    | Drawn(fields: Fields, prev: Option<string>, number: nat)

  /** `ended`: committed or aborted, with its advisory locks not yet released. */
  datatype Txn = Txn(rows: seq<Row>, phase: Phase, ended: bool)

  datatype Table = Table(committed: seq<Row>, txns: map<nat, Txn>, locks: map<int, nat>, next: nat)

  datatype Action =
    | Begin(txn: nat)
    | Lock(txn: nat, fields: Fields)
    | Fetch(txn: nat)
    | Draw(txn: nat)
    | Write(txn: nat)
    | Commit(txn: nat)
    | Abort(txn: nat)
    | Release(txn: nat)

  /** SELECT hash ... WHERE tenant_id IS NOT DISTINCT FROM ... ORDER BY chain_seq DESC LIMIT 1. */
  function Predecessor(visible: seq<Row>, x: Tenant): (h: Option<string>) {
    var rows := Ordered(OfTenant(visible, x));
    if rows == [] then None else rows[|rows| - 1].hash
  }

  function Chained(H: string -> string, p: Phase): (r: Row)
    requires p.Drawn?
  {
    Row(p.fields, p.prev, Some(H(Preimage(p.prev, p.fields))), Some(p.number))
  }

  /** `key` is hashtext of the tenant: two tenants may share a lock, one tenant never has two. */
  predicate Enabled(key: Tenant -> int, s: Table, a: Action) {
    if a.Begin? then a.txn !in s.txns
    else
      a.txn in s.txns &&
      var t := s.txns[a.txn];
      match a
      case Lock(_, f) => !t.ended && t.phase.Idle? && (key(f.tenant) in s.locks ==> s.locks[key(f.tenant)] == a.txn)
      case Fetch(_) => !t.ended && t.phase.Locked?
      case Draw(_) => !t.ended && t.phase.Fetched?
      case Write(_) => !t.ended && t.phase.Drawn?
      case Commit(_) => !t.ended && t.phase.Idle?
      case Abort(_) => !t.ended
      case Release(_) => t.ended
  }

  /**
   READ COMMITTED: a fetch sees what has committed by then, and the transaction's own rows. Numbers
   come from a sequence, so an abort leaves a gap. Rows become visible before locks are released.
   */
  function Next(H: string -> string, key: Tenant -> int, s: Table, a: Action): (r: Table)
    requires Enabled(key, s, a)
  {
    match a
    case Begin(t) => s.(txns := s.txns[t := Txn([], Idle, false)])
    case Lock(t, f) =>
      s.(txns := s.txns[t := s.txns[t].(phase := Locked(f))], locks := s.locks[key(f.tenant) := t])
    case Fetch(t) =>
      var f := s.txns[t].phase.fields;
      s.(txns := s.txns[t := s.txns[t].(phase := Fetched(f, Predecessor(s.committed + s.txns[t].rows, f.tenant)))])
    case Draw(t) =>
      var p := s.txns[t].phase;
      s.(txns := s.txns[t := s.txns[t].(phase := Drawn(p.fields, p.prev, s.next))], next := s.next + 1)
    case Write(t) =>
      s.(txns := s.txns[t := s.txns[t].(rows := s.txns[t].rows + [Chained(H, s.txns[t].phase)], phase := Idle)])
    case Commit(t) =>
      s.(committed := s.committed + s.txns[t].rows, txns := s.txns[t := Txn([], Idle, true)])
    case Abort(t) => s.(txns := s.txns[t := Txn([], Idle, true)])
    case Release(t) =>
      s.(txns := s.txns - {t}, locks := map k | k in s.locks && s.locks[k] != t :: s.locks[k])
  }

  /** The table after an interleaving, if every action was enabled when its turn came. */
  function After(H: string -> string, key: Tenant -> int, s: Table, run: seq<Action>): (r: Option<Table>) {
    if run == [] then Some(s)
    else
      var before := After(H, key, s, run[..|run| - 1]);
      var a := run[|run| - 1];
      if before.Some? && Enabled(key, before.value, a) then Some(Next(H, key, before.value, a)) else None
  }

  /** Rows from before the migration: never hashed, never numbered. */
  predicate LegacyRows(rows: seq<Row>) {
    forall i | 0 <= i < |rows| :: rows[i].prevHash.None? && rows[i].hash.None? && rows[i].chainSeq.None?
  }

  function Initial(legacy: seq<Row>): (s: Table) {
    Table(legacy, map[], map[], 1)
  }

  // ---------------------------------------------------------------- one tenant's chain

  /** What the lookup finds behind a chain: its last hash, or nothing if legacy rows hide it. */
  ghost function Tip(rows: seq<Row>, hidden: bool): (h: Option<string>) {
    if hidden || rows == [] then None else rows[|rows| - 1].hash
  }

  /** The number is above every number of the chain, all of which increase. */
  ghost predicate Above(rows: seq<Row>, number: nat) {
    rows != [] ==> rows[|rows| - 1].chainSeq.Some? && rows[|rows| - 1].chainSeq.value < number
  }

  /**
   Rows of one tenant that form a chain: each is numbered above the one before, names the tip of the
   rows before it as its predecessor, and carries the hash of that and of its own fields.
   */
  ghost predicate Chain(H: string -> string, rows: seq<Row>, hidden: bool, bound: nat)
    decreases |rows|
  {
    rows == [] ||
    var init, last := rows[..|rows| - 1], rows[|rows| - 1];
    && Chain(H, init, hidden, bound)
    && last.chainSeq.Some? && last.chainSeq.value < bound && Above(init, last.chainSeq.value)
    && last.prevHash == Tip(init, hidden)
    && last.hash == Some(H(Preimage(last.prevHash, last.fields)))
  }

  /** The same, row by row. */
  lemma {:induction false} ChainAt(H: string -> string, rows: seq<Row>, hidden: bool, bound: nat, i: nat)
    requires Chain(H, rows, hidden, bound) && i < |rows|
    ensures rows[i].chainSeq.Some? && rows[i].chainSeq.value < bound
    ensures rows[i].hash == Some(H(Preimage(rows[i].prevHash, rows[i].fields)))
    ensures rows[i].prevHash == if hidden || i == 0 then None else rows[i - 1].hash
    ensures i > 0 ==> rows[i - 1].chainSeq.Some? && rows[i - 1].chainSeq.value < rows[i].chainSeq.value
    decreases |rows|
  {
    if i < |rows| - 1 {
      ChainAt(H, rows[..|rows| - 1], hidden, bound, i);
    }
  }

  lemma PrefixSplit<T>(a: seq<T>, b: seq<T>, c: seq<T>)
    requires a <= b
    ensures b == a + b[|a|..] && b + c == a + (b[|a|..] + c)
  {
  }

  lemma AppendAssociates<T>(a: seq<T>, b: seq<T>, c: seq<T>)
    ensures a + (b + c) == a + b + c
  {
  }

  lemma {:induction false} OfTenantAppend(a: seq<Row>, b: seq<Row>, x: Tenant)
    ensures OfTenant(a + b, x) == OfTenant(a, x) + OfTenant(b, x)
  {
    if b == [] {
      assert a + b == a;
    } else {
      OfTenantAppend(a, b[..|b| - 1], x);
      assert (a + b)[..|a + b| - 1] == a + b[..|b| - 1];
    }
  }

  lemma {:induction false} OfTenantMembers(rows: seq<Row>, x: Tenant)
    ensures forall i | 0 <= i < |OfTenant(rows, x)| :: OfTenant(rows, x)[i].fields.tenant == x && OfTenant(rows, x)[i] in rows
  {
    if rows != [] {
      OfTenantMembers(rows[..|rows| - 1], x);
    }
  }

  lemma {:induction false} NoneOfTenant(rows: seq<Row>, x: Tenant)
    requires forall i | 0 <= i < |rows| :: rows[i].fields.tenant != x
    ensures OfTenant(rows, x) == []
  {
    if rows != [] {
      NoneOfTenant(rows[..|rows| - 1], x);
    }
  }

  // ---------------------------------------------------------------- order: chain first, legacy last

  lemma {:induction false} OrderedLegacy(rows: seq<Row>)
    requires LegacyRows(rows)
    ensures Ordered(rows) == rows
  {
    if rows != [] {
      OrderedLegacy(rows[..|rows| - 1]);
    }
  }

  lemma {:induction false} InsertBeforeLegacy(chain: seq<Row>, legacy: seq<Row>, x: Row)
    requires LegacyRows(legacy) && x.chainSeq.Some?
    requires chain != [] ==> !Precedes(x, chain[|chain| - 1])
    ensures Insert(chain + legacy, x) == chain + [x] + legacy
  {
    if legacy == [] {
      assert chain + legacy == chain;
    } else {
      var n := |legacy| - 1;
      InsertBeforeLegacy(chain, legacy[..n], x);
      assert (chain + legacy)[..|chain + legacy| - 1] == chain + legacy[..n];
      assert (chain + legacy)[|chain + legacy| - 1] == legacy[n];
      assert chain + [x] + legacy[..n] + [legacy[n]] == chain + [x] + legacy;
    }
  }

  lemma {:induction false} OrderedChain(H: string -> string, legacy: seq<Row>, chain: seq<Row>, hidden: bool, bound: nat)
    requires LegacyRows(legacy) && Chain(H, chain, hidden, bound)
    ensures Ordered(legacy + chain) == chain + legacy
  {
    if chain == [] {
      OrderedLegacy(legacy);
      assert legacy + chain == legacy && chain + legacy == legacy;
    } else {
      var n := |chain| - 1;
      OrderedChain(H, legacy, chain[..n], hidden, bound);
      assert (legacy + chain)[..|legacy + chain| - 1] == legacy + chain[..n];
      assert (legacy + chain)[|legacy + chain| - 1] == chain[n];
      InsertBeforeLegacy(chain[..n], legacy, chain[n]);
      assert chain[..n] + [chain[n]] == chain;
    }
  }

  // ---------------------------------------------------------------- the invariant of every interleaving

  ghost predicate Holds(key: Tenant -> int, s: Table, t: nat, x: Tenant) {
    key(x) in s.locks && s.locks[key(x)] == t
  }

  /** A transaction holds the lock of every tenant it is inserting for or has inserted for. */
  ghost predicate Locking(key: Tenant -> int, s: Table, t: nat)
    requires t in s.txns
  {
    var txn := s.txns[t];
    && (forall i | 0 <= i < |txn.rows| :: Holds(key, s, t, txn.rows[i].fields.tenant))
    && (!txn.phase.Idle? ==> Holds(key, s, t, txn.phase.fields.tenant))
    && (txn.ended ==> txn.rows == [] && txn.phase.Idle?)
  }

  /** What has committed since the chain began. */
  ghost function Recent(legacy: seq<Row>, s: Table): (r: seq<Row>)
    requires |legacy| <= |s.committed|
  {
    s.committed[|legacy|..]
  }

  ghost predicate Hidden(legacy: seq<Row>, x: Tenant) {
    OfTenant(legacy, x) != []
  }

  /** What a transaction would leave behind of tenant `x` if it committed now. */
  ghost predicate Extending(H: string -> string, legacy: seq<Row>, s: Table, t: nat, x: Tenant)
    requires t in s.txns && |legacy| <= |s.committed|
  {
    Chain(H, OfTenant(Recent(legacy, s) + s.txns[t].rows, x), Hidden(legacy, x), s.next)
  }

  /** The predecessor it remembers is still the right one, and its number still the largest. */
  ghost predicate Remembering(H: string -> string, legacy: seq<Row>, s: Table, t: nat)
    requires t in s.txns && |legacy| <= |s.committed|
  {
    var p := s.txns[t].phase;
    (p.Fetched? || p.Drawn?) ==>
      var x := p.fields.tenant;
      var rows := OfTenant(Recent(legacy, s) + s.txns[t].rows, x);
      && p.prev == Tip(rows, Hidden(legacy, x))
      && (p.Drawn? ==> p.number < s.next && Above(rows, p.number))
  }

  ghost predicate Inv(H: string -> string, key: Tenant -> int, legacy: seq<Row>, s: Table) {
    && legacy <= s.committed
    && (forall k | k in s.locks :: s.locks[k] in s.txns)
    && (forall x: Tenant :: Chain(H, OfTenant(Recent(legacy, s), x), Hidden(legacy, x), s.next))
    && (forall t | t in s.txns :: Locking(key, s, t) && Remembering(H, legacy, s, t))
    && (forall t, x: Tenant | t in s.txns :: Extending(H, legacy, s, t, x))
  }

  /** The lookup over legacy rows followed by a chain finds the chain's tip, unless legacy rows hide it. */
  lemma LookupFindsTip(H: string -> string, legacy: seq<Row>, recent: seq<Row>, x: Tenant, bound: nat)
    requires LegacyRows(legacy) && Chain(H, OfTenant(recent, x), Hidden(legacy, x), bound)
    ensures Predecessor(legacy + recent, x) == Tip(OfTenant(recent, x), Hidden(legacy, x))
  {
    OfTenantAppend(legacy, recent, x);
    OfTenantMembers(legacy, x);
    OrderedChain(H, OfTenant(legacy, x), OfTenant(recent, x), Hidden(legacy, x), bound);
  }

  lemma ChainGrows(H: string -> string, rows: seq<Row>, hidden: bool, bound: nat, row: Row)
    requires Chain(H, rows, hidden, bound)
    requires row.chainSeq.Some? && row.chainSeq.value < bound && Above(rows, row.chainSeq.value)
    requires row.prevHash == Tip(rows, hidden) && row.hash == Some(H(Preimage(row.prevHash, row.fields)))
    ensures Chain(H, rows + [row], hidden, bound)
  {
    assert (rows + [row])[..|rows|] == rows;
  }

  /** Two transactions with rows of one tenant are one transaction. */
  lemma OneWriter(key: Tenant -> int, s: Table, t: nat, u: nat, x: Tenant)
    requires t in s.txns && u in s.txns && t != u && Locking(key, s, t) && Locking(key, s, u)
    requires Holds(key, s, t, x)
    ensures OfTenant(s.txns[u].rows, x) == []
  {
    var rows := s.txns[u].rows;
    forall i | 0 <= i < |rows| ensures rows[i].fields.tenant != x {
      assert Holds(key, s, u, rows[i].fields.tenant);
    }
    NoneOfTenant(rows, x);
  }

  lemma {:induction false} ChainBound(H: string -> string, rows: seq<Row>, hidden: bool, bound: nat, bound': nat)
    requires Chain(H, rows, hidden, bound) && bound <= bound'
    ensures Chain(H, rows, hidden, bound')
    ensures Above(rows, bound)
    decreases |rows|
  {
    if rows != [] {
      ChainBound(H, rows[..|rows| - 1], hidden, bound, bound');
    }
  }

  // ---------------------------------------------------------------- every action preserves it

  lemma InvBegin(H: string -> string, key: Tenant -> int, legacy: seq<Row>, s: Table, t: nat)
    requires Inv(H, key, legacy, s) && Enabled(key, s, Begin(t))
    ensures Inv(H, key, legacy, Next(H, key, s, Begin(t)))
  {
    var s' := Next(H, key, s, Begin(t));
    forall u, x: Tenant | u in s'.txns ensures Extending(H, legacy, s', u, x) {
      if u == t {
        assert Recent(legacy, s') + s'.txns[t].rows == Recent(legacy, s);
      } else {
        assert Extending(H, legacy, s, u, x);
      }
    }
    forall u | u in s'.txns ensures Locking(key, s', u) && Remembering(H, legacy, s', u) {
      if u != t {
        assert Locking(key, s, u) && Remembering(H, legacy, s, u);
      }
    }
  }

  lemma InvLock(H: string -> string, key: Tenant -> int, legacy: seq<Row>, s: Table, t: nat, f: Fields)
    requires Inv(H, key, legacy, s) && Enabled(key, s, Lock(t, f))
    ensures Inv(H, key, legacy, Next(H, key, s, Lock(t, f)))
  {
    var s' := Next(H, key, s, Lock(t, f));
    forall u, x: Tenant | u in s'.txns ensures Extending(H, legacy, s', u, x) {
      assert Extending(H, legacy, s, u, x);
    }
    forall u | u in s'.txns ensures Locking(key, s', u) && Remembering(H, legacy, s', u) {
      assert Locking(key, s, u) && Remembering(H, legacy, s, u);
    }
  }

  lemma FetchFindsTip(H: string -> string, legacy: seq<Row>, committed: seq<Row>, own: seq<Row>, x: Tenant, bound: nat)
    requires LegacyRows(legacy) && legacy <= committed
    requires Chain(H, OfTenant(committed[|legacy|..] + own, x), Hidden(legacy, x), bound)
    ensures Predecessor(committed + own, x) == Tip(OfTenant(committed[|legacy|..] + own, x), Hidden(legacy, x))
  {
    var recent := committed[|legacy|..] + own;
    PrefixSplit(legacy, committed, own);
    LookupFindsTip(H, legacy, recent, x, bound);
  }

  /** What the fetching transaction remembers is the tip; what the others remember has not changed. */
  lemma FetchKeepsRemembering(H: string -> string, key: Tenant -> int, legacy: seq<Row>, s: Table, t: nat, u: nat)
    requires LegacyRows(legacy) && legacy <= s.committed && Enabled(key, s, Fetch(t)) && u in s.txns
    requires Remembering(H, legacy, s, u) && Extending(H, legacy, s, t, s.txns[t].phase.fields.tenant)
    ensures Remembering(H, legacy, Next(H, key, s, Fetch(t)), u)
  {
    var s' := Next(H, key, s, Fetch(t));
    if u == t {
      FetchFindsTip(H, legacy, s.committed, s.txns[t].rows, s.txns[t].phase.fields.tenant, s.next);
    } else {
      assert s'.txns[u] == s.txns[u];
    }
  }

  lemma InvFetch(H: string -> string, key: Tenant -> int, legacy: seq<Row>, s: Table, t: nat)
    requires LegacyRows(legacy) && Inv(H, key, legacy, s) && Enabled(key, s, Fetch(t))
    ensures Inv(H, key, legacy, Next(H, key, s, Fetch(t)))
  {
    var s' := Next(H, key, s, Fetch(t));
    forall u, y: Tenant | u in s'.txns ensures Extending(H, legacy, s', u, y) {
      assert Extending(H, legacy, s, u, y);
    }
    forall u | u in s'.txns ensures Locking(key, s', u) && Remembering(H, legacy, s', u) {
      assert Locking(key, s, u) && Extending(H, legacy, s, t, s.txns[t].phase.fields.tenant);
      FetchKeepsRemembering(H, key, legacy, s, t, u);
    }
  }

  lemma InvDraw(H: string -> string, key: Tenant -> int, legacy: seq<Row>, s: Table, t: nat)
    requires Inv(H, key, legacy, s) && Enabled(key, s, Draw(t))
    ensures Inv(H, key, legacy, Next(H, key, s, Draw(t)))
  {
    var s' := Next(H, key, s, Draw(t));
    forall x: Tenant ensures Chain(H, OfTenant(Recent(legacy, s'), x), Hidden(legacy, x), s'.next) {
      ChainBound(H, OfTenant(Recent(legacy, s), x), Hidden(legacy, x), s.next, s'.next);
    }
    forall u, x: Tenant | u in s'.txns ensures Extending(H, legacy, s', u, x) {
      assert Extending(H, legacy, s, u, x);
      ChainBound(H, OfTenant(Recent(legacy, s) + s.txns[u].rows, x), Hidden(legacy, x), s.next, s'.next);
    }
    forall u | u in s'.txns ensures Locking(key, s', u) && Remembering(H, legacy, s', u) {
      assert Locking(key, s, u) && Remembering(H, legacy, s, u);
      if u == t {
        var x := s.txns[t].phase.fields.tenant;
        assert Extending(H, legacy, s, t, x);
        ChainBound(H, OfTenant(Recent(legacy, s) + s.txns[t].rows, x), Hidden(legacy, x), s.next, s'.next);
      }
    }
  }

  /** The written row joins its own tenant's chain and no other. */
  lemma WriteExtends(H: string -> string, pending: seq<Row>, hidden: bool, bound: nat, row: Row, x: Tenant)
    requires Chain(H, OfTenant(pending, x), hidden, bound)
    requires row.fields.tenant == x ==>
               && row.chainSeq.Some? && row.chainSeq.value < bound && Above(OfTenant(pending, x), row.chainSeq.value)
               && row.prevHash == Tip(OfTenant(pending, x), hidden)
               && row.hash == Some(H(Preimage(row.prevHash, row.fields)))
    ensures Chain(H, OfTenant(pending + [row], x), hidden, bound)
  {
    assert (pending + [row])[..|pending|] == pending;
    if row.fields.tenant == x {
      ChainGrows(H, OfTenant(pending, x), hidden, bound, row);
    } else {
      assert OfTenant(pending + [row], x) == OfTenant(pending, x);
    }
  }

  lemma WriteKeepsExtending(H: string -> string, legacy: seq<Row>, s: Table, s': Table, t: nat, x: Tenant)
    requires |legacy| <= |s.committed| && t in s.txns && s.txns[t].phase.Drawn?
    requires s' == s.(txns := s.txns[t := s.txns[t].(rows := s.txns[t].rows + [Chained(H, s.txns[t].phase)], phase := Idle)])
    requires Remembering(H, legacy, s, t) && Extending(H, legacy, s, t, x)
    ensures Extending(H, legacy, s', t, x)
  {
    var row := Chained(H, s.txns[t].phase);
    AppendAssociates(Recent(legacy, s), s.txns[t].rows, [row]);
    WriteExtends(H, Recent(legacy, s) + s.txns[t].rows, Hidden(legacy, x), s.next, row, x);
  }

  lemma WriteKeepsLocking(H: string -> string, key: Tenant -> int, s: Table, t: nat, u: nat)
    requires Enabled(key, s, Write(t)) && u in s.txns && Locking(key, s, t) && Locking(key, s, u)
    ensures Locking(key, Next(H, key, s, Write(t)), u)
  {
    var s' := Next(H, key, s, Write(t));
    if u == t {
      var row := Chained(H, s.txns[t].phase);
      assert s'.txns[t].rows == s.txns[t].rows + [row] && Holds(key, s, t, row.fields.tenant);
    }
  }

  lemma WriteKeepsRemembering(H: string -> string, key: Tenant -> int, legacy: seq<Row>, s: Table, t: nat, u: nat)
    requires Enabled(key, s, Write(t)) && u in s.txns && |legacy| <= |s.committed| && Remembering(H, legacy, s, u)
    ensures Remembering(H, legacy, Next(H, key, s, Write(t)), u)
  {
    var s' := Next(H, key, s, Write(t));
    assert u != t ==> s'.txns[u] == s.txns[u];
  }

  lemma InvWrite(H: string -> string, key: Tenant -> int, legacy: seq<Row>, s: Table, t: nat)
    requires Inv(H, key, legacy, s) && Enabled(key, s, Write(t))
    ensures Inv(H, key, legacy, Next(H, key, s, Write(t)))
  {
    var s' := Next(H, key, s, Write(t));
    forall u | u in s'.txns ensures Locking(key, s', u) && Remembering(H, legacy, s', u) {
      WriteKeepsLocking(H, key, s, t, u);
      WriteKeepsRemembering(H, key, legacy, s, t, u);
    }
    forall u, x: Tenant | u in s'.txns ensures Extending(H, legacy, s', u, x) {
      assert Extending(H, legacy, s, u, x);
      if u == t {
        assert Remembering(H, legacy, s, t);
        WriteKeepsExtending(H, legacy, s, s', t, x);
      } else {
        assert s'.txns[u] == s.txns[u];
      }
    }
  }

  lemma OfTenantThree(a: seq<Row>, b: seq<Row>, c: seq<Row>, x: Tenant)
    ensures OfTenant(a + b + c, x) == OfTenant(a, x) + OfTenant(b, x) + OfTenant(c, x)
    ensures OfTenant(c, x) == [] ==> OfTenant(a + b + c, x) == OfTenant(a + b, x)
    ensures OfTenant(b, x) == [] ==> OfTenant(a + b + c, x) == OfTenant(a + c, x)
  {
    OfTenantAppend(a + b, c, x);
    OfTenantAppend(a, b, x);
    OfTenantAppend(a, c, x);
  }

  /** What another transaction sees of a tenant when `t` commits: `t`'s rows or its own, never both. */
  lemma CommitSplits(key: Tenant -> int, recent: seq<Row>, s: Table, t: nat, u: nat, x: Tenant)
    requires t in s.txns && u in s.txns && t != u && Locking(key, s, t) && Locking(key, s, u)
    ensures var after := OfTenant(recent + s.txns[t].rows + s.txns[u].rows, x);
            && (Holds(key, s, u, x) ==> after == OfTenant(recent + s.txns[u].rows, x))
            && (after == OfTenant(recent + s.txns[u].rows, x) || after == OfTenant(recent + s.txns[t].rows, x))
  {
    var mine, theirs := s.txns[t].rows, s.txns[u].rows;
    OfTenantThree(recent, mine, theirs, x);
    if Holds(key, s, t, x) {
      OneWriter(key, s, t, u, x);
    } else {
      NoneOfTenant(mine, x);
    }
  }

  lemma InvCommit(H: string -> string, key: Tenant -> int, legacy: seq<Row>, s: Table, t: nat)
    requires Inv(H, key, legacy, s) && Enabled(key, s, Commit(t))
    ensures Inv(H, key, legacy, Next(H, key, s, Commit(t)))
  {
    var s' := Next(H, key, s, Commit(t));
    assert Recent(legacy, s') == Recent(legacy, s) + s.txns[t].rows;
    forall x: Tenant ensures Chain(H, OfTenant(Recent(legacy, s'), x), Hidden(legacy, x), s'.next) {
      assert Extending(H, legacy, s, t, x);
    }
    forall u, x: Tenant | u in s'.txns ensures Extending(H, legacy, s', u, x) {
      assert Extending(H, legacy, s, t, x);
      if u == t {
        assert Recent(legacy, s') + s'.txns[t].rows == Recent(legacy, s');
      } else {
        assert Extending(H, legacy, s, u, x);
        assert Locking(key, s, u) && Locking(key, s, t);
        CommitSplits(key, Recent(legacy, s), s, t, u, x);
      }
    }
    forall u | u in s'.txns ensures Locking(key, s', u) && Remembering(H, legacy, s', u) {
      assert Locking(key, s, u) && Remembering(H, legacy, s, u);
      assert Locking(key, s, t);
      if u != t && !s.txns[u].phase.Idle? {
        CommitSplits(key, Recent(legacy, s), s, t, u, s.txns[u].phase.fields.tenant);
      }
    }
  }

  lemma InvAbort(H: string -> string, key: Tenant -> int, legacy: seq<Row>, s: Table, t: nat)
    requires Inv(H, key, legacy, s) && Enabled(key, s, Abort(t))
    ensures Inv(H, key, legacy, Next(H, key, s, Abort(t)))
  {
    var s' := Next(H, key, s, Abort(t));
    forall u, x: Tenant | u in s'.txns ensures Extending(H, legacy, s', u, x) {
      if u == t {
        assert Recent(legacy, s') + s'.txns[t].rows == Recent(legacy, s);
      } else {
        assert Extending(H, legacy, s, u, x);
      }
    }
    forall u | u in s'.txns ensures Locking(key, s', u) && Remembering(H, legacy, s', u) {
      assert Locking(key, s, u) && Remembering(H, legacy, s, u);
    }
  }

  lemma InvRelease(H: string -> string, key: Tenant -> int, legacy: seq<Row>, s: Table, t: nat)
    requires Inv(H, key, legacy, s) && Enabled(key, s, Release(t))
    ensures Inv(H, key, legacy, Next(H, key, s, Release(t)))
  {
    var s' := Next(H, key, s, Release(t));
    forall u, x: Tenant | u in s'.txns ensures Extending(H, legacy, s', u, x) {
      assert Extending(H, legacy, s, u, x);
    }
    forall u | u in s'.txns ensures Locking(key, s', u) && Remembering(H, legacy, s', u) {
      assert Locking(key, s, u) && Remembering(H, legacy, s, u);
    }
  }

  lemma InvNext(H: string -> string, key: Tenant -> int, legacy: seq<Row>, s: Table, a: Action)
    requires LegacyRows(legacy) && Inv(H, key, legacy, s) && Enabled(key, s, a)
    ensures Inv(H, key, legacy, Next(H, key, s, a))
  {
    match a {
      case Begin(t) => InvBegin(H, key, legacy, s, t);
      case Lock(t, f) => InvLock(H, key, legacy, s, t, f);
      case Fetch(t) => InvFetch(H, key, legacy, s, t);
      case Draw(t) => InvDraw(H, key, legacy, s, t);
      case Write(t) => InvWrite(H, key, legacy, s, t);
      case Commit(t) => InvCommit(H, key, legacy, s, t);
      case Abort(t) => InvAbort(H, key, legacy, s, t);
      case Release(t) => InvRelease(H, key, legacy, s, t);
    }
  }

  lemma {:induction false} InvAfter(H: string -> string, key: Tenant -> int, legacy: seq<Row>, run: seq<Action>)
    requires LegacyRows(legacy) && After(H, key, Initial(legacy), run).Some?
    ensures Inv(H, key, legacy, After(H, key, Initial(legacy), run).value)
  {
    if run == [] {
      assert Recent(legacy, Initial(legacy)) == [];
    } else {
      InvAfter(H, key, legacy, run[..|run| - 1]);
      InvNext(H, key, legacy, After(H, key, Initial(legacy), run[..|run| - 1]).value, run[|run| - 1]);
    }
  }

  // ---------------------------------------------------------------- what the verifier finds

  /** Over rows of one tenant, LAG is the row before. */
  lemma LagOfTenant(rows: seq<Row>, x: Tenant)
    requires forall i | 0 <= i < |rows| :: rows[i].fields.tenant == x
    ensures LastHash(rows, x) == if rows == [] then None else rows[|rows| - 1].hash
  {
  }

  /** The last row of a chain is reported exactly when a row stands before it that its lookup could not see. */
  lemma ChainLastReported(H: string -> string, init: seq<Row>, row: Row, x: Tenant, hidden: bool, bound: nat)
    requires Chain(H, init + [row], hidden, bound) && forall i | 0 <= i < |init| :: init[i].fields.tenant == x
    ensures Reported(H, LastHash(init, x), row) <==> hidden && init != []
  {
    var rows, n := init + [row], |init|;
    ChainAt(H, rows, hidden, bound, n);
    LagOfTenant(init, x);
    if n > 0 {
      ChainAt(H, rows, hidden, bound, n - 1);
      assert rows[n - 1] == init[n - 1];
    }
  }

  lemma {:induction false} ChainClean(H: string -> string, rows: seq<Row>, x: Tenant, hidden: bool, bound: nat)
    requires Chain(H, rows, hidden, bound) && forall i | 0 <= i < |rows| :: rows[i].fields.tenant == x
    ensures Report(H, rows) == [] <==> !hidden || |rows| <= 1
  {
    if rows != [] {
      var init, row := rows[..|rows| - 1], rows[|rows| - 1];
      assert rows == init + [row];
      ChainClean(H, init, x, hidden, bound);
      ChainLastReported(H, init, row, x, hidden, bound);
      ReportAppend(H, init, row);
    }
  }

  lemma {:induction false} ReportPrefix(H: string -> string, a: seq<Row>, b: seq<Row>)
    ensures Report(H, a + b) == [] ==> Report(H, a) == []
  {
    if b == [] {
      assert a + b == a;
    } else {
      assert (a + b)[..|a + b| - 1] == a + b[..|b| - 1];
      ReportPrefix(H, a, b[..|b| - 1]);
    }
  }

  lemma {:induction false} LegacyClean(H: string -> string, rows: seq<Row>, x: Tenant)
    requires LegacyRows(rows) && forall i | 0 <= i < |rows| :: rows[i].fields.tenant == x
    ensures Report(H, rows) == []
  {
    if rows != [] {
      LegacyClean(H, rows[..|rows| - 1], x);
      LagOfTenant(rows[..|rows| - 1], x);
    }
  }

  /** A chain followed, in verification order, by its tenant's legacy rows: clean iff one part is empty. */
  lemma ChainThenLegacy(H: string -> string, chain: seq<Row>, legacy: seq<Row>, x: Tenant, bound: nat)
    requires LegacyRows(legacy) && Chain(H, chain, legacy != [], bound)
    requires forall i | 0 <= i < |chain| :: chain[i].fields.tenant == x
    requires forall i | 0 <= i < |legacy| :: legacy[i].fields.tenant == x
    ensures Report(H, chain + legacy) == [] <==> legacy == [] || chain == []
  {
    if legacy == [] {
      assert chain + legacy == chain;
      ChainClean(H, chain, x, false, bound);
    } else if chain == [] {
      assert chain + legacy == legacy;
      LegacyClean(H, legacy, x);
    } else {
      var first := chain + [legacy[0]];
      assert first[..|chain|] == chain;
      LagOfTenant(chain, x);
      assert chain[|chain| - 1].hash.Some?;
      assert Report(H, first) != [];
      assert chain + legacy == first + legacy[1..];
      ReportPrefix(H, first, legacy[1..]);
    }
  }

  /**
   For every interleaving of begins, inserts, commits, aborts and lock releases, over any number of
   tenants (even tenants whose lock keys collide): a tenant with no legacy rows has its committed
   rows on one chain in chain_seq order, whatever gaps aborts left in the numbers.
   */
  lemma CommittedRowsFormOneChain(H: string -> string, key: Tenant -> int, legacy: seq<Row>, run: seq<Action>, x: Tenant)
    requires LegacyRows(legacy) && After(H, key, Initial(legacy), run).Some? && OfTenant(legacy, x) == []
    ensures var s := After(H, key, Initial(legacy), run).value;
            var rows := OfTenant(s.committed, x);
            Ordered(rows) == rows && Chain(H, rows, false, s.next)
  {
    InvAfter(H, key, legacy, run);
    var s := After(H, key, Initial(legacy), run).value;
    PrefixSplit(legacy, s.committed, []);
    NoneBefore(legacy, Recent(legacy, s), x);
    OrderedAlone(H, OfTenant(Recent(legacy, s), x), s.next);
  }

  lemma NoneBefore(a: seq<Row>, b: seq<Row>, x: Tenant)
    requires OfTenant(a, x) == []
    ensures OfTenant(a + b, x) == OfTenant(b, x)
  {
    OfTenantAppend(a, b, x);
    assert [] + OfTenant(b, x) == OfTenant(b, x);
  }

  lemma OrderedAlone(H: string -> string, rows: seq<Row>, bound: nat)
    requires Chain(H, rows, false, bound)
    ensures Ordered(rows) == rows
  {
    OrderedChain(H, [], rows, false, bound);
    assert [] + rows == rows && rows + [] == rows;
  }

  /**
   And the verifier's verdict, legacy rows or not: it reports nothing about a tenant exactly when the
   tenant has no rows from before the migration or none from after it. One of each is enough for a
   false alarm, because the lookup sorts NULL numbers first and the check sorts them last.
   */
  lemma VerdictExact(H: string -> string, key: Tenant -> int, legacy: seq<Row>, run: seq<Action>, x: Tenant)
    requires LegacyRows(legacy) && After(H, key, Initial(legacy), run).Some?
    ensures var s := After(H, key, Initial(legacy), run).value;
            Report(H, Ordered(OfTenant(s.committed, x))) == []
            <==> OfTenant(legacy, x) == [] || OfTenant(s.committed, x) == OfTenant(legacy, x)
  {
    InvAfter(H, key, legacy, run);
    var s := After(H, key, Initial(legacy), run).value;
    var recent := Recent(legacy, s);
    PrefixSplit(legacy, s.committed, []);
    OfTenantAppend(legacy, recent, x);
    OfTenantMembers(legacy, x);
    OfTenantMembers(recent, x);
    var old_, chain := OfTenant(legacy, x), OfTenant(recent, x);
    OrderedChain(H, old_, chain, Hidden(legacy, x), s.next);
    ChainThenLegacy(H, chain, old_, x, s.next);
    assert chain == [] <==> old_ + chain == old_;
  }

  // ---------------------------------------------------------------- all tenants at once

  ghost predicate InOrder(rows: seq<Row>) {
    forall i, j | 0 <= i < j < |rows| :: !Precedes(rows[j], rows[i])
  }

  lemma {:induction false} InsertInOrder(rows: seq<Row>, row: Row)
    requires InOrder(rows)
    ensures InOrder(Insert(rows, row))
    ensures forall k | 0 <= k < |Insert(rows, row)| :: Insert(rows, row)[k] == row || Insert(rows, row)[k] in rows
  {
    if rows != [] && Precedes(row, rows[|rows| - 1]) {
      InsertInOrder(rows[..|rows| - 1], row);
    }
  }

  lemma {:induction false} OrderedInOrder(rows: seq<Row>)
    ensures InOrder(Ordered(rows))
  {
    if rows != [] {
      OrderedInOrder(rows[..|rows| - 1]);
      InsertInOrder(Ordered(rows[..|rows| - 1]), rows[|rows| - 1]);
    }
  }

  lemma {:induction false} InsertAtEnd(rows: seq<Row>, row: Row)
    requires forall i | 0 <= i < |rows| :: !Precedes(row, rows[i])
    ensures Insert(rows, row) == rows + [row]
  {
  }

  lemma {:induction false} InsertOfTenant(rows: seq<Row>, row: Row, x: Tenant)
    requires InOrder(rows)
    ensures OfTenant(Insert(rows, row), x) == if row.fields.tenant == x then Insert(OfTenant(rows, x), row) else OfTenant(rows, x)
  {
    if rows == [] || !Precedes(row, rows[|rows| - 1]) {
      assert (rows + [row])[..|rows|] == rows;
      if row.fields.tenant == x {
        OfTenantMembers(rows, x);
        forall i | 0 <= i < |rows| ensures !Precedes(row, rows[i]) {
          assert i < |rows| - 1 ==> !Precedes(rows[|rows| - 1], rows[i]);
        }
        InsertAtEnd(OfTenant(rows, x), row);
      } else {
        assert OfTenant(rows + [row], x) == OfTenant(rows, x);
      }
    } else {
      var init, last := rows[..|rows| - 1], rows[|rows| - 1];
      InsertOfTenant(init, row, x);
      var r := Insert(init, row);
      assert (r + [last])[..|r|] == r;
      if last.fields.tenant == x {
        var mine := OfTenant(rows, x);
        assert mine == OfTenant(init, x) + [last];
        assert mine[..|mine| - 1] == OfTenant(init, x);
      } else {
        assert OfTenant(rows, x) == OfTenant(init, x);
        assert OfTenant(r + [last], x) == OfTenant(r, x);
      }
    }
  }

  /** Ordering a table and then selecting a tenant is selecting and then ordering. */
  lemma {:induction false} OrderedOfTenant(rows: seq<Row>, x: Tenant)
    ensures OfTenant(Ordered(rows), x) == Ordered(OfTenant(rows, x))
  {
    if rows != [] {
      var init, last := rows[..|rows| - 1], rows[|rows| - 1];
      OrderedOfTenant(init, x);
      OrderedInOrder(init);
      InsertOfTenant(Ordered(init), last, x);
      var mine := OfTenant(rows, x);
      if last.fields.tenant == x {
        assert mine == OfTenant(init, x) + [last];
        assert mine[..|mine| - 1] == OfTenant(init, x);
      } else {
        assert mine == OfTenant(init, x);
      }
    }
  }

  lemma {:induction false} LagWithinTenant(rows: seq<Row>, x: Tenant)
    ensures LastHash(rows, x) == LastHash(OfTenant(rows, x), x)
  {
    if rows != [] {
      LagWithinTenant(rows[..|rows| - 1], x);
      if rows[|rows| - 1].fields.tenant != x {
        assert OfTenant(rows, x) == OfTenant(rows[..|rows| - 1], x);
      }
    }
  }

  lemma ReportAppend(H: string -> string, rows: seq<Row>, row: Row)
    ensures Report(H, rows + [row]) == [] <==> Report(H, rows) == [] && !Reported(H, LastHash(rows, row.fields.tenant), row)
  {
    assert (rows + [row])[..|rows|] == rows;
  }

  lemma OfTenantLast(rows: seq<Row>, row: Row, x: Tenant)
    ensures OfTenant(rows + [row], x) == if row.fields.tenant == x then OfTenant(rows, x) + [row] else OfTenant(rows, x)
  {
    assert (rows + [row])[..|rows|] == rows;
  }

  ghost predicate EachTenantClean(H: string -> string, rows: seq<Row>) {
    forall x: Tenant :: Report(H, OfTenant(rows, x)) == []
  }

  lemma CleanStep(H: string -> string, rows: seq<Row>, row: Row)
    ensures EachTenantClean(H, rows + [row])
       <==> EachTenantClean(H, rows) && !Reported(H, LastHash(rows, row.fields.tenant), row)
  {
    var y := row.fields.tenant;
    LagWithinTenant(rows, y);
    ReportAppend(H, OfTenant(rows, y), row);
    OfTenantLast(rows, row, y);
    if EachTenantClean(H, rows + [row]) {
      forall x: Tenant ensures Report(H, OfTenant(rows, x)) == [] {
        OfTenantLast(rows, row, x);
        assert Report(H, OfTenant(rows + [row], x)) == [] && Report(H, OfTenant(rows + [row], y)) == [];
      }
      assert Report(H, OfTenant(rows + [row], y)) == [];
    } else if EachTenantClean(H, rows) && !Reported(H, LastHash(rows, y), row) {
      forall x: Tenant ensures Report(H, OfTenant(rows + [row], x)) == [] {
        OfTenantLast(rows, row, x);
      }
      assert false;
    }
  }

  /** Rows in one order are reported on iff some tenant's rows, in that order, are. */
  lemma {:induction false} CleanPerTenant(H: string -> string, rows: seq<Row>)
    ensures Report(H, rows) == [] <==> EachTenantClean(H, rows)
  {
    if rows == [] {
      forall x: Tenant ensures OfTenant(rows, x) == [] {
      }
    } else {
      var init, last := rows[..|rows| - 1], rows[|rows| - 1];
      assert rows == init + [last];
      CleanPerTenant(H, init);
      ReportAppend(H, init, last);
      CleanStep(H, init, last);
    }
  }

  /**
   The check without a tenant sweeps the whole table, and is silent exactly when the check of every
   single tenant (the pre-tenant NULL one included) is.
   */
  lemma SweepMatchesTenants(H: string -> string, rows: seq<Row>)
    ensures CheckTable(H, rows, None) == [] <==> forall x: Tenant :: CleanFor(H, rows, x)
  {
    CleanPerTenant(H, Ordered(rows));
    forall x: Tenant ensures Report(H, OfTenant(Ordered(rows), x)) == Report(H, Ordered(OfTenant(rows, x))) {
      OrderedOfTenant(rows, x);
    }
    if EachTenantClean(H, Ordered(rows)) {
      forall x: Tenant ensures CleanFor(H, rows, x) {
        assert Report(H, OfTenant(Ordered(rows), x)) == [];
      }
    } else {
      var x: Tenant :| Report(H, OfTenant(Ordered(rows), x)) != [];
      assert !CleanFor(H, rows, x);
    }
  }

  // ---------------------------------------------------------------- the verdict on whole runs

  /** Some interleaving turned the legacy rows into these. */
  ghost predicate Grown(H: string -> string, key: Tenant -> int, legacy: seq<Row>, rows: seq<Row>) {
    exists run :: After(H, key, Initial(legacy), run).Some? && After(H, key, Initial(legacy), run).value.committed == rows
  }

  /** The tenant has no rows from before the migration, or none from after it. */
  predicate Unmixed(legacy: seq<Row>, rows: seq<Row>, x: Tenant) {
    OfTenant(legacy, x) == [] || OfTenant(rows, x) == OfTenant(legacy, x)
  }

  lemma GrownVerdict(H: string -> string, key: Tenant -> int, legacy: seq<Row>, rows: seq<Row>, x: Tenant)
    requires LegacyRows(legacy) && Grown(H, key, legacy, rows)
    ensures CleanFor(H, rows, x) <==> Unmixed(legacy, rows, x)
  {
    var run :| After(H, key, Initial(legacy), run).Some? && After(H, key, Initial(legacy), run).value.committed == rows;
    VerdictExact(H, key, legacy, run, x);
  }

  lemma GrownClean(H: string -> string, key: Tenant -> int, legacy: seq<Row>, rows: seq<Row>, x: Tenant)
    requires LegacyRows(legacy) && Grown(H, key, legacy, rows)
    ensures Clean(H, rows, x) <==> if x.Some? then Unmixed(legacy, rows, x) else forall y: Tenant :: Unmixed(legacy, rows, y)
  {
    if x.Some? {
      GrownVerdict(H, key, legacy, rows, x);
    } else {
      forall y: Tenant ensures CleanFor(H, rows, y) <==> Unmixed(legacy, rows, y) {
        GrownVerdict(H, key, legacy, rows, y);
      }
    }
  }

  lemma BothTables(H: string -> string, rows: TableName -> seq<Row>, tenant: Tenant)
    ensures Verified(H, rows, tenant, [AuditEvents, SecurityEvents]) == []
       <==> (tenant.Some? ==> Clean(H, rows(AuditEvents), tenant)) && Clean(H, rows(SecurityEvents), tenant)
  {
    var none: seq<TableName> := [];
    VerifiedLast(H, rows, tenant, none, AuditEvents);
    VerifiedLast(H, rows, tenant, none + [AuditEvents], SecurityEvents);
    assert none + [AuditEvents] + [SecurityEvents] == [AuditEvents, SecurityEvents];
  }

  /**
   Both tables after any interleavings of their own, each with its own locks and its own rows from
   before the migration. Verifying a tenant is silent exactly when in both tables the tenant has none
   of those or none since; verifying without a tenant looks at security_events alone, and is silent
   exactly when that holds there of every tenant.
   */
  lemma VerifierSilentIff(H: string -> string, key: TableName -> Tenant -> int, legacy: TableName -> seq<Row>,
      rows: TableName -> seq<Row>, x: Tenant)
    requires forall t: TableName :: LegacyRows(legacy(t)) && Grown(H, key(t), legacy(t), rows(t))
    ensures Verified(H, rows, x, [AuditEvents, SecurityEvents]) == []
       <==> if x.Some? then Unmixed(legacy(AuditEvents), rows(AuditEvents), x) && Unmixed(legacy(SecurityEvents), rows(SecurityEvents), x)
            else forall y: Tenant :: Unmixed(legacy(SecurityEvents), rows(SecurityEvents), y)
  {
    BothTables(H, rows, x);
    GrownClean(H, key(AuditEvents), legacy(AuditEvents), rows(AuditEvents), x);
    GrownClean(H, key(SecurityEvents), legacy(SecurityEvents), rows(SecurityEvents), x);
  }
}
