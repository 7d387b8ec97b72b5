/**
 What the immutability triggers alone guarantee, for statements issued past the service: they protect
 every balance against updates and deletes, and nothing against a late insert.
 */
module DatabaseGuards {
  import opened Prelude
  import opened Posting
  import opened Ledger
  import opened LedgerInvariant
  import opened Reports

  /** A statement on the two journal tables. Entry rows and line rows are separate tables. */
  datatype Statement =
    | UpdateEntry(entry: nat, row: Entry)
    | DeleteEntry(entry: nat)
    | UpdateLine(entry: nat, line: nat, updated: Line)
    | DeleteLine(entry: nat, line: nat)
    | InsertLine(entry: nat, inserted: Line)

  predicate WellTyped(b: Books, s: Statement) {
    && s.entry < |b.entries|
    && (s.UpdateEntry? ==> s.row.lines == b.entries[s.entry].lines)
    && (s.UpdateLine? ==> s.line < |b.entries[s.entry].lines| && OneSided(s.updated.debit, s.updated.credit))
    && (s.DeleteLine? ==> s.line < |b.entries[s.entry].lines|)
    && (s.InsertLine? ==> s.inserted.account < |b.accounts| && OneSided(s.inserted.debit, s.inserted.credit))
  }

  /** nexora_posted_entry_immutable: only a change of `reversed_by_entry_id`, and of nothing else. */
  predicate EntryTriggerAllows(old_: Entry, new_: Entry) {
    old_.status.Posted? ==> new_ == old_.(reversedBy := new_.reversedBy) && new_.reversedBy != old_.reversedBy
  }

  /** nexora_posted_line_immutable fires on update and delete only. */
  predicate TriggersAllow(b: Books, s: Statement)
    requires WellTyped(b, s)
  {
    match s
    case UpdateEntry(i, row) => EntryTriggerAllows(b.entries[i], row)
    case DeleteEntry(i) => !b.entries[i].status.Posted?
    case UpdateLine(i, _, _) => !b.entries[i].status.Posted?
    case DeleteLine(i, _) => !b.entries[i].status.Posted?
    case InsertLine(_, _) => true
  }

  function Apply(b: Books, s: Statement): (r: Books)
    requires WellTyped(b, s)
  {
    var e := b.entries[s.entry];
    match s
    case UpdateEntry(i, row) => b.(entries := b.entries[i := row])
    case DeleteEntry(i) => b.(entries := b.entries[..i] + b.entries[i + 1..])
    case UpdateLine(i, k, line) => b.(entries := b.entries[i := e.(lines := e.lines[k := line])])
    case DeleteLine(i, k) => b.(entries := b.entries[i := e.(lines := e.lines[..k] + e.lines[k + 1..])])
    case InsertLine(i, line) => b.(entries := b.entries[i := e.(lines := e.lines + [line])])
  }

  ghost predicate SameBalances(b: Books, b': Books) {
    forall a: nat, side, start, end ::
      Movement(b'.entries, a, side, start, end) == Movement(b.entries, a, side, start, end)
  }

  lemma {:induction false} SameLinesSameMovement(x: seq<Entry>, y: seq<Entry>, a: nat, side: Side, start: int, end: int)
    requires |x| == |y|
    requires forall i | 0 <= i < |x| :: x[i].lines == y[i].lines && x[i].date == y[i].date && x[i].status == y[i].status
    ensures Movement(x, a, side, start, end) == Movement(y, a, side, start, end)
  {
    if x != [] {
      SameLinesSameMovement(x[..|x| - 1], y[..|y| - 1], a, side, start, end);
    }
  }

  /** Adding a line to one entry moves its account, on the entry's own date, by the line's amount. */
  lemma {:induction false} LateLineMoves(entries: seq<Entry>, i: nat, line: Line, side: Side)
    requires i < |entries| && entries[i].status.Posted?
    ensures var e := entries[i];
            Movement(entries[i := e.(lines := e.lines + [line])], line.account, side, e.date, e.date)
            == Movement(entries, line.account, side, e.date, e.date) + OnSide(line, side)
  {
    var e := entries[i];
    var n := |entries| - 1;
    var changed := entries[i := e.(lines := e.lines + [line])];
    if i < n {
      LateLineMoves(entries[..n], i, line, side);
      assert changed[..n] == entries[..n][i := e.(lines := e.lines + [line])];
    } else {
      assert changed[..n] == entries[..n];
      assert (e.lines + [line])[..|e.lines|] == e.lines;
    }
  }

  /**
   Against books in which everything is posted, a statement the triggers let through leaves every
   balance of every account and date range as it was if and only if it is not a line insert.
   */
  lemma TriggersProtectAllButInserts(b: Books, s: Statement)
    requires ValidBooks(b) && WellTyped(b, s) && TriggersAllow(b, s)
    ensures SameBalances(b, Apply(b, s)) <==> !s.InsertLine?
  {
    assert ValidEntry(b, s.entry);
    if s.InsertLine? {
      var side := if s.inserted.debit > 0 then Debit else Credit;
      LateLineMoves(b.entries, s.entry, s.inserted, side);
    } else {
      forall a: nat, side, start, end
        ensures Movement(Apply(b, s).entries, a, side, start, end) == Movement(b.entries, a, side, start, end)
      {
        SameLinesSameMovement(Apply(b, s).entries, b.entries, a, side, start, end);
      }
    }
  }

  /** The service never trips that trigger: what a call does to an existing entry is nothing, or an update it allows. */
  lemma ServicePassesTriggers(b: Books, c: Call, i: nat)
    requires Sound(b) && ValidCall(c) && i < |b.entries|
    ensures var r := Step(b, c);
            i < |r.entries| && (r.entries[i] == b.entries[i] || EntryTriggerAllows(b.entries[i], r.entries[i]))
  {
    StepKeeps(b, c);
    assert EntryKept(b.entries[i], Step(b, c).entries[i]);
  }

  /**
   "Reversed once" rests on the service alone. Once an entry is marked no run of calls changes the mark,
   yet the trigger lets a statement put any other in its place, or none.
   */
  lemma OnlyServiceKeepsMark(b: Books, calls: seq<Call>, i: nat, other: Option<nat>)
    requires Sound(b) && forall k | 0 <= k < |calls| :: ValidCall(calls[k])
    requires i < |b.entries| && b.entries[i].reversedBy.Some?
    ensures var r := Run(b, calls);
            && i < |r.entries| && r.entries[i] == b.entries[i] && r.entries[i].status.Posted?
            && (TriggersAllow(r, UpdateEntry(i, r.entries[i].(reversedBy := other))) <==> other != b.entries[i].reversedBy)
  {
    RunKeeps(b, calls);
    assert EntryKept(b.entries[i], Run(b, calls).entries[i]);
    assert ValidEntry(b, i);
  }

  /** What the trigger keeps of a posted entry is every column but the mark. */
  lemma PostedColumnsFixed(b: Books, i: nat, row: Entry)
    requires i < |b.entries| && WellTyped(b, UpdateEntry(i, row)) && b.entries[i].status.Posted?
    requires TriggersAllow(b, UpdateEntry(i, row))
    ensures var e := b.entries[i];
            && row.date == e.date && row.period == e.period && row.status == Posted && row.source == e.source
            && row.totalDebit == e.totalDebit && row.totalCredit == e.totalCredit && row.reversalOf == e.reversalOf
            && row.lines == e.lines && row.reversedBy != e.reversedBy
  {
  }

}
