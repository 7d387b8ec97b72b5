/**
 The chart of accounts: the default rows every tenant gets, the back-fill that adds the missing
 ones, and the shape the chart keeps.

 Accounts are never deleted, so an account's id is its position in the table. Display names carry no
 behaviour and are left out.
 */
module Chart {
  import opened Prelude
  import opened Posting

  /** Account codes are only ever compared for equality; a number stands for one. */
  type Code = int

  datatype AccountType = Asset | Liability | Equity | Revenue | Expense

  datatype Account = Account(
    code: Code,
    kind: AccountType,
    parent: Option<nat>,
    postable: bool,
    system: Option<SystemCode>,
    active: bool)

  datatype DefaultRow = DefaultRow(
    code: Code,
    kind: AccountType,
    parentCode: Option<Code>,
    postable: bool,
    system: Option<SystemCode>)

  const ASSET_ROWS: seq<DefaultRow> := [
    DefaultRow(1000, Asset, None, false, None),
    DefaultRow(1100, Asset, Some(1000), false, None),
    DefaultRow(1110, Asset, Some(1100), true, Some(Cash)),
    DefaultRow(1120, Asset, Some(1100), true, Some(Bank)),
    DefaultRow(1130, Asset, Some(1100), true, Some(ArControl)),
    DefaultRow(1140, Asset, Some(1100), true, Some(SystemCode.Inventory)),
    DefaultRow(1150, Asset, Some(1100), true, Some(VatInput)),
    DefaultRow(1500, Asset, Some(1000), false, None)
  ]

  const LIABILITY_ROWS: seq<DefaultRow> := [
    DefaultRow(2000, Liability, None, false, None),
    DefaultRow(2100, Liability, Some(2000), true, Some(ApControl)),
    DefaultRow(2150, Liability, Some(2000), true, Some(Grni)),
    DefaultRow(2200, Liability, Some(2000), true, Some(VatOutput)),
    DefaultRow(2300, Liability, Some(2000), true, None)
  ]

  const EQUITY_ROWS: seq<DefaultRow> := [
    DefaultRow(3000, Equity, None, false, None),
    DefaultRow(3100, Equity, Some(3000), true, None),
    DefaultRow(3200, Equity, Some(3000), true, Some(RetainedEarnings))
  ]

  const REVENUE_ROWS: seq<DefaultRow> := [
    DefaultRow(4000, Revenue, None, false, None),
    DefaultRow(4100, Revenue, Some(4000), true, Some(SalesRevenue)),
    DefaultRow(4200, Revenue, Some(4000), true, Some(SalesReturns)),
    DefaultRow(4300, Revenue, Some(4000), true, Some(SalesDiscounts))
  ]

  const EXPENSE_ROWS: seq<DefaultRow> := [
    DefaultRow(5000, Expense, None, false, None),
    DefaultRow(5100, Expense, Some(5000), true, Some(Cogs)),
    DefaultRow(5200, Expense, Some(5000), true, None),
    DefaultRow(5900, Expense, Some(5000), true, Some(Rounding))
  ]

  const DEFAULT_ACCOUNTS: seq<DefaultRow> :=
    ASSET_ROWS + LIABILITY_ROWS + EQUITY_ROWS + REVENUE_ROWS + EXPENSE_ROWS

  // ---------------------------------------------------------------- lookups

  function Codes(accounts: seq<Account>): (r: set<Code>) {
    set i | 0 <= i < |accounts| :: accounts[i].code
  }

  function Systems(accounts: seq<Account>): (r: set<SystemCode>) {
    set i | 0 <= i < |accounts| && accounts[i].system.Some? :: accounts[i].system.value
  }

  function FindCode(accounts: seq<Account>, code: Code): (r: Option<nat>)
    ensures r.Some? ==> r.value < |accounts| && accounts[r.value].code == code
    ensures r.None? <==> code !in Codes(accounts)
  {
    if accounts == [] then None
    else
      var n := |accounts| - 1;
      var shorter := accounts[..n];
      assert forall i | 0 <= i < n :: shorter[i] == accounts[i];
      assert Codes(accounts) == Codes(shorter) + {accounts[n].code};
      if accounts[n].code == code then Some(n) else FindCode(shorter, code)
  }

  function FindSystem(accounts: seq<Account>, code: SystemCode): (r: Option<nat>)
    ensures r.Some? ==> r.value < |accounts| && accounts[r.value].system == Some(code)
    ensures r.None? <==> code !in Systems(accounts)
  {
    if accounts == [] then None
    else
      var n := |accounts| - 1;
      var shorter := accounts[..n];
      assert forall i | 0 <= i < n :: shorter[i] == accounts[i];
      assert forall c :: c in Systems(accounts) <==> c in Systems(shorter) || accounts[n].system == Some(c);
      if accounts[n].system == Some(code) then Some(n) else FindSystem(shorter, code)
  }

  // ---------------------------------------------------------------- the shape of a chart

  /** A parent comes first (so parent links cannot cycle), has the child's type, and is no leaf. */
  predicate ParentOk(accounts: seq<Account>, i: nat)
    requires i < |accounts|
  {
    accounts[i].parent.Some? ==>
      var p := accounts[i].parent.value;
      p < i && accounts[p].kind == accounts[i].kind && !accounts[p].postable
  }

  /** The unique constraints on code and on system code. */
  predicate UniqueCodes(accounts: seq<Account>) {
    forall i, j | 0 <= i < j < |accounts| ::
      && accounts[i].code != accounts[j].code
      && (accounts[i].system.Some? ==> accounts[i].system != accounts[j].system)
  }

  predicate ValidChart(accounts: seq<Account>) {
    && (forall i | 0 <= i < |accounts| :: ParentOk(accounts, i))
    && UniqueCodes(accounts)
  }

  predicate HasChild(accounts: seq<Account>, i: nat) {
    exists c | 0 <= c < |accounts| :: accounts[c].parent == Some(i)
  }

  /** The account at the top of the tree `i` hangs in. */
  function Root(accounts: seq<Account>, i: nat): (r: nat)
    requires ValidChart(accounts) && i < |accounts|
    ensures r <= i && accounts[r].parent.None?
  {
    assert ParentOk(accounts, i);
    if accounts[i].parent.None? then i else Root(accounts, accounts[i].parent.value)
  }

  /** A valid chart is a forest of single-typed trees whose postable accounts are leaves. */
  lemma {:induction false} ForestOfLeaves(accounts: seq<Account>, i: nat)
    requires ValidChart(accounts) && i < |accounts|
    ensures accounts[Root(accounts, i)].kind == accounts[i].kind
    ensures accounts[i].postable ==> !HasChild(accounts, i)
  {
    assert ParentOk(accounts, i);
    if accounts[i].parent.Some? {
      ForestOfLeaves(accounts, accounts[i].parent.value);
    }
    if HasChild(accounts, i) {
      var c :| 0 <= c < |accounts| && accounts[c].parent == Some(i);
      assert ParentOk(accounts, c);
    }
  }

  // ---------------------------------------------------------------- back-fill

  function FromDefault(accounts: seq<Account>, row: DefaultRow): (a: Account) {
    Account(row.code, row.kind,
            if row.parentCode.Some? then FindCode(accounts, row.parentCode.value) else None,
            row.postable, row.system, true)
  }

  /** Append every default row whose code the chart did not have when the back-fill began. */
  function Backfill(existing: set<Code>, rows: seq<DefaultRow>, accounts: seq<Account>): (r: seq<Account>) {
    if rows == [] then accounts
    else
      var n := |rows| - 1;
      var before := Backfill(existing, rows[..n], accounts);
      if rows[n].code in existing then before else before + [FromDefault(before, rows[n])]
  }

  function RowCodes(rows: seq<DefaultRow>): (r: set<Code>) {
    set i | 0 <= i < |rows| :: rows[i].code
  }

  predicate RowParentOk(rows: seq<DefaultRow>, i: nat)
    requires i < |rows|
  {
    rows[i].parentCode.Some? ==>
      exists j | 0 <= j < i :: rows[j].code == rows[i].parentCode.value && rows[j].kind == rows[i].kind && !rows[j].postable
  }

  predicate WellFormedTable(rows: seq<DefaultRow>) {
    && (forall i, j | 0 <= i < j < |rows| ::
          rows[i].code != rows[j].code && (rows[i].system.Some? ==> rows[i].system != rows[j].system))
    && (forall i | 0 <= i < |rows| :: RowParentOk(rows, i))
  }

  /**
   A chart the table can be merged into: a system role the merge will add is not taken, and an account
   already sitting at a code the table uses as a parent has the right type and is not a leaf.
   */
  predicate Mergeable(accounts: seq<Account>, rows: seq<DefaultRow>) {
    && (forall j | 0 <= j < |rows| && rows[j].code !in Codes(accounts) && rows[j].system.Some? ::
          rows[j].system.value !in Systems(accounts))
    && (forall i, j | 0 <= i < |accounts| && 0 <= j < |rows| && rows[j].parentCode == Some(accounts[i].code) ::
          accounts[i].kind == rows[j].kind && !accounts[i].postable)
  }

  /** The account the back-fill made of a default row. */
  ghost predicate Represents(a: Account, row: DefaultRow) {
    a.code == row.code && a.kind == row.kind && a.postable == row.postable && a.system == row.system
  }

  /** Every account beyond the original chart is one of the missing default rows. */
  ghost predicate Added(accounts: seq<Account>, rows: seq<DefaultRow>, r: seq<Account>) {
    && accounts <= r
    && Codes(r) == Codes(accounts) + RowCodes(rows)
    && (forall k | |accounts| <= k < |r| ::
          exists j | 0 <= j < |rows| :: rows[j].code !in Codes(accounts) && Represents(r[k], rows[j]))
  }

  lemma {:induction false} BackfillAdds(rows: seq<DefaultRow>, accounts: seq<Account>)
    ensures Added(accounts, rows, Backfill(Codes(accounts), rows, accounts))
  {
    if rows != [] {
      var n := |rows| - 1;
      BackfillAdds(rows[..n], accounts);
      var before := Backfill(Codes(accounts), rows[..n], accounts);
      var r := Backfill(Codes(accounts), rows, accounts);
      assert RowCodes(rows) == RowCodes(rows[..n]) + {rows[n].code} by {
        assert forall i | 0 <= i < n :: rows[..n][i] == rows[i];
      }
      forall k | |accounts| <= k < |r|
        ensures exists j | 0 <= j < |rows| :: rows[j].code !in Codes(accounts) && Represents(r[k], rows[j])
      {
        if k < |before| {
          var j :| 0 <= j < n && rows[..n][j].code !in Codes(accounts) && Represents(before[k], rows[..n][j]);
          assert Represents(r[k], rows[j]);
        } else {
          assert Represents(r[k], rows[n]);
        }
      }
      if r != before {
        assert forall i | 0 <= i < |before| :: r[i] == before[i];
        assert r[|before|].code == rows[n].code;
        assert Codes(r) == Codes(before) + {rows[n].code};
      }
    }
  }

  /** After a back-fill every default code is present, so a second one changes nothing. */
  lemma {:induction false} BackfillDone(existing: set<Code>, rows: seq<DefaultRow>, accounts: seq<Account>)
    requires RowCodes(rows) <= existing
    ensures Backfill(existing, rows, accounts) == accounts
  {
    if rows != [] {
      var n := |rows| - 1;
      assert rows[n].code in RowCodes(rows);
      assert RowCodes(rows[..n]) <= RowCodes(rows) by {
        assert forall i | 0 <= i < n :: rows[..n][i] == rows[i];
      }
      BackfillDone(existing, rows[..n], accounts);
    }
  }

  lemma BackfillIdempotent(rows: seq<DefaultRow>, accounts: seq<Account>)
    ensures var once := Backfill(Codes(accounts), rows, accounts);
            Backfill(Codes(once), rows, once) == once
  {
    BackfillAdds(rows, accounts);
    var once := Backfill(Codes(accounts), rows, accounts);
    BackfillDone(Codes(once), rows, once);
  }

  /** Back-filling a well-formed table keeps the chart a forest, whatever accounts were there before. */
  lemma {:induction false} BackfillKeepsChart(rows: seq<DefaultRow>, accounts: seq<Account>)
    requires WellFormedTable(rows) && ValidChart(accounts) && Mergeable(accounts, rows)
    ensures ValidChart(Backfill(Codes(accounts), rows, accounts))
  {
    if rows != [] {
      var n := |rows| - 1;
      var init := rows[..n];
      forall i | 0 <= i < n ensures RowParentOk(init, i) {
        assert RowParentOk(rows, i);
        assert forall j | 0 <= j < i :: init[j] == rows[j];
      }
      BackfillKeepsChart(init, accounts);
      BackfillAdds(init, accounts);
      var before := Backfill(Codes(accounts), init, accounts);
      if rows[n].code !in Codes(accounts) {
        AppendKeepsChart(rows, accounts, before);
      }
    }
  }

  lemma AppendKeepsChart(rows: seq<DefaultRow>, accounts: seq<Account>, before: seq<Account>)
    requires WellFormedTable(rows) && rows != [] && Mergeable(accounts, rows)
    requires ValidChart(before) && Added(accounts, rows[..|rows| - 1], before)
    requires rows[|rows| - 1].code !in Codes(accounts)
    ensures ValidChart(before + [FromDefault(before, rows[|rows| - 1])])
  {
    var n := |rows| - 1;
    var row := rows[n];
    var r := before + [FromDefault(before, row)];
    forall k | 0 <= k < |before|
      ensures before[k].code != row.code && (row.system.Some? ==> before[k].system != row.system)
      ensures row.parentCode == Some(before[k].code) ==> before[k].kind == row.kind && !before[k].postable
    {
      if k < |accounts| {
        assert before[k] == accounts[k];
        assert accounts[k].code in Codes(accounts);
      } else {
        var j :| 0 <= j < n && rows[..n][j].code !in Codes(accounts) && Represents(before[k], rows[..n][j]);
        assert rows[j] == rows[..n][j];
        if row.parentCode == Some(before[k].code) {
          assert RowParentOk(rows, n);
        }
      }
    }
    forall i | 0 <= i < |r| ensures ParentOk(r, i) {
      if i < |before| {
        assert ParentOk(before, i);
      }
    }
  }

  // ---------------------------------------------------------------- account creation

  /** Hanging a child under an account turns that account into a group. */
  function Demote(accounts: seq<Account>, parent: Option<nat>): (r: seq<Account>)
    requires parent.Some? ==> parent.value < |accounts|
    ensures |r| == |accounts|
  {
    if parent.None? then accounts
    else accounts[parent.value := accounts[parent.value].(postable := false)]
  }

  lemma NewAccountKeepsChart(accounts: seq<Account>, a: Account)
    requires ValidChart(accounts) && a.code !in Codes(accounts) && a.system.None?
    requires a.parent.Some? ==> a.parent.value < |accounts| && accounts[a.parent.value].kind == a.kind
    ensures ValidChart(Demote(accounts, a.parent) + [a])
  {
    var r := Demote(accounts, a.parent) + [a];
    forall i | 0 <= i < |r| ensures ParentOk(r, i) {
      if i < |accounts| {
        assert ParentOk(accounts, i);
      }
    }
    forall i, j | 0 <= i < j < |r|
      ensures r[i].code != r[j].code && (r[i].system.Some? ==> r[i].system != r[j].system)
    {
      if j == |accounts| {
        assert accounts[i].code in Codes(accounts);
      }
    }
  }

  // ---------------------------------------------------------------- the default table itself

  /** The section of the table that defines each system role. */
  function Home(code: SystemCode): (k: AccountType) {
    match code
    case Cash => Asset case Bank => Asset case ArControl => Asset case Inventory => Asset case VatInput => Asset
    case ApControl => Liability case Grni => Liability case VatOutput => Liability
    case RetainedEarnings => Equity
    case SalesRevenue => Revenue case SalesReturns => Revenue case SalesDiscounts => Revenue
    case Cogs => Expense case Rounding => Expense
  }

  /** Rows whose codes lie in a range and whose system roles are at home in one of the given types. */
  ghost predicate Section(rows: seq<DefaultRow>, kinds: set<AccountType>, low: int, high: int) {
    forall i | 0 <= i < |rows| ::
      && low <= rows[i].code < high
      && (rows[i].system.Some? ==> Home(rows[i].system.value) in kinds)
  }

  lemma SectionsJoin(a: seq<DefaultRow>, b: seq<DefaultRow>, ka: set<AccountType>, kb: set<AccountType>, low: int, mid: int, high: int)
    requires WellFormedTable(a) && WellFormedTable(b) && ka !! kb && low <= mid <= high
    requires Section(a, ka, low, mid) && Section(b, kb, mid, high)
    ensures WellFormedTable(a + b) && Section(a + b, ka + kb, low, high)
  {
    var r := a + b;
    forall i | 0 <= i < |r| ensures RowParentOk(r, i) {
      if i < |a| {
        assert RowParentOk(a, i);
        assert forall j | 0 <= j < i :: r[j] == a[j];
      } else if r[i].parentCode.Some? {
        assert RowParentOk(b, i - |a|);
        var j :| 0 <= j < i - |a| && b[j].code == r[i].parentCode.value && b[j].kind == r[i].kind && !b[j].postable;
        assert r[j + |a|] == b[j];
      }
    }
  }

  lemma AssetRowsOk()
    ensures WellFormedTable(ASSET_ROWS) && Section(ASSET_ROWS, {Asset}, 1000, 2000)
  {
    assert ASSET_ROWS[0].code == 1000;
    assert ASSET_ROWS[1].code == 1100;
  }

  lemma LiabilityRowsOk()
    ensures WellFormedTable(LIABILITY_ROWS) && Section(LIABILITY_ROWS, {Liability}, 2000, 3000)
  {
    assert LIABILITY_ROWS[0].code == 2000;
  }

  lemma EquityRowsOk()
    ensures WellFormedTable(EQUITY_ROWS) && Section(EQUITY_ROWS, {Equity}, 3000, 4000)
  {
    assert EQUITY_ROWS[0].code == 3000;
  }

  lemma RevenueRowsOk()
    ensures WellFormedTable(REVENUE_ROWS) && Section(REVENUE_ROWS, {Revenue}, 4000, 5000)
  {
    assert REVENUE_ROWS[0].code == 4000;
  }

  lemma ExpenseRowsOk()
    ensures WellFormedTable(EXPENSE_ROWS) && Section(EXPENSE_ROWS, {Expense}, 5000, 6000)
  {
    assert EXPENSE_ROWS[0].code == 5000;
  }

  lemma DefaultTableWellFormed()
    ensures WellFormedTable(DEFAULT_ACCOUNTS)
  {
    AssetRowsOk();
    LiabilityRowsOk();
    EquityRowsOk();
    RevenueRowsOk();
    ExpenseRowsOk();
    SectionsJoin(ASSET_ROWS, LIABILITY_ROWS, {Asset}, {Liability}, 1000, 2000, 3000);
    SectionsJoin(ASSET_ROWS + LIABILITY_ROWS, EQUITY_ROWS, {Asset, Liability}, {Equity}, 1000, 3000, 4000);
    SectionsJoin(ASSET_ROWS + LIABILITY_ROWS + EQUITY_ROWS, REVENUE_ROWS, {Asset, Liability, Equity}, {Revenue}, 1000, 4000, 5000);
    SectionsJoin(ASSET_ROWS + LIABILITY_ROWS + EQUITY_ROWS + REVENUE_ROWS, EXPENSE_ROWS,
                 {Asset, Liability, Equity, Revenue}, {Expense}, 1000, 5000, 6000);
  }

  function RowSystems(rows: seq<DefaultRow>): (r: set<SystemCode>) {
    set i | 0 <= i < |rows| && rows[i].system.Some? :: rows[i].system.value
  }

  lemma RowSystemsJoin(a: seq<DefaultRow>, b: seq<DefaultRow>)
    ensures RowSystems(a) <= RowSystems(a + b) && RowSystems(b) <= RowSystems(a + b)
  {
    forall c | c in RowSystems(a) ensures c in RowSystems(a + b) {
      var i :| 0 <= i < |a| && a[i].system == Some(c);
      assert (a + b)[i] == a[i];
    }
    forall c | c in RowSystems(b) ensures c in RowSystems(a + b) {
      var i :| 0 <= i < |b| && b[i].system == Some(c);
      assert (a + b)[i + |a|] == b[i];
    }
  }

  /** The section that is a role's home defines it. */
  lemma HomeDefines(code: SystemCode)
    ensures code in match Home(code)
                    case Asset => RowSystems(ASSET_ROWS)
                    case Liability => RowSystems(LIABILITY_ROWS)
                    case Equity => RowSystems(EQUITY_ROWS)
                    case Revenue => RowSystems(REVENUE_ROWS)
                    case Expense => RowSystems(EXPENSE_ROWS)
  {
    match code {
      case Cash => assert ASSET_ROWS[2].system == Some(code);
      case Bank => assert ASSET_ROWS[3].system == Some(code);
      case ArControl => assert ASSET_ROWS[4].system == Some(code);
      case Inventory => assert ASSET_ROWS[5].system == Some(code);
      case VatInput => assert ASSET_ROWS[6].system == Some(code);
      case ApControl => assert LIABILITY_ROWS[1].system == Some(code);
      case Grni => assert LIABILITY_ROWS[2].system == Some(code);
      case VatOutput => assert LIABILITY_ROWS[3].system == Some(code);
      case RetainedEarnings => assert EQUITY_ROWS[2].system == Some(code);
      case SalesRevenue => assert REVENUE_ROWS[1].system == Some(code);
      case SalesReturns => assert REVENUE_ROWS[2].system == Some(code);
      case SalesDiscounts => assert REVENUE_ROWS[3].system == Some(code);
      case Cogs => assert EXPENSE_ROWS[1].system == Some(code);
      case Rounding => assert EXPENSE_ROWS[3].system == Some(code);
    }
  }

  /** Every role the posting rules can name is in the default table. */
  lemma RolesDefined(code: SystemCode)
    ensures code in RowSystems(DEFAULT_ACCOUNTS)
  {
    HomeDefines(code);
    RowSystemsJoin(ASSET_ROWS, LIABILITY_ROWS);
    RowSystemsJoin(ASSET_ROWS + LIABILITY_ROWS, EQUITY_ROWS);
    RowSystemsJoin(ASSET_ROWS + LIABILITY_ROWS + EQUITY_ROWS, REVENUE_ROWS);
    RowSystemsJoin(ASSET_ROWS + LIABILITY_ROWS + EQUITY_ROWS + REVENUE_ROWS, EXPENSE_ROWS);
  }

  /** A back-fill from nothing makes one account per row, so it fills every role of the table. */
  lemma {:induction false} FreshBackfill(rows: seq<DefaultRow>)
    ensures var r := Backfill({}, rows, []);
            |r| == |rows| && (forall i | 0 <= i < |rows| :: Represents(r[i], rows[i])) && RowSystems(rows) <= Systems(r)
  {
    if rows != [] {
      FreshBackfill(rows[..|rows| - 1]);
    }
    var r := Backfill({}, rows, []);
    forall i | 0 <= i < |rows| && rows[i].system.Some? ensures rows[i].system.value in Systems(r) {
      assert Represents(r[i], rows[i]);
    }
  }
}
