/** The chart over whole runs: what a posted line lands on, and what a demoted role costs. */
module ChartRuns {
  import opened Prelude
  import opened Posting
  import opened Chart
  import opened Calendar
  import opened Ledger
  import opened LedgerInvariant

  /** After any run the chart is a forest of single-typed trees whose postable accounts are leaves. */
  lemma ReachableForest(calls: seq<Call>, i: nat)
    requires forall k | 0 <= k < |calls| :: ValidCall(calls[k])
    requires i < |Run(EMPTY_BOOKS, calls).accounts|
    ensures var accounts := Run(EMPTY_BOOKS, calls).accounts;
            && ValidChart(accounts)
            && accounts[Root(accounts, i)].kind == accounts[i].kind
            && (accounts[i].postable ==> !HasChild(accounts, i))
  {
    ReachableSound(calls);
    ForestOfLeaves(Run(EMPTY_BOOKS, calls).accounts, i);
  }

  /** Every line of a newly posted entry is on an account that is active and a leaf at that moment. */
  lemma PostedLinesHitLeaves(b: Books, q: PostRequest, k: nat)
    requires ValidBooks(b) && PostError(b, q).None? && k < |q.lines|
    ensures var line := NewEntry(b, q).lines[k];
            && line.account < |b.accounts| && Resolve(b.accounts, q.lines[k].target) == Some(line.account)
            && b.accounts[line.account].active && !HasChild(b.accounts, line.account)
  {
    var a := Resolve(b.accounts, q.lines[k].target);
    assert a.Some?;
    ForestOfLeaves(b.accounts, a.value);
  }

  /** The service never runs into a missing system account: after bootstrap every role resolves. */
  lemma RolesAlwaysResolve(b: Books, clock: Clock, code: SystemCode)
    requires Sound(b) && ValidClock(clock)
    ensures Resolve(Bootstrap(b, clock).accounts, Role(code)).Some?
  {
    BootstrapKeeps(b, clock);
    RolesDefined(code);
  }

  /** A role keeps its account for good. */
  lemma RoleFixed(accounts: seq<Account>, accounts': seq<Account>, code: SystemCode, a: nat)
    requires UniqueCodes(accounts') && a < |accounts| <= |accounts'|
    requires FindSystem(accounts, code) == Some(a) && AccountKept(accounts[a], accounts'[a])
    ensures FindSystem(accounts', code) == Some(a)
  {
    assert accounts'[a].system == Some(code);
    assert code in Systems(accounts');
    var f := FindSystem(accounts', code).value;
    assert accounts'[f].system == accounts'[a].system;
  }

  /**
   Creating a child under a system account is allowed, and it is final: from then on every document
   that posts to that role is refused in every later state.
   */
  lemma DemotedRoleNeverPosts(b: Books, calls: seq<Call>, code: SystemCode, clock: Clock, q: PostRequest, k: nat)
    requires Sound(b) && b.hasJournal && (forall i | 0 <= i < |calls| :: ValidCall(calls[i])) && ValidClock(clock)
    requires var a := FindSystem(b.accounts, code); a.Some? && !b.accounts[a.value].postable
    requires k < |q.lines| && q.lines[k].target == Role(code)
    ensures Post(Run(b, calls), clock, q).result.Failure?
  {
    RunKeeps(b, calls);
    var b' := Run(b, calls);
    BootstrapKeeps(b', clock);
    var b1 := Bootstrap(b', clock);
    ExtendsTransitive(b, b', b1);
    var a := FindSystem(b.accounts, code).value;
    assert AccountKept(b.accounts[a], b1.accounts[a]);
    RoleFixed(b.accounts, b1.accounts, code, a);
    assert Resolve(b1.accounts, q.lines[k].target) == FindSystem(b.accounts, code);
    RefusedIfDemoted(b1, q, k);
  }

  lemma RefusedIfDemoted(b: Books, q: PostRequest, k: nat)
    requires k < |q.lines|
    requires var a := Resolve(b.accounts, q.lines[k].target); a.Some? && !b.accounts[a.value].postable
    ensures PostTo(b, q).result.Failure?
  {
    assert !HitsPostable(b.accounts, q.lines);
  }

  /** And `create_account` does accept such a child: a fresh code of the role's own type is enough. */
  lemma RoleCanBeDemoted(b: Books, code: SystemCode, a: nat, child: Code)
    requires ValidBooks(b) && FindSystem(b.accounts, code) == Some(a) && child !in Codes(b.accounts)
    ensures var r := AddAccountTo(b, NewAccount(child, b.accounts[a].kind, Some(a), true));
            r.result.Success? && !r.books.accounts[a].postable
  {
  }

  // ---------------------------------------------------------------- exactly when a role is demoted

  /** A system account is active, and may be posted to unless something hangs under it. */
  ghost predicate RolesLive(accounts: seq<Account>) {
    forall i | 0 <= i < |accounts| && accounts[i].system.Some? :: accounts[i].active && (accounts[i].postable || HasChild(accounts, i))
  }

  predicate RoleRowsPostable(rows: seq<DefaultRow>) {
    forall i | 0 <= i < |rows| && rows[i].system.Some? :: rows[i].postable
  }

  lemma DefaultRolesPostable()
    ensures RoleRowsPostable(DEFAULT_ACCOUNTS)
  {
    assert RoleRowsPostable(ASSET_ROWS);
    assert RoleRowsPostable(LIABILITY_ROWS);
    assert RoleRowsPostable(EQUITY_ROWS);
    assert RoleRowsPostable(REVENUE_ROWS);
    assert RoleRowsPostable(EXPENSE_ROWS);
  }

  ghost predicate RolesPostable(accounts: seq<Account>) {
    forall i | 0 <= i < |accounts| && accounts[i].system.Some? :: accounts[i].active && accounts[i].postable
  }

  /** The first bootstrap makes every role postable. */
  lemma {:induction false} FreshRolesPostable(rows: seq<DefaultRow>)
    requires RoleRowsPostable(rows)
    ensures RolesPostable(Backfill({}, rows, []))
  {
    if rows != [] {
      var n := |rows| - 1;
      var init := rows[..n];
      assert RoleRowsPostable(init) by {
        assert forall i | 0 <= i < n :: init[i] == rows[i];
      }
      FreshRolesPostable(init);
      var before := Backfill({}, init, []);
      var added := FromDefault(before, rows[n]);
      assert rows[n].code !in {};
      assert Backfill({}, rows, []) == before + [added];
      assert added.active && added.postable == rows[n].postable && added.system == rows[n].system;
      RolesPostableAppend(before, added);
    }
  }

  lemma RolesPostableAppend(accounts: seq<Account>, a: Account)
    requires RolesPostable(accounts) && (a.system.Some? ==> a.active && a.postable)
    ensures RolesPostable(accounts + [a])
  {
  }

  lemma FreshRolesChildless(rows: seq<DefaultRow>)
    requires WellFormedTable(rows) && RoleRowsPostable(rows)
    ensures var r := Backfill({}, rows, []);
            ValidChart(r) && RolesLive(r) && forall i | 0 <= i < |r| && r[i].system.Some? :: !HasChild(r, i)
  {
    var r := Backfill({}, rows, []);
    assert Codes([]) == {};
    BackfillKeepsChart(rows, []);
    FreshRolesPostable(rows);
    forall i | 0 <= i < |r| && r[i].system.Some? ensures !HasChild(r, i) {
      ForestOfLeaves(r, i);
    }
  }

  /** The call was an account creation under `a`, and it was accepted. */
  ghost predicate HangsUnder(b: Books, c: Call, a: nat)
    requires ValidCall(c)
  {
    c.AddAccount? && c.account.parent == Some(a) && Work(Bootstrap(b, c.clock), c).result.Success?
  }

  /** Some accepted account creation of the run named `a` as parent: the last call, or one before it. */
  ghost predicate NamedAsParent(calls: seq<Call>, a: nat)
    requires forall i | 0 <= i < |calls| :: ValidCall(calls[i])
  {
    calls != [] &&
      var init := calls[..|calls| - 1];
      NamedAsParent(init, a) || HangsUnder(Run(EMPTY_BOOKS, init), calls[|calls| - 1], a)
  }

  /** What one accepted call does to the chart: nothing, or one more account. */
  lemma WorkChart(b: Books, c: Call)
    requires !c.SetStatus?
    ensures !c.AddAccount? ==> Work(b, c).books.accounts == b.accounts
  {
  }

  lemma AddedChild(b: Books, a: NewAccount, i: nat)
    requires ValidChart(b.accounts) && AddAccountTo(b, a).result.Success? && RolesLive(b.accounts)
    ensures var r := AddAccountTo(b, a).books.accounts;
            && |b.accounts| < |r| && RolesLive(r)
            && (i < |b.accounts| ==> (HasChild(r, i) <==> HasChild(b.accounts, i) || a.parent == Some(i)))
  {
    var r := AddAccountTo(b, a).books.accounts;
    var n := |b.accounts|;
    assert forall k | 0 <= k < n :: r[k].parent == b.accounts[k].parent && r[k].system == b.accounts[k].system;
    assert r[n].parent == a.parent && r[n].system.None?;
    forall k | 0 <= k < n && b.accounts[k].system.Some? ensures r[k].active && (r[k].postable || HasChild(r, k)) {
      if HasChild(b.accounts, k) {
        var c :| 0 <= c < n && b.accounts[c].parent == Some(k);
        assert r[c].parent == Some(k);
      }
    }
    if HasChild(r, i) {
      var c :| 0 <= c < |r| && r[c].parent == Some(i);
      assert c < n ==> b.accounts[c].parent == Some(i);
    }
    if i < n && HasChild(b.accounts, i) {
      var c :| 0 <= c < n && b.accounts[c].parent == Some(i);
      assert r[c].parent == Some(i);
    }
  }

  /** Bootstrapped books: the same chart, or a fresh one whose roles are postable and hence childless. */
  lemma BootstrapWithRoles(rows: seq<DefaultRow>, b: Books, clock: Clock)
    requires WellFormedTable(rows) && RoleRowsPostable(rows) && ValidClock(clock) && RolesLive(b.accounts) && ValidChart(b.accounts)
    requires if b.hasJournal then RowCodes(rows) <= Codes(b.accounts) else b.accounts == []
    ensures var r := BootstrapWith(rows, b, clock).accounts;
            && RolesLive(r) && ValidChart(r)
            && (if b.hasJournal then r == b.accounts else forall i | 0 <= i < |r| && r[i].system.Some? :: !HasChild(r, i))
  {
    if b.hasJournal {
      BackfillDone(Codes(b.accounts), rows, b.accounts);
    } else {
      assert Codes(b.accounts) == {};
      FreshRolesChildless(rows);
    }
  }

  lemma BootstrapRoles(b: Books, clock: Clock)
    requires Sound(b) && RolesLive(b.accounts) && ValidClock(clock)
    ensures var r := Bootstrap(b, clock).accounts;
            && RolesLive(r) && ValidChart(r)
            && (if b.hasJournal then r == b.accounts
                else b.accounts == [] && forall i | 0 <= i < |r| && r[i].system.Some? :: !HasChild(r, i))
  {
    DefaultTableWellFormed();
    DefaultRolesPostable();
    BootstrapWithRoles(DEFAULT_ACCOUNTS, b, clock);
  }

  /** One call: the chart it leaves has live roles, and a role gained a child only if the call hung one under it. */
  lemma StepRoles(b: Books, c: Call, a: nat)
    requires Sound(b) && RolesLive(b.accounts) && ValidCall(c)
    ensures var r := Step(b, c).accounts;
            && RolesLive(r) && |b.accounts| <= |r|
            && (HangsUnder(b, c, a) || (a < |b.accounts| && HasChild(b.accounts, a)) ==> a < |r| && HasChild(r, a))
            && (a < |r| && r[a].system.Some? && HasChild(r, a) ==>
                  HangsUnder(b, c, a) || (a < |b.accounts| && b.accounts[a].system.Some? && HasChild(b.accounts, a)))
  {
    if !c.SetStatus? {
      var b1 := Bootstrap(b, c.clock);
      BootstrapRoles(b, c.clock);
      WorkChart(b1, c);
      if c.AddAccount? && AddAccountTo(b1, c.account).result.Success? {
        AddedChild(b1, c.account, a);
      }
    }
  }

  /** What the chart tells of an account: it was named as parent only if it has a child, and, of a role, if it has one. */
  ghost predicate Tells(accounts: seq<Account>, a: nat, named: bool) {
    && (named ==> a < |accounts| && HasChild(accounts, a))
    && (a < |accounts| && accounts[a].system.Some? && HasChild(accounts, a) ==> named)
  }

  lemma TellsStep(b: Books, c: Call, a: nat, named: bool)
    requires Sound(b) && RolesLive(b.accounts) && ValidCall(c) && Tells(b.accounts, a, named)
    ensures RolesLive(Step(b, c).accounts) && Tells(Step(b, c).accounts, a, named || HangsUnder(b, c, a))
  {
    StepRoles(b, c, a);
  }

  /** The history of a run, read off the chart. */
  lemma {:induction false} ChartTells(calls: seq<Call>, a: nat)
    requires forall i | 0 <= i < |calls| :: ValidCall(calls[i])
    ensures RolesLive(Run(EMPTY_BOOKS, calls).accounts) && Tells(Run(EMPTY_BOOKS, calls).accounts, a, NamedAsParent(calls, a))
  {
    if calls == [] {
      assert Run(EMPTY_BOOKS, calls) == EMPTY_BOOKS;
    } else {
      var init := calls[..|calls| - 1];
      ChartTells(init, a);
      ReachableSound(init);
      TellsStep(Run(EMPTY_BOOKS, init), calls[|calls| - 1], a, NamedAsParent(init, a));
    }
  }

  /**
   Over every run from nothing: the account of a role may be posted to if and only if nothing hangs
   under it, which is to say that no accepted account creation ever named it as parent.
   */
  lemma RolePostableIff(calls: seq<Call>, code: SystemCode)
    requires forall i | 0 <= i < |calls| :: ValidCall(calls[i])
    ensures var accounts := Run(EMPTY_BOOKS, calls).accounts;
            FindSystem(accounts, code).Some? ==>
              var a := FindSystem(accounts, code).value;
              && accounts[a].active
              && (accounts[a].postable <==> !HasChild(accounts, a))
              && (accounts[a].postable <==> !NamedAsParent(calls, a))
  {
    ReachableSound(calls);
    var accounts := Run(EMPTY_BOOKS, calls).accounts;
    var found := FindSystem(accounts, code);
    if found.Some? {
      ChartTells(calls, found.value);
      ForestOfLeaves(accounts, found.value);
    }
  }

  lemma NamedThenRead(calls: seq<Call>, clock: Clock, a: nat)
    requires (forall i | 0 <= i < |calls| :: ValidCall(calls[i])) && ValidClock(clock)
    ensures var more := calls + [Read(clock)];
            && Run(EMPTY_BOOKS, more) == Bootstrap(Run(EMPTY_BOOKS, calls), clock)
            && (NamedAsParent(more, a) <==> NamedAsParent(calls, a))
  {
    var more := calls + [Read(clock)];
    assert more[..|calls|] == calls;
  }

  /** After every run and the bootstrap of the next call, a role resolves, and to which account's history it owes its fate. */
  lemma RoleUsableIff(calls: seq<Call>, clock: Clock, code: SystemCode)
    requires (forall i | 0 <= i < |calls| :: ValidCall(calls[i])) && ValidClock(clock)
    ensures var accounts := Bootstrap(Run(EMPTY_BOOKS, calls), clock).accounts;
            var a := Resolve(accounts, Role(code));
            a.Some? && (accounts[a.value].postable && accounts[a.value].active <==> !NamedAsParent(calls, a.value))
  {
    ReachableSound(calls);
    RolesAlwaysResolve(Run(EMPTY_BOOKS, calls), clock, code);
    var accounts := Bootstrap(Run(EMPTY_BOOKS, calls), clock).accounts;
    NamedThenRead(calls, clock, Resolve(accounts, Role(code)).value);
    RolePostableIff(calls + [Read(clock)], code);
  }

  lemma RefusedForAccountIff(b: Books, q: PostRequest)
    requires Resolvable(b.accounts, q.lines)
    ensures PostTo(b, q).result == Failure(AccountNotPostable) <==>
              && ServiceBalanced(q.lines) && PeriodAccepts(b.periods, q.date, q.mayPostClosed)
              && exists k | 0 <= k < |q.lines| ::
                   var a := Resolve(b.accounts, q.lines[k].target).value; !(b.accounts[a].postable && b.accounts[a].active)
  {
  }

  /**
   After every run, a document whose lines name roles is refused for an account that may not be posted
   to exactly when it balances, its period accepts it, and some accepted account creation named the
   account of one of its roles as parent.
   */
  lemma DocumentRefusedIff(calls: seq<Call>, clock: Clock, q: PostRequest)
    requires (forall i | 0 <= i < |calls| :: ValidCall(calls[i])) && ValidClock(clock)
    requires forall k | 0 <= k < |q.lines| :: q.lines[k].target.Role?
    ensures var b := Bootstrap(Run(EMPTY_BOOKS, calls), clock);
            && Resolvable(b.accounts, q.lines)
            && (Post(Run(EMPTY_BOOKS, calls), clock, q).result == Failure(AccountNotPostable) <==>
                  && ServiceBalanced(q.lines) && PeriodAccepts(b.periods, q.date, q.mayPostClosed)
                  && exists k | 0 <= k < |q.lines| :: NamedAsParent(calls, Resolve(b.accounts, q.lines[k].target).value))
  {
    var b := Bootstrap(Run(EMPTY_BOOKS, calls), clock);
    forall k | 0 <= k < |q.lines|
      ensures var a := Resolve(b.accounts, q.lines[k].target);
              a.Some? && (b.accounts[a.value].postable && b.accounts[a.value].active <==> !NamedAsParent(calls, a.value))
    {
      RoleUsableIff(calls, clock, q.lines[k].target.code);
    }
    assert Resolvable(b.accounts, q.lines);
    RefusedForAccountIff(b, q);
  }

  /**
   And it is accepted exactly when its amounts pass both layers, its period accepts it, none of its roles'
   accounts was ever named as parent, and no entry came of the same source before.
   */
  lemma DocumentAcceptedIff(calls: seq<Call>, clock: Clock, q: PostRequest)
    requires (forall i | 0 <= i < |calls| :: ValidCall(calls[i])) && ValidClock(clock)
    requires forall k | 0 <= k < |q.lines| :: q.lines[k].target.Role?
    ensures var b := Bootstrap(Run(EMPTY_BOOKS, calls), clock);
            && Resolvable(b.accounts, q.lines)
            && (Post(Run(EMPTY_BOOKS, calls), clock, q).result.Success? <==>
                  && Postable(q.lines) && PeriodAccepts(b.periods, q.date, q.mayPostClosed)
                  && (forall k | 0 <= k < |q.lines| :: !NamedAsParent(calls, Resolve(b.accounts, q.lines[k].target).value))
                  && (forall i | 0 <= i < |b.entries| :: b.entries[i].source != q.source))
  {
    var b := Bootstrap(Run(EMPTY_BOOKS, calls), clock);
    forall k | 0 <= k < |q.lines|
      ensures var a := Resolve(b.accounts, q.lines[k].target);
              a.Some? && (b.accounts[a.value].postable && b.accounts[a.value].active <==> !NamedAsParent(calls, a.value))
    {
      RoleUsableIff(calls, clock, q.lines[k].target.code);
    }
    AcceptedIff(b, q);
  }

  lemma AcceptedIff(b: Books, q: PostRequest)
    requires Resolvable(b.accounts, q.lines)
    ensures PostTo(b, q).result.Success? <==>
              && Postable(q.lines) && PeriodAccepts(b.periods, q.date, q.mayPostClosed)
              && (forall k | 0 <= k < |q.lines| ::
                    var a := Resolve(b.accounts, q.lines[k].target).value; b.accounts[a].postable && b.accounts[a].active)
              && (forall i | 0 <= i < |b.entries| :: b.entries[i].source != q.source)
  {
  }

}
