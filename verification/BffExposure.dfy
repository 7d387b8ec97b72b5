/** How a refresh token comes to be sent twice: the exact bounds, the other ways, and that there are no more. */
module BffExposure {
  import opened Prelude
  import opened BffRefresh
  import opened BffSafety
  import opened BffTiming

  /** The session holds a spent token and nobody holds the lock. */
  ghost predicate Exposed(w: World) {
    Spent(w) && Held(w.lock, w.now).None?
  }

  // ---------------------------------------------------------------- reaching a world

  /** Some run leads from one world to another; given a slack, one in which every holder keeps its bounds. */
  ghost predicate Leads(c: Config, slack: Option<nat>, from: World, w: World) {
    exists run :: After(c, from, run) == Some(w) && (slack.Some? ==> Prompt(c, slack.value, from, run))
  }

  ghost predicate InBounds(c: Config, slack: Option<nat>, w: World) {
    slack.Some? ==> Bounded(c, slack.value, w)
  }

  lemma LeadsNowhere(c: Config, slack: Option<nat>, w: World)
    requires InBounds(c, slack, w)
    ensures Leads(c, slack, w, w)
  {
    assert After(c, w, []) == Some(w);
    assert slack.Some? ==> Prompt(c, slack.value, w, []);
  }

  lemma LeadsInBounds(c: Config, slack: Option<nat>, from: World, w: World)
    requires Leads(c, slack, from, w)
    ensures InBounds(c, slack, w)
  {
    var run :| After(c, from, run) == Some(w) && (slack.Some? ==> Prompt(c, slack.value, from, run));
    if slack.Some? {
      PromptEnds(c, slack.value, from, run);
    }
  }

  /** One more action. */
  lemma LeadsOn(c: Config, slack: Option<nat>, from: World, w: World, a: Action, w': World)
    requires Leads(c, slack, from, w) && Enabled(w, a) && w' == Next(c, w, a)
    requires slack.Some? ==> Orderly(w, a) && InBounds(c, slack, w')
    ensures Leads(c, slack, from, w')
  {
    var run :| After(c, from, run) == Some(w) && (slack.Some? ==> Prompt(c, slack.value, from, run));
    assert (run + [a])[..|run|] == run;
    assert After(c, from, run + [a]) == Some(w');
  }

  lemma InBoundsMove(c: Config, slack: Option<nat>, w: World, id: nat, p: Phase)
    requires InBounds(c, slack, w) && (slack.Some? ==> WithinBounds(c, slack.value, w.now, p))
    ensures InBounds(c, slack, Move(w, id, p))
  {
  }

  lemma MoveTwice(w: World, id: nat, p: Phase, q: Phase)
    ensures Move(Move(w, id, p), id, q) == Move(w, id, q)
  {
    assert w.requests[id := p][id := q] == w.requests[id := q];
  }

  /** An action that only moves a request on, to a phase that bounds nothing. */
  lemma LeadsMove(c: Config, slack: Option<nat>, from: World, w: World, a: Action, id: nat, p: Phase)
    requires Leads(c, slack, from, w) && Enabled(w, a) && Next(c, w, a) == Move(w, id, p) && !Holds(p) && Orderly(w, a)
    ensures Leads(c, slack, from, Move(w, id, p))
  {
    LeadsInBounds(c, slack, from, w);
    InBoundsMove(c, slack, w, id, p);
    LeadsOn(c, slack, from, w, a, Move(w, id, p));
  }

  // ---------------------------------------------------------------- what a refused request does

  function LockedBy(c: Config, w: World, id: nat): (r: World)
    requires w.session.Some?
  {
    Move(w, id, Holding(w.session.value.access, w.now)).(lock := Some(Lock(id, w.now + c.ttl)))
  }

  function SentBy(w: World, id: nat): (r: World)
    requires w.session.Some? && id in w.requests && w.requests[id].Holding?
  {
    var s := w.session.value;
    Move(w, id, Presented(s.refresh, s.tenantSelected, w.requests[id].since, w.now)).(
      inFlight := w.inFlight[id := s.refresh], sent := w.sent + [s.refresh])
  }

  lemma Refused(c: Config, slack: Option<nat>, from: World, w: World, id: nat)
    requires Leads(c, slack, from, w) && w.session.Some? && id !in w.requests
    ensures Leads(c, slack, from, Move(w, id, Unauthorized(w.session.value.access)))
  {
    var access := w.session.value.access;
    LeadsMove(c, slack, from, w, Arrive(id), id, Calling(access));
    MoveTwice(w, id, Calling(access), Unauthorized(access));
    LeadsMove(c, slack, from, Move(w, id, Calling(access)), Reject401(id), id, Unauthorized(access));
  }

  lemma AcquiresFree(c: Config, slack: Option<nat>, w: World, id: nat)
    requires w.session.Some? && Held(w.lock, w.now).None? && InBounds(c, slack, w)
    ensures var w1 := Move(w, id, Unauthorized(w.session.value.access));
            Enabled(w1, Acquire(id)) && Next(c, w1, Acquire(id)) == LockedBy(c, w, id)
    ensures InBounds(c, slack, LockedBy(c, w, id))
  {
    var access := w.session.value.access;
    MoveTwice(w, id, Unauthorized(access), Holding(access, w.now));
    InBoundsMove(c, slack, w, id, Holding(access, w.now));
  }

  lemma FreeLockHolds(c: Config, slack: Option<nat>, from: World, w: World, id: nat)
    requires Leads(c, slack, from, w) && w.session.Some? && Held(w.lock, w.now).None? && id !in w.requests
    ensures Leads(c, slack, from, LockedBy(c, w, id))
  {
    LeadsInBounds(c, slack, from, w);
    AcquiresFree(c, slack, w, id);
    Refused(c, slack, from, w, id);
    LeadsOn(c, slack, from, Move(w, id, Unauthorized(w.session.value.access)), Acquire(id), LockedBy(c, w, id));
  }

  lemma HolderSends(c: Config, slack: Option<nat>, from: World, w: World, id: nat)
    requires Leads(c, slack, from, w) && c.timeout >= 1
    requires w.session.Some? && id in w.requests && w.requests[id].Holding? && w.requests[id].stale == w.session.value.access
    ensures Leads(c, slack, from, SentBy(w, id))
  {
    var s := w.session.value;
    var since := w.requests[id].since;
    var ready, sending := Ready(s.refresh, s.tenantSelected, since), Presented(s.refresh, s.tenantSelected, since, w.now);
    LeadsInBounds(c, slack, from, w);
    assert slack.Some? ==> WithinBounds(c, slack.value, w.now, w.requests[id]);
    InBoundsMove(c, slack, w, id, ready);
    LeadsOn(c, slack, from, w, Recheck(id), Move(w, id, ready));
    MoveTwice(w, id, ready, sending);
    InBoundsMove(c, slack, w, id, sending);
    LeadsOn(c, slack, from, Move(w, id, ready), Send(id), SentBy(w, id));
  }

  /** With the lock free, such a request sends the session's refresh token. */
  lemma FreeLockSends(c: Config, slack: Option<nat>, from: World, w: World, id: nat)
    requires Leads(c, slack, from, w) && c.timeout >= 1
    requires w.session.Some? && Held(w.lock, w.now).None? && id !in w.requests
    ensures Leads(c, slack, from, SentBy(LockedBy(c, w, id), id))
  {
    FreeLockHolds(c, slack, from, w, id);
    HolderSends(c, slack, from, LockedBy(c, w, id), id);
  }

  /** A run from here on sends a token twice. */
  ghost predicate CanRepeat(c: Config, slack: Option<nat>, from: World) {
    exists run :: After(c, from, run).Some? && !NoRepeats(After(c, from, run).value.sent)
               && (slack.Some? ==> Prompt(c, slack.value, from, run))
  }

  /** From an exposed world the next request that finds its access token refused sends the token again. */
  lemma ExposedReplays(c: Config, slack: Option<nat>, from: World, w: World, id: nat)
    requires Leads(c, slack, from, w) && Exposed(w) && id !in w.requests && c.timeout >= 1
    ensures var w' := SentBy(LockedBy(c, w, id), id); Leads(c, slack, from, w') && !NoRepeats(w'.sent)
    ensures CanRepeat(c, slack, from)
  {
    FreeLockSends(c, slack, from, w, id);
    var w' := SentBy(LockedBy(c, w, id), id);
    var k :| 0 <= k < |w.sent| && w.sent[k] == w.session.value.refresh;
    assert w'.sent[k] == w'.sent[|w.sent|];
    var run :| After(c, from, run) == Some(w') && (slack.Some? ==> Prompt(c, slack.value, from, run));
  }

  // ---------------------------------------------------------------- too short a lock

  /** After signing in. */
  function SignedIn(c: Config): (w: World) {
    START.(backend := Auth.Open(Auth.NO_SESSIONS, 0, 0, c.lifetime), issued := {0}, session := Some(Session(0, 0, false)), nextAccess := 1)
  }

  lemma SignsIn(c: Config, slack: Option<nat>)
    ensures Leads(c, slack, START, SignedIn(c))
  {
    LeadsNowhere(c, slack, START);
    assert START.issued + {0} == {0};
    LeadsOn(c, slack, START, START, Login(0), SignedIn(c));
  }

  /** After also selecting a tenant, in a request of its own. */
  function WithTenant(c: Config): (w: World) {
    SignedIn(c).(requests := map[0 := Done], session := Some(Session(1, 0, true)), nextAccess := 2)
  }

  lemma SelectsTenant(c: Config, slack: Option<nat>)
    ensures Leads(c, slack, START, WithTenant(c))
  {
    var w := SignedIn(c);
    SignsIn(c, slack);
    ReadsToSave(c, slack, START, w, 0, true);
    var w1 := Move(w, 0, Saving(0, true));
    assert w1.requests[0 := Done] == map[0 := Done];
    LeadsOn(c, slack, START, w1, Save(0), WithTenant(c));
  }

  lemma GetsToken(c: Config, slack: Option<nat>, from: World, w: World, id: nat, selects: bool)
    requires Leads(c, slack, from, w) && w.session.Some? && id !in w.requests
    ensures Leads(c, slack, from, Move(w, id, Updating(selects)))
  {
    var access := w.session.value.access;
    LeadsMove(c, slack, from, w, Arrive(id), id, Calling(access));
    MoveTwice(w, id, Calling(access), Updating(selects));
    LeadsMove(c, slack, from, Move(w, id, Calling(access)), Respond(id, true, selects), id, Updating(selects));
  }

  /** A request whose response carries an access token, up to its unlocked session write. */
  lemma ReadsToSave(c: Config, slack: Option<nat>, from: World, w: World, id: nat, selects: bool)
    requires Leads(c, slack, from, w) && w.session.Some? && id !in w.requests
    ensures Leads(c, slack, from, Move(w, id, Saving(w.session.value.refresh, selects || w.session.value.tenantSelected)))
  {
    var saving := Saving(w.session.value.refresh, selects || w.session.value.tenantSelected);
    GetsToken(c, slack, from, w, id, selects);
    MoveTwice(w, id, Updating(selects), saving);
    LeadsMove(c, slack, from, Move(w, id, Updating(selects)), ReadForUpdate(id), id, saving);
  }

  /** The other requests: the one that selected the tenant, and perhaps one that lost the lock to the holder at once. */
  function Beside(c: Config, waiting: bool): (others: map<nat, Phase>) {
    if waiting then map[0 := Done, 2 := Waiting(1, c.wait)] else map[0 := Done]
  }

  /** What is known of a holder of a tenant's session that takes its time. */
  ghost predicate SlowHolder(c: Config, slack: nat, waiting: bool, w: World, p: Phase, now: int) {
    && Leads(c, Some(slack), START, w)
    && w.requests == Beside(c, waiting)[1 := p] && w.now == now && w.lock == Some(Lock(1, c.ttl))
    && w.session == Some(Session(1, 0, true)) && w.sent == [0]
    && (p.Presented? ==> w.inFlight == map[1 := 0] && w.backend == Auth.Open(Auth.NO_SESSIONS, 0, 0, c.lifetime))
  }

  lemma SlowTick(c: Config, slack: nat, waiting: bool, w: World, p: Phase, d: nat) returns (w': World)
    requires SlowHolder(c, slack, waiting, w, p, w.now) && WithinBounds(c, slack, w.now + d, p)
    ensures SlowHolder(c, slack, waiting, w', p, w.now + d)
  {
    w' := w.(now := w.now + d);
    LeadsOn(c, Some(slack), START, w, Tick(d), w');
  }

  /** The holder has locked, and the other request, if there is one, has found the lock taken. */
  function JustLocked(c: Config, waiting: bool): (w: World) {
    WithTenant(c).(requests := Beside(c, waiting)[1 := Holding(1, 0)], lock := Some(Lock(1, c.ttl)))
  }

  lemma LocksAlone(c: Config, slack: nat)
    ensures Leads(c, Some(slack), START, JustLocked(c, false))
  {
    var w := WithTenant(c);
    SelectsTenant(c, Some(slack));
    FreeLockHolds(c, Some(slack), START, w, 1);
    assert LockedBy(c, w, 1) == JustLocked(c, false);
  }

  /** With the lock live, another refused request waits. */
  lemma LockTaken(c: Config, w: World, id: nat, stale: nat)
    requires id in w.requests && w.requests[id] == Unauthorized(stale) && Held(w.lock, w.now).Some?
    ensures Next(c, w, Acquire(id)) == Move(w, id, Waiting(stale, w.now + c.wait))
  {
  }

  /** A refused request that loses the lock. */
  lemma Loses(c: Config, slack: Option<nat>, from: World, w: World, id: nat)
    requires Leads(c, slack, from, w) && w.session.Some? && id !in w.requests && Held(w.lock, w.now).Some?
    ensures Leads(c, slack, from, Move(w, id, Waiting(w.session.value.access, w.now + c.wait)))
  {
    var access := w.session.value.access;
    var w1 := Move(w, id, Unauthorized(access));
    Refused(c, slack, from, w, id);
    LockTaken(c, w1, id, access);
    MoveTwice(w, id, Unauthorized(access), Waiting(access, w.now + c.wait));
    LeadsMove(c, slack, from, w1, Acquire(id), id, Waiting(access, w.now + c.wait));
  }

  lemma WaiterBeside(c: Config)
    ensures Move(JustLocked(c, false), 2, Waiting(1, c.wait)) == JustLocked(c, true)
  {
    assert JustLocked(c, false).requests[2 := Waiting(1, c.wait)] == JustLocked(c, true).requests;
  }

  lemma SlowLocks(c: Config, slack: nat, waiting: bool)
    requires waiting ==> c.ttl > 0
    ensures Leads(c, Some(slack), START, JustLocked(c, waiting))
  {
    LocksAlone(c, slack);
    if waiting {
      Loses(c, Some(slack), START, JustLocked(c, false), 2);
      WaiterBeside(c);
    }
  }

  lemma SlowStarts(c: Config, slack: nat, waiting: bool) returns (w: World)
    requires waiting ==> c.ttl > 0
    ensures Leads(c, Some(slack), START, w) && w == JustLocked(c, waiting).(now := slack)
  {
    SlowLocks(c, slack, waiting);
    w := JustLocked(c, waiting).(now := slack);
    LeadsOn(c, Some(slack), START, JustLocked(c, waiting), Tick(slack), w);
  }

  /** Having locked at once, it takes a whole stretch before its first call. */
  lemma SlowSends(c: Config, slack: nat, waiting: bool) returns (w: World)
    requires c.timeout >= 1 && (waiting ==> c.ttl > 0)
    ensures SlowHolder(c, slack, waiting, w, Presented(0, true, 0, slack), slack)
  {
    var w1 := SlowStarts(c, slack, waiting);
    HolderSends(c, Some(slack), START, w1, 1);
    w := SentBy(w1, 1);
    assert w.requests == Beside(c, waiting)[1 := Presented(0, true, 0, slack)];
  }

  lemma SlowAnswer(c: Config, slack: nat, waiting: bool, w: World) returns (w': World)
    requires SlowHolder(c, slack, waiting, w, Presented(0, true, 0, slack), w.now)
    requires slack <= w.now < slack + c.timeout <= c.lifetime
    ensures SlowHolder(c, slack, waiting, w', Answered(0, true, 0, w.now, Success(1)), w.now)
  {
    var p := Answered(0, true, 0, w.now, Success(1));
    w' := Next(c, w, Deliver(1));
    assert Auth.Rotate(w.backend, 0, w.now, c.lifetime).result == Success(1);
    assert w'.requests == Beside(c, waiting)[1 := p];
    LeadsOn(c, Some(slack), START, w, Deliver(1), w');
  }

  lemma SlowRebind(c: Config, slack: nat, waiting: bool, w: World, at: int) returns (w': World)
    requires SlowHolder(c, slack, waiting, w, Answered(0, true, 0, at, Success(1)), w.now) && c.timeout >= 1
    ensures SlowHolder(c, slack, waiting, w', Rebinding(0, true, 0, w.now, Success(1)), w.now)
  {
    var p := Rebinding(0, true, 0, w.now, Success(1));
    w' := Move(w, 1, p);
    assert w'.requests == Beside(c, waiting)[1 := p];
    LeadsOn(c, Some(slack), START, w, Rebind(1), w');
  }

  lemma SlowFirstCall(c: Config, slack: nat, waiting: bool) returns (w: World, at: int)
    requires c.timeout >= 1 && (waiting ==> c.ttl > 0) && slack + c.timeout <= c.lifetime
    ensures at == slack + c.timeout - 1 && SlowHolder(c, slack, waiting, w, Answered(0, true, 0, at, Success(1)), at)
  {
    var w0 := SlowSends(c, slack, waiting);
    var w1 := SlowTick(c, slack, waiting, w0, Presented(0, true, 0, slack), c.timeout - 1);
    w := SlowAnswer(c, slack, waiting, w1);
    at := w.now;
  }

  lemma SlowRebinds(c: Config, slack: nat, waiting: bool) returns (w: World, at: int)
    requires c.timeout >= 1 && (waiting ==> c.ttl > 0) && slack + c.timeout <= c.lifetime
    ensures at == 2 * slack + c.timeout - 1 && SlowHolder(c, slack, waiting, w, Rebinding(0, true, 0, at, Success(1)), at)
  {
    var w0, answered := SlowFirstCall(c, slack, waiting);
    var w1 := SlowTick(c, slack, waiting, w0, Answered(0, true, 0, answered, Success(1)), slack);
    w := SlowRebind(c, slack, waiting, w1, answered);
    at := w1.now;
  }

  lemma SlowSecondCall(c: Config, slack: nat, waiting: bool) returns (w: World, p: Phase)
    requires c.timeout >= 1 && (waiting ==> c.ttl > 0) && slack + c.timeout <= c.lifetime
    ensures SlowHolder(c, slack, waiting, w, p, LongestHold(c, slack)) && Holds(p) && p.since == 0
  {
    var w1, at := SlowRebinds(c, slack, waiting);
    p := Rebinding(0, true, 0, at, Success(1));
    w := SlowTick(c, slack, waiting, w1, p, c.timeout - 1 + slack);
  }

  /** A holder that uses up every stretch and every call outlasts a lock that is short enough. */
  lemma SlowHolderExposed(c: Config, slack: nat) returns (w: World)
    requires c.timeout >= 1 && slack + c.timeout <= c.lifetime && c.ttl <= LongestHold(c, slack)
    ensures Leads(c, Some(slack), START, w) && Exposed(w) && 2 !in w.requests
  {
    var p;
    w, p := SlowSecondCall(c, slack, false);
    assert w.sent[0] == 0;
  }

  /**
   The exact bounds. With a tenant selected, holders that keep theirs can still send a token twice
   exactly when two calls and three stretches can outlast the lock. The start-up assertion asks only
   for one call to be shorter than the lock.
   */
  lemma BoundsExact(c: Config, slack: nat)
    requires c.timeout >= 1 && slack + c.timeout <= c.lifetime
    ensures CanRepeat(c, Some(slack), START) <==> c.ttl <= LongestHold(c, slack)
  {
    if c.ttl <= LongestHold(c, slack) {
      var w := SlowHolderExposed(c, slack);
      ExposedReplays(c, Some(slack), START, w, 2);
    } else {
      forall run | Prompt(c, slack, START, run) && After(c, START, run).Some? ensures NoRepeats(After(c, START, run).value.sent) {
        LongLockSuffices(c, slack, run, 0);
      }
    }
  }

  /** BFF_REFRESH_LOCK_TTL_MS, BFF_REFRESH_WAIT_MS and BFF_REFRESH_TIMEOUT_MS as shipped, with thirty-day tokens. */
  const SHIPPED: Config := Config(15_000, 20_000, 2_592_000_000, 10_000)

  /** The shipped bounds pass the start-up assertion and allow a replay, with no time lost between calls. */
  lemma ShippedBoundsReplay()
    ensures SHIPPED.timeout < SHIPPED.ttl < SHIPPED.wait && CanRepeat(SHIPPED, Some(0), START)
  {
    BoundsExact(SHIPPED, 0);
  }

  // ---------------------------------------------------------------- a holder that does not write

  /** A holder that has presented the session's token and still owns the lock. */
  ghost predicate Midway(c: Config, w: World, id: nat) {
    && id in w.requests && Presenting(w.requests[id]) && Spent(w) && w.lock.Some? && w.lock.value.owner == id
  }

  /** Failing or throwing after presenting gives the lock back with the spent token still in the session. */
  lemma AbandonExposes(c: Config, from: World, w: World, id: nat, a: Action)
    requires Leads(c, None, from, w) && Midway(c, w, id) && Enabled(w, a) && (a == Fail(id) || a == Throw(id))
    ensures var w1 := Next(c, w, a);
            Enabled(w1, Release(id)) && Leads(c, None, from, Next(c, w1, Release(id))) && Exposed(Next(c, w1, Release(id)))
  {
    var w1 := Next(c, w, a);
    LeadsOn(c, None, from, w, a, w1);
    LeadsOn(c, None, from, w1, Release(id), Next(c, w1, Release(id)));
  }

  /** With or without a tenant, the first refresh after signing in is midway, its call under way. */
  lemma FirstRefresh(c: Config, w: World) returns (w': World)
    requires c.timeout >= 1 && (w == SignedIn(c) || w == WithTenant(c))
    ensures Leads(c, None, START, w') && Midway(c, w', 1) && 2 !in w'.requests && 3 !in w'.requests
    ensures w'.requests[1] == Presented(0, w.session.value.tenantSelected, 0, 0) && w'.inFlight == map[1 := 0]
    ensures w'.backend == w.backend && w'.now == 0 && w'.session == w.session && w'.lock == Some(Lock(1, c.ttl))
  {
    SignsIn(c, None);
    SelectsTenant(c, None);
    FreeLockSends(c, None, START, w, 1);
    w' := SentBy(LockedBy(c, w, 1), 1);
    assert w'.sent[0] == 0;
  }

  /** The same refresh, answered with the next token. */
  lemma FirstAnswer(c: Config, w: World) returns (w': World)
    requires c.timeout >= 1 && c.lifetime > 0 && (w == SignedIn(c) || w == WithTenant(c))
    ensures Leads(c, None, START, w') && Midway(c, w', 1) && 2 !in w'.requests && 3 !in w'.requests
    ensures w'.requests[1] == Answered(0, w.session.value.tenantSelected, 0, 0, Success(1)) && w'.now == 0
  {
    var w1 := FirstRefresh(c, w);
    w' := Next(c, w1, Deliver(1));
    assert Auth.Rotate(w1.backend, 0, 0, c.lifetime).result == Success(1);
    LeadsOn(c, None, START, w1, Deliver(1), w');
  }

  /** A refresh that fails, say because its call was cut off: the next request is in before the session is cleared. */
  lemma FailureReplays(c: Config)
    requires c.timeout >= 1
    ensures CanRepeat(c, None, START)
  {
    var w := FirstRefresh(c, SignedIn(c));
    AbandonExposes(c, START, w, 1, Fail(1));
    ExposedReplays(c, None, START, Next(c, Next(c, w, Fail(1)), Release(1)), 2);
  }

  /** An answer that cannot be read throws past the session write, tenant or not. */
  lemma UnreadableAnswerReplays(c: Config)
    requires c.timeout >= 1 && c.lifetime > 0
    ensures CanRepeat(c, None, START)
  {
    var w := FirstAnswer(c, SignedIn(c));
    AbandonExposes(c, START, w, 1, Throw(1));
    ExposedReplays(c, None, START, Next(c, Next(c, w, Throw(1)), Release(1)), 2);
  }

  lemma FirstRebind(c: Config) returns (w: World)
    requires c.timeout >= 1 && c.lifetime > 0
    ensures Leads(c, None, START, w) && Midway(c, w, 1) && w.requests[1].Rebinding? && 2 !in w.requests
  {
    var w0 := FirstAnswer(c, WithTenant(c));
    w := Next(c, w0, Rebind(1));
    LeadsOn(c, None, START, w0, Rebind(1), w);
  }

  /** So does an answer without tokens, which ends as a failure. */
  lemma TokenlessAnswerReplays(c: Config)
    requires c.timeout >= 1 && c.lifetime > 0
    ensures CanRepeat(c, None, START)
  {
    var w := FirstAnswer(c, SignedIn(c));
    AbandonExposes(c, START, w, 1, Fail(1));
    ExposedReplays(c, None, START, Next(c, Next(c, w, Fail(1)), Release(1)), 2);
  }

  /** So does a re-binding call that is cut off. */
  lemma RebindThrowReplays(c: Config)
    requires c.timeout >= 1 && c.lifetime > 0
    ensures CanRepeat(c, None, START)
  {
    var w1 := FirstRebind(c);
    AbandonExposes(c, START, w1, 1, Throw(1));
    ExposedReplays(c, None, START, Next(c, Next(c, w1, Throw(1)), Release(1)), 2);
  }

  // ---------------------------------------------------------------- an unlocked write over a rotation

  /** Request 1 has read the session in order to save it; request 2 then presents the token it read. */
  lemma OvertakenPresents(c: Config) returns (w: World)
    requires c.timeout >= 1
    ensures Leads(c, None, START, w)
    ensures w.requests == map[1 := Saving(0, false), 2 := Presented(0, false, 0, 0)]
    ensures w.inFlight == map[2 := 0] && w.sent == [0] && w.now == 0 && w.lock == Some(Lock(2, c.ttl))
    ensures w.backend == Auth.Open(Auth.NO_SESSIONS, 0, 0, c.lifetime)
  {
    SignsIn(c, None);
    ReadsToSave(c, None, START, SignedIn(c), 1, false);
    var w0 := Move(SignedIn(c), 1, Saving(0, false));
    FreeLockSends(c, None, START, w0, 2);
    w := SentBy(LockedBy(c, w0, 2), 2);
    assert w.requests == map[1 := Saving(0, false), 2 := Presented(0, false, 0, 0)];
  }

  /** Request 2 gets the next token, writes it and gives the lock back. */
  lemma OvertakenRotates(c: Config) returns (w: World)
    requires c.timeout >= 1 && c.lifetime > 0
    ensures Leads(c, None, START, w) && w.sent == [0] && Held(w.lock, w.now).None?
    ensures w.requests.Keys == {1, 2} && w.requests[1] == Saving(0, false)
  {
    var w0 := OvertakenPresents(c);
    assert Auth.Rotate(w0.backend, 0, 0, c.lifetime).result == Success(1);
    var w1 := Next(c, w0, Deliver(2));
    LeadsOn(c, None, START, w0, Deliver(2), w1);
    assert w1.requests[2] == Answered(0, false, 0, 0, Success(1));
    w := WritesAndReleases(c, w1, 2);
  }

  lemma WritesAndReleases(c: Config, w: World, id: nat) returns (w': World)
    requires Leads(c, None, START, w) && Enabled(w, Write(id)) && w.lock.Some? && w.lock.value.owner == id
    ensures Leads(c, None, START, w') && w'.sent == w.sent && Held(w'.lock, w'.now).None?
    ensures w'.requests.Keys == w.requests.Keys && forall i | i in w.requests && i != id :: w'.requests[i] == w.requests[i]
  {
    var w1 := Next(c, w, Write(id));
    LeadsOn(c, None, START, w, Write(id), w1);
    w' := Next(c, w1, Release(id));
    LeadsOn(c, None, START, w1, Release(id), w');
  }

  /** Then request 1 saves the token it read, which is spent, and request 3 sends it again. */
  lemma StaleSaveReplays(c: Config)
    requires c.timeout >= 1 && c.lifetime > 0
    ensures CanRepeat(c, None, START)
  {
    var w := OvertakenRotates(c);
    var w1 := Next(c, w, Save(1));
    LeadsOn(c, None, START, w, Save(1), w1);
    assert w1.sent[0] == 0;
    ExposedReplays(c, None, START, w1, 3);
  }
}
