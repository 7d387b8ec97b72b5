/**
 Single-flight refresh in the browser-facing server, composed with the backend's token rotation.

 Any number of requests of one browser session interleave at every await. Redis holds the session and
 a refresh lock with a time to live; time passes between any two steps; a refresh request that was
 sent reaches the backend at any later moment or never.
 */
module BffRefresh {
  import opened Prelude
  import Auth = AuthSessions

  datatype Session = Session(access: nat, refresh: nat, tenantSelected: bool)

  datatype Lock = Lock(owner: nat, expiresAt: int)

  // ---------------------------------------------------------------- the store

  /** A lock that has outlived its time is gone. */
  function Held(lock: Option<Lock>, now: int): (r: Option<Lock>) {
    if lock.Some? && now < lock.value.expiresAt then lock else None
  }

  /** SET key owner NX PX ttl. */
  function Acquired(lock: Option<Lock>, now: int, owner: nat, ttl: int): (r: (Option<Lock>, bool)) {
    if Held(lock, now).Some? then (lock, false) else (Some(Lock(owner, now + ttl)), true)
  }

  /** Compare the stored owner and delete only on a match. */
  function Released(lock: Option<Lock>, now: int, owner: nat): (r: Option<Lock>)
    ensures r == lock || (r.None? && lock.Some? && lock.value.owner == owner)
  {
    if Held(lock, now).Some? && lock.value.owner == owner then None else lock
  }

  class Store {
    var lock: Option<Lock>

    constructor ()
      ensures lock.None?
    {
      lock := None;
    }

    method AcquireRefreshLock(now: int, owner: nat, ttl: int) returns (ok: bool)
      modifies this
      ensures (lock, ok) == Acquired(old(lock), now, owner, ttl)
    {
      if lock.Some? && lock.value.expiresAt <= now {
        lock := None;
      }
      ok := lock.None?;
      if ok {
        lock := Some(Lock(owner, now + ttl));
      }
    }

    /** An expired lock is already gone for the script, so it is left as found. */
    method ReleaseRefreshLock(now: int, owner: nat)
      modifies this
      ensures lock == Released(old(lock), now, owner)
    {
      var current := if lock.Some? && now < lock.value.expiresAt then Some(lock.value.owner) else None;
      if current == Some(owner) {
        lock := None;
      }
    }
  }

  // ---------------------------------------------------------------- waiting for the holder

  datatype RefreshOutcome = Refreshed(access: nat) | Failed | TimedOut

  const POLL: int := 100

  /** The first `n` polls still saw the old access token. */
  ghost predicate Unchanged(seen: nat -> Option<Session>, previous: nat, n: nat) {
    forall k: nat | k < n :: seen(k).Some? && seen(k).value.access == previous
  }

  /**
   Poll until the deadline. `seen(k)` is the session the k-th poll reads, `clock(k)` the time of the check
   before it; a poll sleeps first. The first poll that sees anything else decides, and only the deadline
   ends the wait without an answer.
   */
  method AwaitRotatedToken(seen: nat -> Option<Session>, clock: nat -> int, previous: nat, deadline: int)
    returns (outcome: RefreshOutcome, polls: nat)
    requires forall k: nat :: clock(k) + POLL <= clock(k + 1)
    ensures outcome.TimedOut? ==> Unchanged(seen, previous, polls) && deadline <= clock(polls)
    ensures !outcome.TimedOut? ==>
              && polls > 0 && Unchanged(seen, previous, polls - 1) && clock(polls - 1) < deadline
              && (outcome.Failed? <==> seen(polls - 1).None?)
              && (outcome.Refreshed? ==> seen(polls - 1).value.access == outcome.access != previous)
  {
    polls := 0;
    while clock(polls) < deadline
      invariant Unchanged(seen, previous, polls)
      decreases deadline - clock(polls)
    {
      var latest := seen(polls);
      polls := polls + 1;
      if latest.None? {
        return Failed, polls;
      }
      if latest.value.access != previous {
        return Refreshed(latest.value.access), polls;
      }
      assert clock(polls - 1) + POLL <= clock(polls - 1 + 1);
    }
    outcome := TimedOut;
  }

  // ---------------------------------------------------------------- requests

  /**
   Where a proxied request is. `since` is when it acquired the lock; `at` is when it made the upstream
   call it is waiting for, or when the call it made was answered.
   */
  datatype Phase =
    | Calling(access: nat)
    | Unauthorized(stale: nat)
    | Waiting(stale: nat, deadline: int)
    | Holding(stale: nat, since: int)
    | Ready(token: nat, bound: bool, since: int)
    | Presented(token: nat, bound: bool, since: int, at: int)
    | Answered(token: nat, bound: bool, since: int, at: int, answer: Result<nat, Auth.Error>)
    | Rebinding(token: nat, bound: bool, since: int, at: int, answer: Result<nat, Auth.Error>)
    | Releasing(next: Phase)
    | Retrying(access: nat)
    | Clearing
    | Updating(selects: bool)
    | Saving(refresh: nat, bound: bool)
    | Done

  datatype World = World(
    now: int,
    session: Option<Session>,
    lock: Option<Lock>,
    requests: map<nat, Phase>,
    backend: Auth.State,
    inFlight: map<nat, nat>,
    sent: seq<nat>,
    issued: set<nat>,
    nextAccess: nat)

  /** Lock lifetime, longest wait, refresh-token lifetime, and the bound on each upstream call. */
  datatype Config = Config(ttl: int, wait: int, lifetime: int, timeout: int)

  datatype Action =
    | Tick(duration: nat)
    | Login(user: nat)
    | SignOut
    | Elsewhere(call: Auth.Call)
    | Arrive(id: nat)
    | Reject401(id: nat)
    | Respond(id: nat, carriesToken: bool, selectsTenant: bool)
    | Acquire(id: nat)
    | Poll(id: nat)
    | GiveUp(id: nat)
    | Recheck(id: nat)
    | Send(id: nat)
    | Deliver(id: nat)
    | Lose(id: nat)
    | Fail(id: nat)
    | Rebind(id: nat)
    | Throw(id: nat)
    | Write(id: nat)
    | Release(id: nat)
    | Clear(id: nat)
    | ReadForUpdate(id: nat)
    | Save(id: nat)

  predicate At(w: World, id: nat) {
    id in w.requests
  }

  predicate Enabled(w: World, a: Action) {
    match a
    case Tick(_) => true
    case Login(_) => true
    case SignOut => true
    // Another client has its own tokens; those of this session are secrets it does not know.
    case Elsewhere(c) => c.Refresh? ==> c.token !in w.issued
    case Arrive(id) => !At(w, id)
    case Reject401(id) => At(w, id) && w.requests[id].Calling?
    case Respond(id, _, _) => At(w, id) && (w.requests[id].Calling? || w.requests[id].Retrying?)
    case Acquire(id) => At(w, id) && w.requests[id].Unauthorized?
    case Poll(id) => At(w, id) && w.requests[id].Waiting?
    case GiveUp(id) => At(w, id) && w.requests[id].Waiting? && w.requests[id].deadline <= w.now
    case Recheck(id) => At(w, id) && w.requests[id].Holding?
    case Send(id) => At(w, id) && w.requests[id].Ready?
    case Deliver(id) => id in w.inFlight
    case Lose(id) => id in w.inFlight
    // Aborted or unreachable, answered with an error, or answered without tokens: fail closed.
    case Fail(id) => At(w, id) && (w.requests[id].Presented? || w.requests[id].Answered?)
    case Rebind(id) => At(w, id) && w.requests[id].Answered? && w.requests[id].answer.Success? && w.requests[id].bound
    // Neither reading the answer nor the re-binding call is guarded: both escape `rotate` through `finally`.
    case Throw(id) => At(w, id) && (w.requests[id].Rebinding? || (w.requests[id].Answered? && w.requests[id].answer.Success?))
    case Write(id) =>
      At(w, id) && (w.requests[id].Rebinding? || (w.requests[id].Answered? && !w.requests[id].bound)) && w.requests[id].answer.Success?
    case Release(id) => At(w, id) && w.requests[id].Releasing?
    case Clear(id) => At(w, id) && w.requests[id].Clearing?
    case ReadForUpdate(id) => At(w, id) && w.requests[id].Updating?
    case Save(id) => At(w, id) && w.requests[id].Saving?
  }

  function Move(w: World, id: nat, p: Phase): (r: World) {
    w.(requests := w.requests[id := p])
  }

  function Next(c: Config, w: World, a: Action): (r: World)
    requires Enabled(w, a)
  {
    match a
    case Tick(d) => w.(now := w.now + d)
    case Login(user) =>
      var token := |w.backend.tokens|;
      w.(backend := Auth.Open(w.backend, user, w.now, c.lifetime), issued := w.issued + {token},
         session := Some(Session(w.nextAccess, token, false)), nextAccess := w.nextAccess + 1)
    case SignOut => w.(session := None)
    case Elsewhere(call) => w.(backend := Auth.Step(w.backend, call))
    case Arrive(id) => Move(w, id, if w.session.Some? then Calling(w.session.value.access) else Done)
    case Reject401(id) => Move(w, id, Unauthorized(w.requests[id].access))
    case Respond(id, carriesToken, selectsTenant) => Move(w, id, if carriesToken then Updating(selectsTenant) else Done)
    case Acquire(id) =>
      var stale := w.requests[id].stale;
      var (lock, ok) := Acquired(w.lock, w.now, id, c.ttl);
      Move(w, id, if ok then Holding(stale, w.now) else Waiting(stale, w.now + c.wait)).(lock := lock)
    case Poll(id) =>
      Move(w, id, if w.session.None? then Clearing
                  else if w.session.value.access != w.requests[id].stale then Retrying(w.session.value.access)
                  else w.requests[id])
    case GiveUp(id) => Move(w, id, Done)
    case Recheck(id) =>
      var p := w.requests[id];
      Move(w, id, if w.session.None? then Releasing(Clearing)
                  else if w.session.value.access != p.stale then Releasing(Retrying(w.session.value.access))
                  else Ready(w.session.value.refresh, w.session.value.tenantSelected, p.since))
    case Send(id) =>
      var p := w.requests[id];
      Move(w, id, Presented(p.token, p.bound, p.since, w.now)).(inFlight := w.inFlight[id := p.token], sent := w.sent + [p.token])
    case Deliver(id) =>
      var token := w.inFlight[id];
      var o := Auth.Rotate(w.backend, token, w.now, c.lifetime);
      var w1 := w.(backend := o.state, inFlight := w.inFlight - {id},
                   issued := if o.result.Success? then w.issued + {o.result.value} else w.issued);
      // An answer that comes after the call was cut off reaches nobody.
      if At(w, id) && w.requests[id].Presented? && w.now < w.requests[id].at + c.timeout then
        Move(w1, id, Answered(w.requests[id].token, w.requests[id].bound, w.requests[id].since, w.now, o.result))
      else w1
    case Lose(id) => w.(inFlight := w.inFlight - {id})
    case Fail(id) => Move(w, id, Releasing(Clearing))
    case Rebind(id) =>
      var p := w.requests[id];
      Move(w, id, Rebinding(p.token, p.bound, p.since, w.now, p.answer))
    case Throw(id) => Move(w, id, Releasing(Done))
    case Write(id) =>
      var p := w.requests[id];
      Move(w, id, Releasing(Retrying(w.nextAccess))).(
        session := Some(Session(w.nextAccess, p.answer.value, p.bound)), nextAccess := w.nextAccess + 1)
    case Release(id) => Move(w, id, w.requests[id].next).(lock := Released(w.lock, w.now, id))
    case Clear(id) => Move(w, id, Done).(session := None)
    case ReadForUpdate(id) =>
      Move(w, id,
           if w.session.None? then Done
           else Saving(w.session.value.refresh, w.requests[id].selects || w.session.value.tenantSelected))
    case Save(id) =>
      var p := w.requests[id];
      Move(w, id, Done).(session := Some(Session(w.nextAccess, p.refresh, p.bound)), nextAccess := w.nextAccess + 1)
  }

  /** The worlds of a run, if every action was enabled in its turn. */
  function After(c: Config, w: World, run: seq<Action>): (r: Option<World>) {
    if run == [] then Some(w)
    else
      var before := After(c, w, run[..|run| - 1]);
      if before.Some? && Enabled(before.value, run[|run| - 1]) then Some(Next(c, before.value, run[|run| - 1])) else None
  }

  const START: World := World(0, None, None, map[], Auth.NO_SESSIONS, map[], [], {}, 0)
}
