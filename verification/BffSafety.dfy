/** When single-flight refresh is single-flight: the hypotheses, the invariant, and why each is needed. */
module BffSafety {
  import opened Prelude
  import opened BffRefresh

  // ---------------------------------------------------------------- hypotheses on a run

  predicate Holds(p: Phase) {
    p.Holding? || p.Ready? || Presenting(p)
  }

  /** Has sent a refresh token upstream and has not yet written the session. */
  predicate Presenting(p: Phase) {
    p.Presented? || p.Answered? || p.Rebinding?
  }

  /** Every holder that has presented a token is still inside its lock's time to live. */
  ghost predicate Timely(c: Config, w: World) {
    forall id | id in w.requests && Presenting(w.requests[id]) :: w.now < w.requests[id].since + c.ttl
  }

  /**
   A holder that presented a token goes on to write the session, and an unlocked read-then-write finds
   at its write the session's refresh token it read.
   */
  predicate Orderly(w: World, a: Action)
    requires Enabled(w, a)
  {
    && !a.Fail? && !a.Throw?
    && (a.Save? ==> w.session.Some? && w.session.value.refresh == w.requests[a.id].refresh)
  }

  /** All actions of the run enabled and orderly, all its worlds timely. */
  ghost predicate WellBehaved(c: Config, w: World, run: seq<Action>)
    decreases |run|
  {
    && Timely(c, w)
    && (run == [] ||
        var init, a := run[..|run| - 1], run[|run| - 1];
        var before := After(c, w, init);
        && WellBehaved(c, w, init) && before.Some? && Enabled(before.value, a) && Orderly(before.value, a)
        && Timely(c, Next(c, before.value, a)))
  }

  // ---------------------------------------------------------------- the invariant

  /** Within its time to live, a holder's lock is in the store under its own name. */
  ghost predicate Ownership(c: Config, w: World) {
    forall id | id in w.requests && Holds(w.requests[id]) ::
      var since := w.requests[id].since;
      since <= w.now && (w.now < since + c.ttl ==> w.lock == Some(Lock(id, since + c.ttl)))
  }

  /** A spent token is in the session only while the lock's owner is the one that presented it. */
  ghost predicate SpentGuarded(w: World) {
    w.session.Some? && w.session.value.refresh in w.sent ==>
      && w.lock.Some? && w.lock.value.owner in w.requests
      && Presenting(w.requests[w.lock.value.owner])
      && w.requests[w.lock.value.owner].token == w.session.value.refresh
  }

  /** What a holder inside its time to live is about to send has not been sent. */
  ghost predicate ReadyUnsent(c: Config, w: World) {
    forall id | id in w.requests && w.requests[id].Ready? ::
      w.requests[id].token in w.issued && (w.now < w.requests[id].since + c.ttl ==> w.requests[id].token !in w.sent)
  }

  /** A replacement token in an answer has not been sent either. */
  ghost predicate AnswersUnsent(w: World) {
    forall id | id in w.requests && (w.requests[id].Answered? || w.requests[id].Rebinding?) && w.requests[id].answer.Success? ::
      w.requests[id].answer.value in w.issued && w.requests[id].answer.value !in w.sent
  }

  predicate NoRepeats(s: seq<nat>) {
    forall i, j | 0 <= i < j < |s| :: s[i] != s[j]
  }

  ghost predicate Ledgered(w: World) {
    && (forall t | t in w.issued :: t < |w.backend.tokens|)
    && (forall t | t in w.sent :: t in w.issued)
    && (w.session.Some? ==> w.session.value.refresh in w.issued)
    && (forall id | id in w.requests && w.requests[id].Saving? :: w.requests[id].refresh in w.issued)
    && NoRepeats(w.sent)
  }

  /** Only a sent token is used; a token in flight is not used yet and in flight once. */
  ghost predicate BackendAgrees(w: World) {
    && (forall t | t in w.issued && t < |w.backend.tokens| && w.backend.tokens[t].usedAt.Some? :: t in w.sent)
    && (forall id | id in w.inFlight ::
          && w.inFlight[id] in w.issued && w.inFlight[id] in w.sent && w.inFlight[id] < |w.backend.tokens|
          && w.backend.tokens[w.inFlight[id]].usedAt.None?)
    && (forall i, j | i in w.inFlight && j in w.inFlight && i != j :: w.inFlight[i] != w.inFlight[j])
  }

  ghost predicate Inv(c: Config, w: World) {
    Ownership(c, w) && SpentGuarded(w) && ReadyUnsent(c, w) && AnswersUnsent(w) && Ledgered(w) && BackendAgrees(w)
  }

  /** Two holders that are both inside their time to live are one. */
  lemma OneHolder(c: Config, w: World, i: nat, j: nat)
    requires Ownership(c, w) && i in w.requests && j in w.requests && Holds(w.requests[i]) && Holds(w.requests[j])
    requires w.now < w.requests[i].since + c.ttl && w.now < w.requests[j].since + c.ttl
    ensures i == j
  {
    assert w.lock == Some(Lock(i, w.requests[i].since + c.ttl));
    assert w.lock == Some(Lock(j, w.requests[j].since + c.ttl));
  }

  // ---------------------------------------------------------------- each kind of action preserves it

  lemma InvTick(c: Config, w: World, d: nat)
    requires Inv(c, w)
    ensures Inv(c, Next(c, w, Tick(d)))
  {
  }

  lemma InvLogin(c: Config, w: World, user: nat)
    requires Inv(c, w)
    ensures Inv(c, Next(c, w, Login(user)))
  {
    var w' := Next(c, w, Login(user));
    assert |w.backend.tokens| !in w.sent;
    assert forall t | 0 <= t < |w.backend.tokens| :: w'.backend.tokens[t] == w.backend.tokens[t];
  }

  lemma InvElsewhere(c: Config, w: World, call: Auth.Call)
    requires Inv(c, w) && Enabled(w, Elsewhere(call))
    ensures Inv(c, Next(c, w, Elsewhere(call)))
  {
    var w' := Next(c, w, Elsewhere(call));
    assert |w.backend.tokens| <= |w'.backend.tokens|;
    assert forall t | t in w.issued :: w'.backend.tokens[t] == w.backend.tokens[t];
  }

  /** Steps that move a request among phases that hold nothing and remember no token. */
  lemma InvPlainMove(c: Config, w: World, id: nat, p: Phase)
    requires Inv(c, w) && (id in w.requests ==> !Presenting(w.requests[id])) && !Holds(p)
    requires p.Saving? ==> p.refresh in w.issued
    ensures Inv(c, Move(w, id, p))
  {
  }

  ghost predicate Spent(w: World) {
    w.session.Some? && w.session.value.refresh in w.sent
  }

  /** While the session holds a spent token, the lock is held. */
  lemma SpentMeansHeld(c: Config, w: World)
    requires Inv(c, w) && Timely(c, w) && Spent(w)
    ensures Held(w.lock, w.now).Some? && w.lock.value.owner in w.requests && Presenting(w.requests[w.lock.value.owner])
  {
    var o := w.lock.value.owner;
    assert w.now < w.requests[o].since + c.ttl;
  }

  lemma InvAcquire(c: Config, w: World, id: nat)
    requires Inv(c, w) && Timely(c, w) && Enabled(w, Acquire(id))
    ensures Inv(c, Next(c, w, Acquire(id)))
  {
    var w' := Next(c, w, Acquire(id));
    if Spent(w) {
      SpentMeansHeld(c, w);
    }
    if Held(w.lock, w.now).None? {
      assert w'.lock == Some(Lock(id, w.now + c.ttl));
      forall i | i in w'.requests && Holds(w'.requests[i]) && i != id
        ensures !(w'.now < w'.requests[i].since + c.ttl)
      {
        assert i in w.requests && Holds(w.requests[i]);
      }
    } else {
      InvPlainMove(c, w, id, w'.requests[id]);
    }
  }

  /** A holder inside its time to live that has sent nothing yet does not find a spent token. */
  lemma HolderFindsUnspent(c: Config, w: World, id: nat)
    requires Inv(c, w) && Timely(c, w) && id in w.requests && Holds(w.requests[id]) && !Presenting(w.requests[id])
    requires w.now < w.requests[id].since + c.ttl
    ensures !Spent(w)
  {
    if Spent(w) {
      SpentMeansHeld(c, w);
    }
  }

  lemma InvRecheck(c: Config, w: World, id: nat)
    requires Inv(c, w) && Timely(c, w) && Enabled(w, Recheck(id))
    ensures Inv(c, Next(c, w, Recheck(id)))
  {
    var w' := Next(c, w, Recheck(id));
    if w.now < w.requests[id].since + c.ttl {
      HolderFindsUnspent(c, w, id);
    }
    if !w'.requests[id].Ready? {
      InvPlainMove(c, w, id, w'.requests[id]);
    }
  }

  lemma InvSend(c: Config, w: World, id: nat)
    requires Inv(c, w) && Timely(c, w) && Enabled(w, Send(id)) && Timely(c, Next(c, w, Send(id)))
    ensures Inv(c, Next(c, w, Send(id)))
  {
    var w' := Next(c, w, Send(id));
    assert w'.now < w'.requests[id].since + c.ttl;
    HolderFindsUnspent(c, w, id);
    SendRequests(c, w, id);
    SendBackend(c, w, id);
  }

  lemma SendRequests(c: Config, w: World, id: nat)
    requires Inv(c, w) && Timely(c, w) && Enabled(w, Send(id)) && !Spent(w)
    requires w.now < w.requests[id].since + c.ttl
    ensures var w' := Next(c, w, Send(id)); Ownership(c, w') && SpentGuarded(w') && ReadyUnsent(c, w') && AnswersUnsent(w')
  {
    var w' := Next(c, w, Send(id));
    assert w.lock == Some(Lock(id, w.requests[id].since + c.ttl));
    assert forall t :: t in w'.sent <==> t in w.sent || t == w.requests[id].token;
    forall i | i in w.requests && Holds(w.requests[i]) && i != id ensures w.requests[i].since + c.ttl <= w.now {
      if w.now < w.requests[i].since + c.ttl {
        OneHolder(c, w, i, id);
      }
    }
  }

  lemma SendBackend(c: Config, w: World, id: nat)
    requires Inv(c, w) && Enabled(w, Send(id))
    requires w.now < w.requests[id].since + c.ttl
    ensures Ledgered(Next(c, w, Send(id))) && BackendAgrees(Next(c, w, Send(id)))
  {
    var w' := Next(c, w, Send(id));
    var token := w.requests[id].token;
    assert token in w.issued && token !in w.sent;
    assert forall t :: t in w'.sent <==> t in w.sent || t == token;
  }

  /** A delivery uses one token, adds at most the next one, and is never a reuse. */
  lemma DeliveryEffect(c: Config, w: World, id: nat)
    requires Ledgered(w) && BackendAgrees(w) && Enabled(w, Deliver(id))
    ensures var o := Auth.Rotate(w.backend, w.inFlight[id], w.now, c.lifetime);
            && o.result != Failure(Auth.ReuseDetected)
            && (o.result.Success? ==> o.result.value == |w.backend.tokens| && |o.state.tokens| == |w.backend.tokens| + 1)
            && (o.result.Success? ==> o.state.tokens[|w.backend.tokens|].usedAt.None?)
            && (o.result.Failure? ==> o.state.tokens == w.backend.tokens)
            && (forall t | 0 <= t < |w.backend.tokens| && t != w.inFlight[id] :: o.state.tokens[t] == w.backend.tokens[t])
    ensures |w.backend.tokens| !in w.issued && |w.backend.tokens| !in w.sent
  {
    assert w.backend.tokens[w.inFlight[id]].usedAt.None?;
  }

  lemma DeliverLedgered(c: Config, w: World, id: nat)
    requires Ledgered(w) && BackendAgrees(w) && Enabled(w, Deliver(id))
    ensures Ledgered(Next(c, w, Deliver(id)))
  {
    DeliveryEffect(c, w, id);
    var w' := Next(c, w, Deliver(id));
    assert w.issued <= w'.issued && w'.sent == w.sent && w'.session == w.session;
  }

  lemma DeliverBackend(c: Config, w: World, id: nat)
    requires Ledgered(w) && BackendAgrees(w) && Enabled(w, Deliver(id))
    ensures BackendAgrees(Next(c, w, Deliver(id)))
  {
    DeliveryEffect(c, w, id);
    var w' := Next(c, w, Deliver(id));
    assert w'.sent == w.sent && w.issued <= w'.issued <= w.issued + {|w.backend.tokens|};
  }

  lemma DeliverRequests(c: Config, w: World, id: nat)
    requires Inv(c, w) && Enabled(w, Deliver(id))
    ensures var w' := Next(c, w, Deliver(id)); Ownership(c, w') && SpentGuarded(w') && ReadyUnsent(c, w')
  {
    var w' := Next(c, w, Deliver(id));
    assert w.issued <= w'.issued;
  }

  lemma DeliverAnswers(c: Config, w: World, id: nat)
    requires Inv(c, w) && Enabled(w, Deliver(id))
    ensures AnswersUnsent(Next(c, w, Deliver(id)))
  {
    DeliveryEffect(c, w, id);
    var w' := Next(c, w, Deliver(id));
    assert w.issued <= w'.issued && w'.sent == w.sent;
  }

  lemma InvDeliver(c: Config, w: World, id: nat)
    requires Inv(c, w) && Enabled(w, Deliver(id))
    ensures Inv(c, Next(c, w, Deliver(id)))
    ensures Auth.Rotate(w.backend, w.inFlight[id], w.now, c.lifetime).result != Failure(Auth.ReuseDetected)
  {
    DeliveryEffect(c, w, id);
    DeliverLedgered(c, w, id);
    DeliverBackend(c, w, id);
    DeliverRequests(c, w, id);
    DeliverAnswers(c, w, id);
  }

  lemma InvWrite(c: Config, w: World, id: nat)
    requires Inv(c, w) && Enabled(w, Write(id))
    ensures Inv(c, Next(c, w, Write(id)))
  {
    assert w.requests[id].answer.value !in w.sent;
  }

  lemma InvRelease(c: Config, w: World, id: nat)
    requires Inv(c, w) && Timely(c, w) && Enabled(w, Release(id)) && Settled(w)
    ensures Inv(c, Next(c, w, Release(id)))
  {
    var w' := Next(c, w, Release(id));
    assert !Holds(w'.requests[id]) && !w'.requests[id].Saving?;
    if w.session.Some? && w.session.value.refresh in w.sent {
      assert w.lock.value.owner != id;
    }
  }

  /** What follows a release never holds a lock or remembers a token. */
  ghost predicate Settled(w: World) {
    forall id | id in w.requests && w.requests[id].Releasing? ::
      w.requests[id].next.Clearing? || w.requests[id].next.Retrying? || w.requests[id].next.Done?
  }

  lemma SettledNext(c: Config, w: World, a: Action)
    requires Settled(w) && Enabled(w, a)
    ensures Settled(Next(c, w, a))
  {
  }

  lemma InvSave(c: Config, w: World, id: nat)
    requires Inv(c, w) && Enabled(w, Save(id)) && Orderly(w, Save(id))
    ensures Inv(c, Next(c, w, Save(id)))
  {
  }

  /** The steps of a request that neither lock, nor send, nor write. */
  predicate Plain(a: Action) {
    a.Arrive? || a.Reject401? || a.Respond? || a.Poll? || a.GiveUp? || a.ReadForUpdate?
  }

  lemma InvPlain(c: Config, w: World, a: Action)
    requires Inv(c, w) && Enabled(w, a) && Plain(a)
    ensures Inv(c, Next(c, w, a))
  {
    var p := Next(c, w, a).requests[a.id];
    assert Next(c, w, a) == Move(w, a.id, p);
    InvPlainMove(c, w, a.id, p);
  }

  lemma InvNext(c: Config, w: World, a: Action)
    requires Inv(c, w) && Settled(w) && Timely(c, w) && Enabled(w, a) && Orderly(w, a) && Timely(c, Next(c, w, a))
    ensures Inv(c, Next(c, w, a))
  {
    if Plain(a) {
      InvPlain(c, w, a);
    } else {
      match a {
        case Tick(d) => InvTick(c, w, d);
        case Login(user) => InvLogin(c, w, user);
        case SignOut =>
        case Elsewhere(call) => InvElsewhere(c, w, call);
        case Acquire(id) => InvAcquire(c, w, id);
        case Recheck(id) => InvRecheck(c, w, id);
        case Send(id) => InvSend(c, w, id);
        case Deliver(id) => InvDeliver(c, w, id);
        case Lose(id) => InvLose(c, w, id);
        case Rebind(id) => InvRebind(c, w, id);
        case Write(id) => InvWrite(c, w, id);
        case Release(id) => InvRelease(c, w, id);
        case Clear(id) => InvClear(c, w, id);
        case Save(id) => InvSave(c, w, id);
        case _ =>
      }
    }
  }

  lemma InvRebind(c: Config, w: World, id: nat)
    requires Inv(c, w) && Enabled(w, Rebind(id))
    ensures Inv(c, Next(c, w, Rebind(id)))
  {
  }

  lemma InvLose(c: Config, w: World, id: nat)
    requires Inv(c, w) && Enabled(w, Lose(id))
    ensures Inv(c, Next(c, w, Lose(id)))
  {
  }

  lemma InvClear(c: Config, w: World, id: nat)
    requires Inv(c, w) && Enabled(w, Clear(id))
    ensures Inv(c, Next(c, w, Clear(id)))
  {
  }

  // ---------------------------------------------------------------- the theorem

  lemma {:induction false} InvAfter(c: Config, run: seq<Action>)
    requires WellBehaved(c, START, run)
    ensures After(c, START, run).Some? && Inv(c, After(c, START, run).value) && Settled(After(c, START, run).value)
    decreases |run|
  {
    if run != [] {
      InvAfter(c, run[..|run| - 1]);
      var w := After(c, START, run[..|run| - 1]).value;
      TimelyAfter(c, run[..|run| - 1]);
      InvNext(c, w, run[|run| - 1]);
      SettledNext(c, w, run[|run| - 1]);
    }
  }

  lemma TimelyAfter(c: Config, run: seq<Action>)
    requires WellBehaved(c, START, run) && After(c, START, run).Some?
    ensures Timely(c, After(c, START, run).value)
  {
  }

  /**
   In every interleaving where each holder that presents a refresh token writes the session inside its
   lock's time to live, and no unlocked session write overtakes the refresh token it read, no refresh
   token goes upstream twice, and no delivery is ever taken by the backend for a reuse.
   */
  lemma NeverReplayed(c: Config, run: seq<Action>, id: nat)
    requires WellBehaved(c, START, run)
    ensures After(c, START, run).Some?
    ensures var w := After(c, START, run).value;
            && NoRepeats(w.sent)
            && (id in w.inFlight ==>
                  Auth.Rotate(w.backend, w.inFlight[id], w.now, c.lifetime).result != Failure(Auth.ReuseDetected))
  {
    InvAfter(c, run);
    var w := After(c, START, run).value;
    if id in w.inFlight {
      InvDeliver(c, w, id);
    }
  }

  /** Whatever the run, releasing compares owners: nobody's release removes a lock somebody else holds. */
  lemma ReleaseSparesOthers(c: Config, w: World, id: nat)
    requires Enabled(w, Release(id)) && w.lock.Some? && w.lock.value.owner != id
    ensures Next(c, w, Release(id)).lock == w.lock
  {
  }
}
