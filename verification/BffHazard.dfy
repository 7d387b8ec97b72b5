/** There is no other way to a repeated refresh token than an exposed one, or a holder gone past its lock. */
module BffHazard {
  import opened Prelude
  import opened BffRefresh
  import opened BffSafety
  import opened BffExposure

  /** A spent token for the taking, or a holder about to send although its lock has lapsed. */
  ghost predicate Hazard(c: Config, w: World) {
    Exposed(w) || exists id | id in w.requests :: w.requests[id].Ready? && w.requests[id].since + c.ttl <= w.now
  }

  /** The access token a request remembers, if any. */
  function Remembered(p: Phase): (access: Option<nat>) {
    match p
    case Calling(access) => Some(access)
    case Unauthorized(stale) => Some(stale)
    case Waiting(stale, _) => Some(stale)
    case Holding(stale, _) => Some(stale)
    case Releasing(next) => None
    case _ => None
  }

  /** Access tokens are never issued again. */
  ghost predicate AccessIssued(w: World) {
    && (w.session.Some? ==> w.session.value.access < w.nextAccess)
    && (forall id | id in w.requests && Remembered(w.requests[id]).Some? :: Remembered(w.requests[id]).value < w.nextAccess)
  }

  /** One request's memory over one action. */
  lemma RememberedNext(c: Config, w: World, a: Action, id: nat)
    requires Enabled(w, a) && Settled(w) && (w.session.Some? ==> w.session.value.access < w.nextAccess)
    requires id in w.requests && Remembered(w.requests[id]).Some? ==> Remembered(w.requests[id]).value < w.nextAccess
    requires id in Next(c, w, a).requests && Remembered(Next(c, w, a).requests[id]).Some?
    ensures Remembered(Next(c, w, a).requests[id]).value < Next(c, w, a).nextAccess
  {
    if a.Tick? || a.Login? || a.SignOut? || a.Elsewhere? || a.id != id {
      assert id in w.requests && Next(c, w, a).requests[id] == w.requests[id];
    }
  }

  lemma AccessIssuedNext(c: Config, w: World, a: Action)
    requires AccessIssued(w) && Settled(w) && Enabled(w, a)
    ensures AccessIssued(Next(c, w, a))
  {
    var w' := Next(c, w, a);
    forall id | id in w'.requests && Remembered(w'.requests[id]).Some? ensures Remembered(w'.requests[id]).value < w'.nextAccess {
      RememberedNext(c, w, a, id);
    }
  }

  lemma {:induction false} AccessIssuedAfter(c: Config, run: seq<Action>)
    requires After(c, START, run).Some?
    ensures AccessIssued(After(c, START, run).value) && Settled(After(c, START, run).value)
    decreases |run|
  {
    if run != [] {
      AccessIssuedAfter(c, run[..|run| - 1]);
      var w := After(c, START, run[..|run| - 1]).value;
      AccessIssuedNext(c, w, run[|run| - 1]);
      SettledNext(c, w, run[|run| - 1]);
    }
  }

  /** A holder inside its time to live that would still use the session's token, or has read it, has an unsent one. */
  ghost predicate HoldersUnsent(c: Config, w: World) {
    forall id | id in w.requests && Holds(w.requests[id]) && w.now < w.requests[id].since + c.ttl ::
      && (w.requests[id].Ready? ==> w.requests[id].token !in w.sent)
      && (w.requests[id].Holding? && w.session.Some? && w.session.value.access == w.requests[id].stale ==>
            w.session.value.refresh !in w.sent)
  }

  ghost predicate Safe(c: Config, w: World) {
    Ownership(c, w) && HoldersUnsent(c, w) && NoRepeats(w.sent)
  }

  /** Steps that leave the lock alone. */
  lemma OwnershipKept(c: Config, w: World, a: Action)
    requires Ownership(c, w) && Enabled(w, a) && !a.Acquire? && !a.Release?
    ensures Ownership(c, Next(c, w, a))
  {
    var w' := Next(c, w, a);
    assert w'.lock == w.lock && w.now <= w'.now;
    forall id | id in w'.requests && Holds(w'.requests[id])
      ensures id in w.requests && Holds(w.requests[id]) && w'.requests[id].since == w.requests[id].since
    {
    }
  }

  lemma OwnershipNext(c: Config, w: World, a: Action)
    requires Ownership(c, w) && Settled(w) && Enabled(w, a)
    ensures Ownership(c, Next(c, w, a))
  {
    if a.Acquire? {
      OwnershipAcquire(c, w, a.id);
    } else if a.Release? {
      OwnershipRelease(c, w, a.id);
    } else {
      OwnershipKept(c, w, a);
    }
  }

  lemma OwnershipAcquire(c: Config, w: World, id: nat)
    requires Ownership(c, w) && Enabled(w, Acquire(id))
    ensures Ownership(c, Next(c, w, Acquire(id)))
  {
    forall i | i in w.requests && Holds(w.requests[i]) && Held(w.lock, w.now).None? ensures w.requests[i].since + c.ttl <= w.now {
    }
  }

  lemma OwnershipRelease(c: Config, w: World, id: nat)
    requires Ownership(c, w) && Settled(w) && Enabled(w, Release(id))
    ensures Ownership(c, Next(c, w, Release(id)))
  {
  }

  /** Sending is where a repeat would happen. */
  lemma SafeSend(c: Config, w: World, id: nat)
    requires Safe(c, w) && !Hazard(c, w) && Enabled(w, Send(id))
    ensures var w' := Next(c, w, Send(id)); HoldersUnsent(c, w') && NoRepeats(w'.sent)
  {
    var w' := Next(c, w, Send(id));
    assert w.now < w.requests[id].since + c.ttl;
    forall i | i in w'.requests && Holds(w'.requests[i]) && w'.now < w'.requests[i].since + c.ttl ensures i == id {
      if i != id {
        OneHolder(c, w, i, id);
      }
    }
  }

  lemma SafeNext(c: Config, w: World, a: Action)
    requires Safe(c, w) && AccessIssued(w) && Settled(w) && !Hazard(c, w) && Enabled(w, a)
    ensures Safe(c, Next(c, w, a))
  {
    OwnershipNext(c, w, a);
    if a.Send? {
      SafeSend(c, w, a.id);
    } else {
      HoldersUnsentNext(c, w, a);
    }
  }

  lemma HoldersUnsentNext(c: Config, w: World, a: Action)
    requires Safe(c, w) && AccessIssued(w) && Settled(w) && !Hazard(c, w) && Enabled(w, a) && !a.Send?
    ensures HoldersUnsent(c, Next(c, w, a)) && Next(c, w, a).sent == w.sent
  {
    var w' := Next(c, w, a);
    forall id | id in w'.requests && Holds(w'.requests[id]) && w'.now < w'.requests[id].since + c.ttl
      ensures w'.requests[id].Ready? ==> w'.requests[id].token !in w'.sent
      ensures w'.requests[id].Holding? && w'.session.Some? && w'.session.value.access == w'.requests[id].stale ==>
                w'.session.value.refresh !in w'.sent
    {
      if id in w.requests && w.requests[id].Holding? {
        assert Remembered(w.requests[id]).value < w.nextAccess;
      }
    }
  }

  lemma {:induction false} SafeAfter(c: Config, run: seq<Action>)
    requires After(c, START, run).Some?
    requires forall n | 0 <= n < |run| :: After(c, START, run[..n]).Some? ==> !Hazard(c, After(c, START, run[..n]).value)
    ensures Safe(c, After(c, START, run).value)
    decreases |run|
  {
    if run != [] {
      var init := run[..|run| - 1];
      assert forall n | 0 <= n < |init| :: init[..n] == run[..n];
      SafeAfter(c, init);
      AccessIssuedAfter(c, init);
      SafeNext(c, After(c, START, init).value, run[|run| - 1]);
    }
  }

  /**
   Every run, however slow, failing or overtaken: if a refresh token went upstream twice, then at some
   earlier moment a spent token lay in the session with the lock free, or a holder was about to send
   although its lock had lapsed.
   */
  lemma RepeatNeedsHazard(c: Config, run: seq<Action>)
    requires After(c, START, run).Some? && !NoRepeats(After(c, START, run).value.sent)
    ensures exists n | 0 <= n < |run| :: After(c, START, run[..n]).Some? && Hazard(c, After(c, START, run[..n]).value)
  {
    if forall n | 0 <= n < |run| :: After(c, START, run[..n]).Some? ==> !Hazard(c, After(c, START, run[..n]).value) {
      SafeAfter(c, run);
    }
  }

  /** How far the clock has to go for a lock to have lapsed. */
  function UntilFree(w: World): (d: nat) {
    if w.lock.Some? && w.now < w.lock.value.expiresAt then w.lock.value.expiresAt - w.now else 0
  }

  /** The lock lapses, another request becomes the holder, and sends the session's token. */
  lemma AnotherSends(c: Config, from: World, w: World, other: nat) returns (w': World)
    requires Leads(c, None, from, w) && w.session.Some? && other !in w.requests && c.timeout >= 1
    ensures Leads(c, None, from, w') && w'.sent == w.sent + [w.session.value.refresh]
    ensures forall i | i in w.requests :: i in w'.requests && w'.requests[i] == w.requests[i]
  {
    var w1 := w.(now := w.now + UntilFree(w));
    LeadsOn(c, None, from, w, Tick(UntilFree(w)), w1);
    FreeLockSends(c, None, from, w1, other);
    w' := SentBy(LockedBy(c, w1, other), other);
  }

  /** A holder about to send the session's token, its lock lapsed or about to, can be overtaken: the token goes upstream twice. */
  lemma LapsedSenderReplays(c: Config, from: World, w: World, id: nat, other: nat)
    requires Leads(c, None, from, w) && id in w.requests && w.requests[id].Ready? && other !in w.requests && c.timeout >= 1
    requires w.session.Some? && w.session.value.refresh == w.requests[id].token
    ensures CanRepeat(c, None, from)
  {
    var w1 := AnotherSends(c, from, w, other);
    var w2 := Next(c, w1, Send(id));
    LeadsOn(c, None, from, w1, Send(id), w2);
    assert w2.sent[|w.sent|] == w2.sent[|w.sent| + 1];
    assert !NoRepeats(w2.sent);
    var run :| After(c, from, run) == Some(w2);
  }

  /** The token of an exposed session, or the token a lapsed sender is about to take out of it, can go upstream twice. */
  ghost predicate Pending(c: Config, w: World) {
    || Exposed(w)
    || exists id | id in w.requests && w.requests[id].Ready? ::
         (w.requests[id].since + c.ttl <= w.now && w.session.Some? && w.session.value.refresh == w.requests[id].token)
  }

  /** Of the hazards, these can always be made to come true from where they are. */
  lemma PendingReplays(c: Config, from: World, w: World, other: nat)
    requires Leads(c, None, from, w) && Pending(c, w) && other !in w.requests && c.timeout >= 1
    ensures Hazard(c, w) && CanRepeat(c, None, from)
  {
    if Exposed(w) {
      ExposedReplays(c, None, from, w, other);
    } else {
      var id :| id in w.requests && w.requests[id].Ready?
             && w.requests[id].since + c.ttl <= w.now && w.session.Some? && w.session.value.refresh == w.requests[id].token;
      LapsedSenderReplays(c, from, w, id, other);
    }
  }

  // ---------------------------------------------------------------- what waiters learn

  /** After every run: a holder's session write gives every waiter the new access token at its next poll. */
  lemma WriteReachesWaiters(c: Config, run: seq<Action>, w: World, id: nat, waiter: nat)
    requires After(c, START, run) == Some(w) && Enabled(w, Write(id)) && id != waiter
    requires waiter in w.requests && w.requests[waiter].Waiting?
    ensures var w' := Next(c, w, Write(id));
            && w'.session == Some(Session(w.nextAccess, w.requests[id].answer.value, w.requests[id].bound))
            && Enabled(w', Poll(waiter)) && Next(c, w', Poll(waiter)).requests[waiter] == Retrying(w.nextAccess)
  {
    AccessIssuedAfter(c, run);
    assert Remembered(w.requests[waiter]).value < w.nextAccess;
  }

  /** And a cleared session sends every waiter, and every later holder, to clear it too. */
  lemma ClearReachesWaiters(c: Config, w: World, id: nat, other: nat)
    requires Enabled(w, Clear(id)) && id != other && other in w.requests && (w.requests[other].Waiting? || w.requests[other].Holding?)
    ensures var w' := Next(c, w, Clear(id));
            if w.requests[other].Waiting? then Next(c, w', Poll(other)).requests[other] == Clearing
            else Next(c, w', Recheck(other)).requests[other] == Releasing(Clearing)
  {
  }
}
