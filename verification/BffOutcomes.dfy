/** What a refresh comes to for the request that wanted it: a retry, a cleared session, or a request given up. */
module BffOutcomes {
  import opened Prelude
  import opened BffRefresh
  import opened BffSafety

  /** Why a request may clear the session: its own refresh failed, or it found the session gone. */
  ghost predicate CauseToClear(w: World, a: Action, id: nat) {
    a == Fail(id) || ((a == Poll(id) || a == Recheck(id)) && w.session.None?)
  }

  /** Some action of the run gave the request such a cause, in the world it was taken in. */
  ghost predicate Caused(c: Config, run: seq<Action>, id: nat) {
    exists k | 0 <= k < |run| :: After(c, START, run[..k]).Some? && CauseToClear(After(c, START, run[..k]).value, run[k], id)
  }

  predicate AboutToClear(w: World, id: nat) {
    id in w.requests && (w.requests[id] == Clearing || w.requests[id] == Releasing(Clearing))
  }

  lemma NewlyAboutToClear(c: Config, w: World, a: Action, id: nat)
    requires Settled(w) && Enabled(w, a) && AboutToClear(Next(c, w, a), id)
    ensures AboutToClear(w, id) || CauseToClear(w, a, id)
  {
  }

  lemma CausedLater(c: Config, init: seq<Action>, a: Action, id: nat)
    ensures Caused(c, init, id) ==> Caused(c, init + [a], id)
    ensures After(c, START, init).Some? && CauseToClear(After(c, START, init).value, a, id) ==> Caused(c, init + [a], id)
  {
    var run := init + [a];
    assert run[..|init|] == init;
    if k :| 0 <= k < |init| && After(c, START, init[..k]).Some? && CauseToClear(After(c, START, init[..k]).value, init[k], id) {
      assert run[..k] == init[..k] && run[k] == init[k];
    }
  }

  lemma {:induction false} SettledAfter(c: Config, run: seq<Action>)
    requires After(c, START, run).Some?
    ensures Settled(After(c, START, run).value)
    decreases |run|
  {
    if run != [] {
      SettledAfter(c, run[..|run| - 1]);
      SettledNext(c, After(c, START, run[..|run| - 1]).value, run[|run| - 1]);
    }
  }

  lemma {:induction false} ClearingIsCaused(c: Config, run: seq<Action>, id: nat)
    requires After(c, START, run).Some? && AboutToClear(After(c, START, run).value, id)
    ensures Caused(c, run, id)
    decreases |run|
  {
    if run != [] {
      var init, a := run[..|run| - 1], run[|run| - 1];
      assert run == init + [a];
      var w := After(c, START, init).value;
      SettledAfter(c, init);
      NewlyAboutToClear(c, w, a, id);
      if AboutToClear(w, id) {
        ClearingIsCaused(c, init, id);
      }
      CausedLater(c, init, a, id);
    }
  }

  /**
   Over every run: a request clears the session only if its own refresh failed, or a poll or a re-check of
   its own found the session gone. A slow backend alone never ends a live session.
   */
  lemma ClearHasCause(c: Config, run: seq<Action>, id: nat)
    requires After(c, START, run).Some? && Enabled(After(c, START, run).value, Clear(id))
    ensures Caused(c, run, id)
  {
    ClearingIsCaused(c, run, id);
  }

  lemma DoneStaysNow(c: Config, w: World, a: Action, id: nat)
    requires id in w.requests && w.requests[id].Done? && Enabled(w, a)
    ensures id in Next(c, w, a).requests && Next(c, w, a).requests[id].Done?
  {
  }

  /** A request that is done stays done. */
  lemma {:induction false} DoneStays(c: Config, w: World, run: seq<Action>, id: nat)
    requires After(c, w, run).Some? && id in w.requests && w.requests[id].Done?
    ensures id in After(c, w, run).value.requests && After(c, w, run).value.requests[id].Done?
    decreases |run|
  {
    if run != [] {
      var init := run[..|run| - 1];
      DoneStays(c, w, init, id);
      DoneStaysNow(c, After(c, w, init).value, run[|run| - 1], id);
    }
  }

  /**
   A waiter that gives up leaves session, lock and backend as they are, and for good: in every later world
   it is done, so it never clears, retries or refreshes.
   */
  lemma GaveUpForGood(c: Config, w: World, id: nat, run: seq<Action>)
    requires Enabled(w, GiveUp(id))
    ensures var w' := Next(c, w, GiveUp(id)); w'.(requests := w.requests) == w
    ensures var later := After(c, Next(c, w, GiveUp(id)), run);
            later.Some? ==>
              && id in later.value.requests && later.value.requests[id].Done?
              && !Enabled(later.value, Clear(id)) && !Enabled(later.value, Send(id)) && !Enabled(later.value, Acquire(id))
  {
    var w' := Next(c, w, GiveUp(id));
    if After(c, w', run).Some? {
      DoneStays(c, w', run, id);
    }
  }

  /** A failed refresh does end the session: what the request does next is give back the lock and clear. */
  lemma FailureClears(c: Config, w: World, id: nat)
    requires Enabled(w, Fail(id))
    ensures var w1 := Next(c, w, Fail(id));
            && w1.session == w.session && Enabled(w1, Release(id))
            && var w2 := Next(c, w1, Release(id));
               && w2.session == w.session && (w2.lock.Some? && w2.lock.value.owner == id ==> Held(w2.lock, w2.now).None?)
               && Enabled(w2, Clear(id)) && Next(c, w2, Clear(id)).session.None? && Next(c, w2, Clear(id)).requests[id].Done?
  {
  }

  /** A successful one retries the request with the access token it has just written. */
  lemma SuccessRetries(c: Config, w: World, id: nat)
    requires Enabled(w, Write(id))
    ensures var w1 := Next(c, w, Write(id));
            && w1.session == Some(Session(w.nextAccess, w.requests[id].answer.value, w.requests[id].bound))
            && Enabled(w1, Release(id)) && Next(c, w1, Release(id)).requests[id] == Retrying(w.nextAccess)
            && Next(c, w1, Release(id)).session == w1.session
  {
  }

  /** A holder that finds another has refreshed sends nothing, and retries with the token it found. */
  lemma RefreshedElsewhere(c: Config, w: World, id: nat)
    requires Enabled(w, Recheck(id)) && w.session.Some? && w.session.value.access != w.requests[id].stale
    ensures var w1 := Next(c, w, Recheck(id));
            && w1.sent == w.sent && !Enabled(w1, Send(id)) && Enabled(w1, Release(id))
            && Next(c, w1, Release(id)).requests[id] == Retrying(w.session.value.access)
            && Next(c, w1, Release(id)).session == w.session
  {
  }

  /**
   The unlocked session write, nothing intervening: a new access token, the same refresh token, and the
   tenant selected if this request selected one or one was selected before.
   */
  lemma SaveKeepsRefresh(c: Config, w: World, id: nat)
    requires Enabled(w, ReadForUpdate(id)) && w.session.Some?
    ensures var w1 := Next(c, w, ReadForUpdate(id));
            && Enabled(w1, Save(id))
            && var w2 := Next(c, w1, Save(id));
               w2.session == Some(Session(w.nextAccess, w.session.value.refresh, w.requests[id].selects || w.session.value.tenantSelected))
               && w2.lock == w.lock && w2.backend == w.backend
  {
  }

}
