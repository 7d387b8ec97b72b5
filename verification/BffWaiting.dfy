/** How long a waiter has to wait so as never to give up on a holder that is still at work. */
module BffWaiting {
  import opened Prelude
  import opened BffRefresh
  import opened BffSafety
  import opened BffTiming
  import opened BffExposure

  /** A waiter's deadline has passed, and a request that already held when the waiter began to wait still does. */
  ghost predicate GivesUpOn(c: Config, w: World, waiter: nat, holder: nat) {
    && waiter in w.requests && w.requests[waiter].Waiting? && Enabled(w, GiveUp(waiter))
    && holder in w.requests && Holds(w.requests[holder])
    && w.requests[holder].since <= w.requests[waiter].deadline - c.wait
  }

  /** Holders can keep their bounds and still be given up on. */
  ghost predicate CanGiveUp(c: Config, slack: nat) {
    exists w, waiter, holder :: Leads(c, Some(slack), START, w) && GivesUpOn(c, w, waiter, holder)
  }

  lemma LongHoldOutlastsWait(c: Config, slack: nat)
    requires c.timeout >= 1 && c.ttl > 0 && slack + c.timeout <= c.lifetime && c.wait <= LongestHold(c, slack)
    ensures CanGiveUp(c, slack)
  {
    var w, p := SlowSecondCall(c, slack, true);
    assert w.requests[2] == Waiting(1, c.wait) && w.requests[1] == p;
    assert GivesUpOn(c, w, 2, 1);
  }

  /** In the worlds such runs lead to, every holder is on pace and within its bounds. */
  lemma LeadsOnPace(c: Config, slack: nat, w: World)
    requires Leads(c, Some(slack), START, w)
    ensures Paced(c, slack, w) && Bounded(c, slack, w)
  {
    var run :| After(c, START, run) == Some(w) && (Some(slack).Some? ==> Prompt(c, slack, START, run));
    PromptIsPaced(c, slack, run);
    PromptEnds(c, slack, START, run);
  }

  lemma GivenUpOnWithinHold(c: Config, slack: nat, w: World, waiter: nat, holder: nat)
    requires c.timeout >= 1 && Paced(c, slack, w) && Bounded(c, slack, w) && GivesUpOn(c, w, waiter, holder)
    ensures c.wait <= LongestHold(c, slack)
  {
    HoldIsBounded(c, slack, w, holder);
  }

  /**
   The exact wait. With a tenant selected, a waiter can time out behind a holder that keeps its bounds
   exactly when two calls and three stretches can take as long as the wait. The start-up assertion only
   has the wait exceed the lock, which such a holder may outlast as well.
   */
  lemma WaitExact(c: Config, slack: nat)
    requires c.timeout >= 1 && c.ttl > 0 && slack + c.timeout <= c.lifetime
    ensures CanGiveUp(c, slack) <==> c.wait <= LongestHold(c, slack)
  {
    if c.wait <= LongestHold(c, slack) {
      LongHoldOutlastsWait(c, slack);
    }
    if CanGiveUp(c, slack) {
      var w, waiter, holder :| Leads(c, Some(slack), START, w) && GivesUpOn(c, w, waiter, holder);
      LeadsOnPace(c, slack, w);
      GivenUpOnWithinHold(c, slack, w, waiter, holder);
    }
  }

  /** As shipped, a waiter outwaits every such holder only if no time at all is spent between the calls. */
  lemma ShippedWaitExact(slack: nat)
    requires slack + SHIPPED.timeout <= SHIPPED.lifetime
    ensures CanGiveUp(SHIPPED, slack) <==> slack >= 1
  {
    WaitExact(SHIPPED, slack);
  }
}
