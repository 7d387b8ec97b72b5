/**
 How long a holder may take. Each upstream call is cut off after `timeout`; everything a holder does
 between calls (lock, session read, reading an answer, session write) takes at most `slack` a stretch.
 */
module BffTiming {
  import opened Prelude
  import opened BffRefresh
  import opened BffSafety

  /** The longest a holder can be at it, tenant selected: three stretches and two calls. */
  function LongestHold(c: Config, slack: nat): (r: int) {
    2 * (c.timeout - 1) + 3 * slack
  }

  predicate WithinBounds(c: Config, slack: nat, now: int, p: Phase) {
    match p
    case Holding(_, since) => now <= since + slack
    case Ready(_, _, since) => now <= since + slack
    case Presented(_, _, _, at) => now < at + c.timeout
    case Answered(_, _, _, at, _) => now <= at + slack
    case Rebinding(_, _, _, at, _) => now < at + c.timeout + slack
    case _ => true
  }

  ghost predicate Bounded(c: Config, slack: nat, w: World) {
    forall id | id in w.requests :: WithinBounds(c, slack, w.now, w.requests[id])
  }

  /** Enabled and orderly actions, in worlds where every holder keeps its bounds. */
  ghost predicate Prompt(c: Config, slack: nat, w: World, run: seq<Action>)
    decreases |run|
  {
    && Bounded(c, slack, w)
    && (run == [] ||
        var init, a := run[..|run| - 1], run[|run| - 1];
        var before := After(c, w, init);
        && Prompt(c, slack, w, init) && before.Some? && Enabled(before.value, a) && Orderly(before.value, a)
        && Bounded(c, slack, Next(c, before.value, a)))
  }

  /** Where a holder is, and by when it got there. */
  predicate OnPace(c: Config, slack: nat, p: Phase) {
    match p
    case Presented(_, _, since, at) => at <= since + slack
    case Answered(_, _, since, at, _) => at <= since + slack + c.timeout - 1
    case Rebinding(_, _, since, at, _) => at <= since + 2 * slack + c.timeout - 1
    case Releasing(next) => next.Clearing? || next.Retrying? || next.Done?
    case _ => true
  }

  ghost predicate Paced(c: Config, slack: nat, w: World) {
    forall id | id in w.requests :: OnPace(c, slack, w.requests[id])
  }

  /** One request's pace over one action. */
  lemma OnPaceNext(c: Config, slack: nat, w: World, a: Action, id: nat)
    requires Enabled(w, a) && id in Next(c, w, a).requests
    requires id in w.requests ==> OnPace(c, slack, w.requests[id]) && WithinBounds(c, slack, w.now, w.requests[id])
    ensures OnPace(c, slack, Next(c, w, a).requests[id])
  {
    if a.Tick? || a.Login? || a.SignOut? || a.Elsewhere? || a.id != id {
      assert id in w.requests && Next(c, w, a).requests[id] == w.requests[id];
    }
  }

  lemma PacedNext(c: Config, slack: nat, w: World, a: Action)
    requires Paced(c, slack, w) && Bounded(c, slack, w) && Enabled(w, a)
    ensures Paced(c, slack, Next(c, w, a))
  {
    forall id | id in Next(c, w, a).requests ensures OnPace(c, slack, Next(c, w, a).requests[id]) {
      OnPaceNext(c, slack, w, a, id);
    }
  }

  lemma {:induction false} PromptIsPaced(c: Config, slack: nat, run: seq<Action>)
    requires Prompt(c, slack, START, run)
    ensures After(c, START, run).Some? && Paced(c, slack, After(c, START, run).value)
    decreases |run|
  {
    if run != [] {
      var init, a := run[..|run| - 1], run[|run| - 1];
      PromptIsPaced(c, slack, init);
      PromptEnds(c, slack, START, init);
      PacedNext(c, slack, After(c, START, init).value, a);
    }
  }

  /** Nobody holds for longer than that. */
  lemma HoldIsBounded(c: Config, slack: nat, w: World, id: nat)
    requires Paced(c, slack, w) && Bounded(c, slack, w) && c.timeout >= 1
    requires id in w.requests && Holds(w.requests[id])
    ensures w.now <= w.requests[id].since + LongestHold(c, slack)
  {
    assert OnPace(c, slack, w.requests[id]) && WithinBounds(c, slack, w.now, w.requests[id]);
  }

  lemma PacedIsTimely(c: Config, slack: nat, w: World)
    requires Paced(c, slack, w) && Bounded(c, slack, w) && c.timeout >= 1 && LongestHold(c, slack) < c.ttl
    ensures Timely(c, w)
  {
    forall id | id in w.requests && Presenting(w.requests[id]) ensures w.now < w.requests[id].since + c.ttl {
      HoldIsBounded(c, slack, w, id);
    }
  }

  /** A lock that outlives the longest hold never lapses under a holder: promptness implies timeliness. */
  lemma {:induction false} PromptIsWellBehaved(c: Config, slack: nat, run: seq<Action>)
    requires c.timeout >= 1 && LongestHold(c, slack) < c.ttl
    requires Prompt(c, slack, START, run)
    ensures WellBehaved(c, START, run)
    decreases |run|
  {
    if run == [] {
      PacedIsTimely(c, slack, START);
    } else {
      var init, a := run[..|run| - 1], run[|run| - 1];
      PromptIsWellBehaved(c, slack, init);
      PromptIsPaced(c, slack, run);
      PacedIsTimely(c, slack, After(c, START, run).value);
    }
  }

  lemma PromptEnds(c: Config, slack: nat, w: World, run: seq<Action>)
    requires Prompt(c, slack, w, run)
    ensures After(c, w, run).Some? && Bounded(c, slack, After(c, w, run).value)
  {
  }

  /** So no refresh token goes upstream twice, and the backend takes none for a reuse. */
  lemma LongLockSuffices(c: Config, slack: nat, run: seq<Action>, id: nat)
    requires c.timeout >= 1 && LongestHold(c, slack) < c.ttl
    requires Prompt(c, slack, START, run)
    ensures After(c, START, run).Some?
    ensures var w := After(c, START, run).value;
            && NoRepeats(w.sent)
            && (id in w.inFlight ==>
                  Auth.Rotate(w.backend, w.inFlight[id], w.now, c.lifetime).result != Failure(Auth.ReuseDetected))
  {
    PromptIsWellBehaved(c, slack, run);
    NeverReplayed(c, run, id);
  }
}
