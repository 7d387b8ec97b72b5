/**
 The sliding-window limiter over one Redis key. Time is in microseconds, the precision of the sorted
 set's members, so an attempt is its timestamp; the window is in the same unit.
 */
module RateLimiter {

  /** The sorted set (member and score coincide) and when Redis drops the key. */
  datatype Key = Key(scores: set<int>, expiresAt: int)

  /** What the next command finds: nothing, once the key has expired. */
  function Live(k: Key, now: int): (r: set<int>) {
    if now < k.expiresAt then k.scores else {}
  }

  const NO_KEY: Key := Key({}, 0)

  /** ZREMRANGEBYSCORE 0 start, ZADD now, EXPIRE window. */
  function Touched(k: Key, now: int, window: nat): (r: Key) {
    Key((set t | t in Live(k, now) && !(0 <= t <= now - window)) + {now}, now + window)
  }

  class Limiter {
    var scores: set<int>
    var expiresAt: int

    constructor ()
      ensures Key(scores, expiresAt) == NO_KEY
    {
      scores, expiresAt := {}, 0;
    }

    /** One pipelined check; the attempt is recorded whether or not it is admitted. */
    method Check(now: int, limit: nat, window: nat) returns (admitted: bool)
      modifies this
      ensures Key(scores, expiresAt) == Touched(old(Key(scores, expiresAt)), now, window)
      ensures admitted <==> |scores| <= limit
    {
      if now >= expiresAt {
        scores := {};
      }
      scores := set t | t in scores && !(0 <= t <= now - window);
      scores := scores + {now};
      expiresAt := now + window;
      admitted := |scores| <= limit;
    }
  }

  // ---------------------------------------------------------------- runs

  function After(times: seq<int>, window: nat): (k: Key) {
    if times == [] then NO_KEY else Touched(After(times[..|times| - 1], window), times[|times| - 1], window)
  }

  predicate Admitted(times: seq<int>, window: nat, limit: nat, i: nat)
    requires i < |times|
  {
    |After(times[..i + 1], window).scores| <= limit
  }

  /** A clock that starts no earlier than zero and never steps back. */
  ghost predicate Clock(times: seq<int>) {
    && (forall i | 0 <= i < |times| :: 0 <= times[i])
    && (forall i, j | 0 <= i < j < |times| :: times[i] <= times[j])
  }

  /** The distinct timestamps of attempts, admitted or not, in (now - window, now]. */
  function Recent(times: seq<int>, now: int, window: nat): (r: set<int>) {
    set t | t in times && now - window < t <= now
  }

  /** One more attempt, at or after the last: what the commands leave is the new window. */
  lemma TouchSlides(init: seq<int>, last: int, now: int, window: nat)
    requires window > 0 && last <= now && forall t | t in init :: 0 <= t <= last
    ensures Touched(Key(Recent(init, last, window), last + window), now, window).scores == Recent(init + [now], now, window)
  {
    var k := Key(Recent(init, last, window), last + window);
    forall t ensures t in Touched(k, now, window).scores <==> t in Recent(init + [now], now, window) {
      assert t in init + [now] <==> t in init || t == now;
    }
  }

  lemma AfterAppend(init: seq<int>, now: int, window: nat)
    ensures After(init + [now], window) == Touched(After(init, window), now, window)
  {
    assert (init + [now])[..|init|] == init;
  }

  lemma FirstTouch(now: int, window: nat)
    requires window > 0
    ensures Touched(NO_KEY, now, window).scores == Recent([now], now, window)
  {
    assert Recent([now], now, window) == {now};
    assert Touched(NO_KEY, now, window).scores == {now};
  }

  /** The last attempt of a run with a clock is its latest, and what came before it has a clock too. */
  lemma ClockInit(init: seq<int>, now: int)
    requires Clock(init + [now])
    ensures Clock(init) && forall t | t in init :: 0 <= t <= now
    ensures init != [] ==> init[|init| - 1] <= now && forall t | t in init :: 0 <= t <= init[|init| - 1]
  {
    var all := init + [now];
    assert forall i | 0 <= i < |init| :: init[i] == all[i];
    assert all[|init|] == now;
  }

  /** One more attempt after a run whose scores are its window. */
  lemma SlideOn(init: seq<int>, now: int, window: nat)
    requires Clock(init + [now]) && window > 0 && init != []
    requires After(init, window) == Key(Recent(init, init[|init| - 1], window), init[|init| - 1] + window)
    ensures After(init + [now], window) == Key(Recent(init + [now], now, window), now + window)
  {
    ClockInit(init, now);
    AfterAppend(init, now, window);
    TouchSlides(init, init[|init| - 1], now, window);
  }

  lemma SlideFirst(now: int, window: nat)
    requires window > 0
    ensures After([now], window) == Key(Recent([now], now, window), now + window)
  {
    AfterAppend([], now, window);
    assert [] + [now] == [now];
    FirstTouch(now, window);
  }

  lemma {:induction false} ScoresAreRecent(times: seq<int>, window: nat)
    requires Clock(times) && times != [] && window > 0
    ensures After(times, window) == Key(Recent(times, times[|times| - 1], window), times[|times| - 1] + window)
  {
    var n := |times| - 1;
    var init, now := times[..n], times[n];
    assert times == init + [now];
    if n == 0 {
      assert times == [now];
      SlideFirst(now, window);
    } else {
      ClockInit(init, now);
      ScoresAreRecent(init, window);
      SlideOn(init, now, window);
    }
  }

  /**
   With a clock that does not step back, an attempt is admitted exactly when the distinct timestamps of
   attempts in the window ending now, this one included, number at most the limit.
   */
  lemma AdmitsExactly(times: seq<int>, window: nat, limit: nat, i: nat)
    requires Clock(times) && i < |times| && window > 0
    ensures Admitted(times, window, limit, i) <==> |Recent(times[..i + 1], times[i], window)| <= limit
  {
    ScoresAreRecent(times[..i + 1], window);
  }

  /** Dropping the key on expiry never changes what a check finds: everything in it was due for removal. */
  lemma ExpiryHarmless(times: seq<int>, window: nat, now: int)
    requires Clock(times + [now]) && times != [] && window > 0
    ensures var k := After(times, window);
            Touched(k, now, window) == Touched(Key(k.scores, now + 1), now, window)
  {
    assert times == (times + [now])[..|times|];
    assert forall i | 0 <= i < |times| :: times[i] == (times + [now])[i];
    assert times[|times| - 1] <= (times + [now])[|times|];
    ScoresAreRecent(times, window);
  }

  /** Attempt `i` was admitted and lies in (end - window, end]. */
  ghost predicate AdmittedIn(times: seq<int>, window: nat, limit: nat, end: int, i: int) {
    0 <= i < |times| && end - window < times[i] <= end && Admitted(times, window, limit, i)
  }

  /** The distinct timestamps at which some attempt in (end - window, end] was admitted. */
  ghost function AdmittedWithin(times: seq<int>, window: nat, limit: nat, end: int): (r: set<int>) {
    set i | 0 <= i < |times| && AdmittedIn(times, window, limit, end, i) :: times[i]
  }

  lemma SubsetSize<T>(a: set<T>, b: set<T>)
    requires a <= b
    ensures |a| <= |b|
  {
    assert b == a + (b - a);
  }

  /** No window of the given length, wherever it ends, holds more than `limit` admitted timestamps. */
  lemma WindowNeverExceeded(times: seq<int>, window: nat, limit: nat, end: int)
    requires Clock(times) && window > 0
    ensures |AdmittedWithin(times, window, limit, end)| <= limit
  {
    var admitted := AdmittedWithin(times, window, limit, end);
    if admitted != {} {
      var t :| t in admitted;
      var i :| 0 <= i < |times| && AdmittedIn(times, window, limit, end, i) && times[i] == t;
      var last := LastAdmitted(times, window, limit, end, |times|, i);
      AdmitsExactly(times, window, limit, last);
      AllBeforeLast(times, window, limit, end, last);
      SubsetSize(admitted, Recent(times[..last + 1], times[last], window));
    }
  }

  lemma AllBeforeLast(times: seq<int>, window: nat, limit: nat, end: int, last: nat)
    requires Clock(times) && AdmittedIn(times, window, limit, end, last)
    requires forall i | last < i < |times| :: !AdmittedIn(times, window, limit, end, i)
    ensures AdmittedWithin(times, window, limit, end) <= Recent(times[..last + 1], times[last], window)
  {
    forall i | 0 <= i < |times| && AdmittedIn(times, window, limit, end, i)
      ensures times[i] in Recent(times[..last + 1], times[last], window)
    {
      assert i <= last;
      assert times[..last + 1][i] == times[i];
    }
  }

  /** The last admitted attempt of a window, searched downwards from `n`. */
  lemma {:induction false} LastAdmitted(times: seq<int>, window: nat, limit: nat, end: int, n: nat, i: nat) returns (last: nat)
    requires i < n <= |times| && AdmittedIn(times, window, limit, end, i)
    requires forall j | n <= j < |times| :: !AdmittedIn(times, window, limit, end, j)
    ensures AdmittedIn(times, window, limit, end, last)
    ensures forall j | last < j < |times| :: !AdmittedIn(times, window, limit, end, j)
    decreases n
  {
    if AdmittedIn(times, window, limit, end, n - 1) {
      last := n - 1;
    } else {
      last := LastAdmitted(times, window, limit, end, n - 1, i);
    }
  }

  /**
   "Distinct" matters: any number of attempts within one microsecond count once, so with a positive
   limit all of them are admitted.
   */
  lemma {:induction false} SameInstantUnlimited(now: nat, n: nat, window: nat, limit: nat, i: nat)
    requires window > 0 && limit > 0 && i < n
    ensures Admitted(seq(n, _ => now), window, limit, i)
  {
    var times := seq(n, _ => now);
    AdmitsExactly(times, window, limit, i);
    assert Recent(times[..i + 1], now, window) <= {now};
    SubsetSize(Recent(times[..i + 1], now, window), {now});
  }
}
