/** Failed-login backoff: how slowly passwords can be tried against one account. */
module LoginBackoff {
  import opened Prelude

  const FAILED_ATTEMPTS_BEFORE_BACKOFF: nat := 5
  const LOCKOUT_BASE_SECONDS: nat := 30
  const LOCKOUT_MAX_SECONDS: nat := 900

  datatype Guard = Guard(failed: nat, lockedUntil: Option<int>)

  const FRESH_GUARD: Guard := Guard(0, None)

  datatype Answer = InvalidCredentials | AccountLocked | ChallengeRequired | SignedIn

  function Pow2(n: nat): (r: nat)
    ensures r >= 1
  {
    if n == 0 then 1 else 2 * Pow2(n - 1)
  }

  /** The lock that follows the failure numbered FAILED_ATTEMPTS_BEFORE_BACKOFF + excess. */
  function Delay(excess: nat): (seconds: nat) {
    var d := LOCKOUT_BASE_SECONDS * Pow2(excess);
    if d < LOCKOUT_MAX_SECONDS then d else LOCKOUT_MAX_SECONDS
  }

  predicate IsLocked(g: Guard, now: int) {
    g.lockedUntil.Some? && g.lockedUntil.value > now
  }

  function Failed(g: Guard, now: int): (r: Guard) {
    var count := g.failed + 1;
    if count < FAILED_ATTEMPTS_BEFORE_BACKOFF then Guard(count, g.lockedUntil)
    else Guard(count, Some(now + Delay(count - FAILED_ATTEMPTS_BEFORE_BACKOFF)))
  }

  /** One login against an existing account: the new guard, the answer, and whether the password was looked at. */
  function Attempt(g: Guard, now: int, correct: bool, active: bool, mfa: bool): (r: (Guard, Answer, bool)) {
    if IsLocked(g, now) then (g, AccountLocked, false)
    else if !correct then
      var g' := Failed(g, now);
      (g', if g'.failed < FAILED_ATTEMPTS_BEFORE_BACKOFF then InvalidCredentials else AccountLocked, true)
    else if !active then (g, InvalidCredentials, true)
    else (FRESH_GUARD, if mfa then ChallengeRequired else SignedIn, true)
  }

  class Account {
    var failedLoginCount: nat
    var lockedUntil: Option<int>

    constructor ()
      ensures Guard(failedLoginCount, lockedUntil) == FRESH_GUARD
    {
      failedLoginCount, lockedUntil := 0, None;
    }

    method ApplyBackoff(now: int) returns (locked: bool)
      modifies this`lockedUntil
      ensures locked <==> failedLoginCount >= FAILED_ATTEMPTS_BEFORE_BACKOFF
      ensures lockedUntil == if locked then Some(now + Delay(failedLoginCount - FAILED_ATTEMPTS_BEFORE_BACKOFF)) else old(lockedUntil)
    {
      if failedLoginCount < FAILED_ATTEMPTS_BEFORE_BACKOFF {
        return false;
      }
      lockedUntil := Some(now + Delay(failedLoginCount - FAILED_ATTEMPTS_BEFORE_BACKOFF));
      return true;
    }

    method Login(now: int, correct: bool, active: bool, mfa: bool) returns (answer: Answer, verified: bool)
      modifies this
      ensures (Guard(failedLoginCount, lockedUntil), answer, verified)
           == Attempt(old(Guard(failedLoginCount, lockedUntil)), now, correct, active, mfa)
    {
      if lockedUntil.Some? && lockedUntil.value > now {
        return AccountLocked, false;
      }
      if !correct {
        failedLoginCount := failedLoginCount + 1;
        var locked := ApplyBackoff(now);
        return if locked then AccountLocked else InvalidCredentials, true;
      }
      if !active {
        return InvalidCredentials, true;
      }
      failedLoginCount, lockedUntil := 0, None;
      return if mfa then ChallengeRequired else SignedIn, true;
    }
  }

  // ---------------------------------------------------------------- a run of wrong passwords

  /** The guard after wrong-password logins at the given times. */
  function AfterWrong(g: Guard, times: seq<int>): (r: Guard) {
    if times == [] then g
    else Attempt(AfterWrong(g, times[..|times| - 1]), times[|times| - 1], false, true, false).0
  }

  /** The times at which a password was actually verified. */
  function Verified(g: Guard, times: seq<int>): (r: seq<int>) {
    if times == [] then []
    else
      var n := |times| - 1;
      Verified(g, times[..n])
        + if Attempt(AfterWrong(g, times[..n]), times[n], false, true, false).2 then [times[n]] else []
  }

  function TotalDelay(k: nat): (seconds: nat) {
    if k == 0 then 0 else TotalDelay(k - 1) + Delay(k - 1)
  }

  /** The guard counts verifications, and after the fifth is locked until the last one plus its delay. */
  lemma {:induction false} GuardTracks(times: seq<int>)
    ensures var v := Verified(FRESH_GUARD, times);
            var g := AfterWrong(FRESH_GUARD, times);
            && g.failed == |v|
            && g.lockedUntil == if |v| < 5 then None else Some(v[|v| - 1] + Delay(|v| - 5))
  {
    if times != [] {
      GuardTracks(times[..|times| - 1]);
    }
  }

  /** Past the fifth, each verification waits out the delay of the one before. */
  lemma {:induction false} StepsApart(times: seq<int>, j: nat)
    requires 4 <= j && j + 1 < |Verified(FRESH_GUARD, times)|
    ensures var v := Verified(FRESH_GUARD, times); v[j + 1] >= v[j] + Delay(j - 4)
    decreases |times|
  {
    var n := |times| - 1;
    var before := Verified(FRESH_GUARD, times[..n]);
    GuardTracks(times[..n]);
    if j + 1 < |before| {
      StepsApart(times[..n], j);
    }
  }

  /**
   Wrong passwords one after another, at any times whatever: the (5 + k)-th verification comes no
   sooner than the sum of the first k delays after the fifth.
   */
  lemma {:induction false} VerificationsSpaced(times: seq<int>, k: nat)
    requires 4 + k < |Verified(FRESH_GUARD, times)|
    ensures var v := Verified(FRESH_GUARD, times); v[4 + k] >= v[4] + TotalDelay(k)
    decreases k
  {
    if k > 0 {
      VerificationsSpaced(times, k - 1);
      StepsApart(times, 3 + k);
    }
  }

  lemma {:induction false} PowersPast(n: nat)
    requires n >= 5
    ensures Pow2(n) >= 32
  {
    if n > 5 {
      PowersPast(n - 1);
    } else {
      assert Pow2(3) == 8;
      assert Pow2(5) == 32;
    }
  }

  /** In closed form: 930 seconds over the first five delays, then 900 for each further one. */
  lemma {:induction false} TotalDelayClosed(k: nat)
    requires k >= 5
    ensures TotalDelay(k) == 930 + 900 * (k - 5)
  {
    if k == 5 {
      assert Pow2(2) == 4;
      assert Pow2(4) == 16;
      assert Delay(0) == 30 && Delay(1) == 60 && Delay(2) == 120 && Delay(3) == 240 && Delay(4) == 480;
      assert TotalDelay(2) == 90;
      assert TotalDelay(4) == 450;
    } else {
      TotalDelayClosed(k - 1);
      PowersPast(k - 1);
    }
  }

  /** The patient attacker: five tries at once, then one whenever the lock runs out. */
  function Earliest(n: nat): (times: seq<int>) {
    if n == 0 then []
    else Earliest(n - 1) + [if n <= 5 then 0 else TotalDelay(n - 5)]
  }

  lemma {:induction false} EarliestShape(n: nat)
    requires n > 0
    ensures |Earliest(n)| == n && Earliest(n)[..n - 1] == Earliest(n - 1)
    ensures Earliest(n)[n - 1] == if n <= 5 then 0 else TotalDelay(n - 5)
  {
    if n > 1 {
      EarliestShape(n - 1);
    }
  }

  lemma VerifiedAppend(g: Guard, times: seq<int>, now: int)
    ensures Verified(g, times + [now]) == Verified(g, times) + if IsLocked(AfterWrong(g, times), now) then [] else [now]
  {
    assert (times + [now])[..|times|] == times;
  }

  /** When the lock that the first n - 1 tries leave behind runs out, it is time for the n-th. */
  lemma LockRunsOut(n: nat, g: Guard, last: int)
    requires n > 0 && g.failed == n - 1
    requires g.lockedUntil == if n - 1 < 5 then None else Some(last + Delay(n - 1 - 5))
    requires n > 5 ==> last == TotalDelay(n - 1 - 5)
    ensures !IsLocked(g, if n <= 5 then 0 else TotalDelay(n - 5))
  {
  }

  /** The bound is attained: every one of those tries is verified, the (5 + k)-th exactly k delays after the fifth. */
  lemma {:induction false} BoundAttained(n: nat)
    ensures Verified(FRESH_GUARD, Earliest(n)) == Earliest(n)
  {
    if n > 0 {
      var before := Earliest(n - 1);
      BoundAttained(n - 1);
      GuardTracks(before);
      LastOfEarliest(n - 1);
      LockRunsOut(n, AfterWrong(FRESH_GUARD, before), if n == 1 then 0 else before[n - 2]);
      VerifiedAppend(FRESH_GUARD, before, if n <= 5 then 0 else TotalDelay(n - 5));
    }
  }

  lemma LastOfEarliest(n: nat)
    ensures |Earliest(n)| == n
    ensures n >= 5 ==> Earliest(n)[n - 1] == TotalDelay(n - 5)
  {
    if n > 0 {
      EarliestShape(n);
    }
  }

  // ---------------------------------------------------------------- what a login answers

  /**
   A login of an active account with the right password, after any run of wrong ones: refused unread while
   the lock runs, and otherwise through to the session or the second factor, with the slate wiped clean.
   */
  lemma RightPassword(times: seq<int>, now: int, mfa: bool)
    ensures var v := Verified(FRESH_GUARD, times);
            var g := AfterWrong(FRESH_GUARD, times);
            var locked := |v| >= 5 && now < v[|v| - 1] + Delay(|v| - 5);
            Attempt(g, now, true, true, mfa) ==
              if locked then (g, AccountLocked, false)
              else (Guard(0, None), if mfa then ChallengeRequired else SignedIn, true)
  {
    GuardTracks(times);
  }

  /** A wrong one in the same position: refused as locked while the lock runs, and from the fifth that is read on. */
  lemma WrongPassword(times: seq<int>, now: int, active: bool, mfa: bool)
    ensures var v := Verified(FRESH_GUARD, times);
            var g := AfterWrong(FRESH_GUARD, times);
            var locked := |v| >= 5 && now < v[|v| - 1] + Delay(|v| - 5);
            var (g', answer, verified) := Attempt(g, now, false, active, mfa);
            && verified == !locked && g'.failed == |v| + (if locked then 0 else 1)
            && answer == if locked || |v| >= 4 then AccountLocked else InvalidCredentials
  {
    GuardTracks(times);
  }

  /** An account that has been switched off never signs in, and its right password is not told from a wrong one. */
  lemma InactiveNeverSignsIn(g: Guard, now: int, correct: bool, mfa: bool)
    ensures var (g', answer, verified) := Attempt(g, now, correct, false, mfa);
            && (answer == InvalidCredentials || answer == AccountLocked)
            && (correct ==> g' == g)
  {
  }

}
