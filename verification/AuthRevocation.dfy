/** Whose sessions end, whose do not, and how long a refresh token lasts. */
module AuthRevocation {
  import opened Prelude
  import opened AuthSessions

  /** The sessions a call signs out: one, all of a user's, or all of a user's but the one kept. */
  predicate Ends(c: Call, user: nat, session: nat) {
    match c
    case Logout(k) => session == k
    case LogoutAll(u) => user == u
    case PasswordReset(u) => user == u
    case PasswordChange(u, keep) => user == u && session != keep
    case _ => false
  }

  predicate SignsOut(c: Call) {
    c.Logout? || c.LogoutAll? || c.PasswordReset? || c.PasswordChange?
  }

  /** No token of the session rotates, and trying changes nothing. */
  ghost predicate Dead(s: State, session: nat) {
    forall t, now, lifetime | 0 <= t < |s.tokens| && s.tokens[t].session == session ::
      Rotate(s, t, now, lifetime).result.Failure? && Rotate(s, t, now, lifetime).state == s
  }

  lemma RevokedIsDead(s: State, session: nat)
    requires session < |s.sessions| && s.sessions[session].revoked
    ensures Dead(s, session)
  {
  }

  /**
   After a sign-out of one session, of all of a user's, after a password reset, or a password change that
   keeps one: no token of any session it was to end ever rotates, in any later state.
   */
  lemma EndedForGood(s: State, c: Call, calls: seq<Call>, session: nat)
    requires session < |s.sessions| && Ends(c, s.sessions[session].user, session)
    ensures Dead(Run(Step(s, c), calls), session)
  {
    RevocationIsFinal(Step(s, c), calls, session);
    RevokedIsDead(Run(Step(s, c), calls), session);
  }

  /** And no other: an unexpired, unused token of a live session it was not to end still rotates at once. */
  lemma OthersStillRotate(s: State, c: Call, t: nat, now: int, lifetime: int)
    requires SignsOut(c) && t < |s.tokens| && s.tokens[t].session < |s.sessions|
    requires var session := s.tokens[t].session;
             !s.sessions[session].revoked && !Ends(c, s.sessions[session].user, session)
    requires s.tokens[t].usedAt.None? && now < s.tokens[t].expires
    ensures Rotate(Step(s, c), t, now, lifetime).result.Success?
  {
  }

  lemma UserFixedByStep(s: State, c: Call, session: nat)
    requires session < |s.sessions|
    ensures session < |Step(s, c).sessions| && Step(s, c).sessions[session].user == s.sessions[session].user
  {
  }

  lemma {:induction false} UserFixed(s: State, calls: seq<Call>, session: nat)
    requires session < |s.sessions|
    ensures session < |Run(s, calls).sessions| && Run(s, calls).sessions[session].user == s.sessions[session].user
  {
    if calls != [] {
      UserFixed(s, calls[..|calls| - 1], session);
      UserFixedByStep(Run(s, calls[..|calls| - 1]), calls[|calls| - 1], session);
    }
  }

  /**
   A session belongs to the user who signed in, for good: whatever happens in between, that user's sign-out
   everywhere or password reset ends it, and so does a password change that keeps another session.
   */
  lemma SignedInThenOut(s: State, user: nat, now: int, lifetime: int, calls: seq<Call>, c: Call, more: seq<Call>)
    requires Ends(c, user, |s.sessions|)
    ensures Dead(Run(Step(Run(Step(s, Login(user, now, lifetime)), calls), c), more), |s.sessions|)
  {
    var signedIn := Step(s, Login(user, now, lifetime));
    UserFixed(signedIn, calls, |s.sessions|);
    EndedForGood(Run(signedIn, calls), c, more, |s.sessions|);
  }

  /** While anybody else's leaves it alone, and the token it came with rotates exactly until it expires. */
  lemma SignedInStaysIn(s: State, user: nat, now: int, lifetime: int, c: Call, later: int, next: int)
    requires SignsOut(c) && !Ends(c, user, |s.sessions|)
    ensures Rotate(Step(Step(s, Login(user, now, lifetime)), c), |s.tokens|, later, next).result.Success? <==> later < now + lifetime
  {
  }

  /** A rotation succeeds exactly for a token that exists, is unexpired and unused, of a session not revoked. */
  lemma RotateSucceedsIff(s: State, t: nat, now: int, lifetime: int)
    requires Valid(s)
    ensures Rotate(s, t, now, lifetime).result.Success? <==>
              t < |s.tokens| && now < s.tokens[t].expires && s.tokens[t].usedAt.None?
              && s.tokens[t].session < |s.sessions| && !s.sessions[s.tokens[t].session].revoked
  {
    if t < |s.tokens| {
      assert LinkOk(s, t);
    }
  }

  /** Then the old token never rotates again, and the new one does, of the same session, exactly until it expires. */
  lemma RotatedTokenTakesOver(s: State, t: nat, now: int, lifetime: int, later: int, next: int)
    requires Rotate(s, t, now, lifetime).result.Success?
    ensures var o := Rotate(s, t, now, lifetime);
            && o.result.value == |s.tokens| < |o.state.tokens| && o.state.tokens[|s.tokens|].session == s.tokens[t].session
            && Rotate(o.state, t, later, next).result.Failure?
            && (Rotate(o.state, |s.tokens|, later, next).result.Success? <==> later < now + lifetime)
  {
  }
}
