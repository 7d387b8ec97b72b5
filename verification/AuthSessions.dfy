/**
 Refresh-token rotation with reuse detection.

 A raw token is a fresh secret looked up by an injective hash, so it is identified with the row it was
 stored in: row `n` is found by presenting `n`, and a number with no row is an unknown token.
 */
module AuthSessions {
  import opened Prelude

  datatype RefreshToken = RefreshToken(session: nat, expires: int, usedAt: Option<int>, replacedBy: Option<nat>)

  datatype Session = Session(user: nat, revoked: bool)

  datatype State = State(tokens: seq<RefreshToken>, sessions: seq<Session>)

  const NO_SESSIONS: State := State([], [])

  datatype Error = TokenInvalid | SessionRevoked | ReuseDetected

  datatype Outcome = Outcome(state: State, result: Result<nat, Error>)

  // ---------------------------------------------------------------- what each call does

  function Open(s: State, user: nat, now: int, lifetime: int): (r: State) {
    State(s.tokens + [RefreshToken(|s.sessions|, now + lifetime, None, None)], s.sessions + [Session(user, false)])
  }

  function Revoke(s: State, session: nat): (r: State) {
    if session < |s.sessions| then s.(sessions := s.sessions[session := s.sessions[session].(revoked := true)]) else s
  }

  /** Revoke a user's sessions, sparing at most one. */
  function RevokeAll(s: State, user: nat, spared: Option<nat>): (r: State)
    ensures |r.sessions| == |s.sessions|
  {
    s.(sessions := seq(|s.sessions|, i requires 0 <= i < |s.sessions| =>
      if s.sessions[i].user == user && spared != Some(i) then s.sessions[i].(revoked := true) else s.sessions[i]))
  }

  function Rotate(s: State, token: nat, now: int, lifetime: int): (r: Outcome) {
    if token >= |s.tokens| || s.tokens[token].expires <= now then Outcome(s, Failure(TokenInvalid))
    else
      var current := s.tokens[token];
      if current.session >= |s.sessions| || s.sessions[current.session].revoked then Outcome(s, Failure(SessionRevoked))
      else if current.usedAt.Some? then Outcome(Revoke(s, current.session), Failure(ReuseDetected))
      else
        var tokens := s.tokens[token := current.(usedAt := Some(now), replacedBy := Some(|s.tokens|))];
        Outcome(s.(tokens := tokens + [RefreshToken(current.session, now + lifetime, None, None)]), Success(|s.tokens|))
  }

  datatype Call =
    | Login(user: nat, now: int, lifetime: int)
    | Refresh(token: nat, now: int, lifetime: int)
    | Logout(session: nat)
    | LogoutAll(user: nat)
    | PasswordReset(user: nat)
    | PasswordChange(user: nat, keep: nat)

  function Step(s: State, c: Call): (r: State) {
    match c
    case Login(user, now, lifetime) => Open(s, user, now, lifetime)
    case Refresh(token, now, lifetime) => Rotate(s, token, now, lifetime).state
    case Logout(session) => Revoke(s, session)
    case LogoutAll(user) => RevokeAll(s, user, None)
    case PasswordReset(user) => RevokeAll(s, user, None)
    case PasswordChange(user, keep) => RevokeAll(s, user, Some(keep))
  }

  function Run(s: State, calls: seq<Call>): (r: State) {
    if calls == [] then s else Step(Run(s, calls[..|calls| - 1]), calls[|calls| - 1])
  }

  // ---------------------------------------------------------------- the service

  class Service {
    var tokens: seq<RefreshToken>
    var sessions: seq<Session>

    ghost function View(): (s: State)
      reads this
    {
      State(tokens, sessions)
    }

    constructor ()
      ensures View() == NO_SESSIONS
    {
      tokens, sessions := [], [];
    }

    method OpenSession(user: nat, now: int, lifetime: int) returns (token: nat)
      modifies this
      ensures View() == Open(old(View()), user, now, lifetime) && token == |old(tokens)|
    {
      sessions := sessions + [Session(user, false)];
      tokens := tokens + [RefreshToken(|sessions| - 1, now + lifetime, None, None)];
      token := |tokens| - 1;
    }

    method RevokeSession(session: nat)
      modifies this`sessions
      ensures View() == Revoke(old(View()), session)
    {
      if session < |sessions| && !sessions[session].revoked {
        sessions := sessions[session := sessions[session].(revoked := true)];
      }
    }

    /** Returns the sessions that were live until now, for the access-token denylist. */
    method RevokeAllSessions(user: nat, spared: Option<nat>) returns (ids: seq<nat>)
      modifies this`sessions
      ensures View() == RevokeAll(old(View()), user, spared)
      ensures forall i :: i in ids <==> 0 <= i < |old(sessions)| && !old(sessions)[i].revoked && sessions[i].revoked
    {
      ids := [];
      for k := 0 to |sessions|
        invariant |sessions| == |old(sessions)|
        invariant forall i | 0 <= i < k :: sessions[i] == RevokeAll(old(View()), user, spared).sessions[i]
        invariant forall i | k <= i < |sessions| :: sessions[i] == old(sessions)[i]
        invariant forall i :: i in ids <==> 0 <= i < k && !old(sessions)[i].revoked && sessions[i].revoked
      {
        if sessions[k].user == user && !sessions[k].revoked && spared != Some(k) {
          sessions := sessions[k := sessions[k].(revoked := true)];
          ids := ids + [k];
        }
      }
    }

    method RotateRefreshToken(token: nat, now: int, lifetime: int) returns (r: Result<nat, Error>)
      modifies this
      ensures Outcome(View(), r) == Rotate(old(View()), token, now, lifetime)
    {
      if token >= |tokens| || tokens[token].expires <= now {
        return Failure(TokenInvalid);
      }
      var session := tokens[token].session;
      if session >= |sessions| || sessions[session].revoked {
        return Failure(SessionRevoked);
      }
      if tokens[token].usedAt.Some? {
        RevokeSession(session);
        return Failure(ReuseDetected);
      }
      var replacement := |tokens|;
      tokens := tokens + [RefreshToken(session, now + lifetime, None, None)];
      tokens := tokens[token := tokens[token].(usedAt := Some(now), replacedBy := Some(replacement))];
      return Success(replacement);
    }
  }

  // ---------------------------------------------------------------- one chain per session

  /** A token was used exactly when it was replaced, by a later token of its own session. */
  ghost predicate LinkOk(s: State, i: nat)
    requires i < |s.tokens|
  {
    var t := s.tokens[i];
    && t.session < |s.sessions|
    && (t.usedAt.Some? <==> t.replacedBy.Some?)
    && (t.replacedBy.Some? ==> i < t.replacedBy.value < |s.tokens| && s.tokens[t.replacedBy.value].session == t.session)
  }

  ghost predicate Unused(s: State, i: int) {
    0 <= i < |s.tokens| && s.tokens[i].usedAt.None?
  }

  ghost predicate HasLive(s: State, session: nat) {
    exists i | 0 <= i < |s.tokens| :: Unused(s, i) && s.tokens[i].session == session
  }

  /**
   Links go forward within a session, no two tokens share a replacement, and each session has one
   unused token and no second: its tokens are one chain that ends there.
   */
  ghost predicate Valid(s: State) {
    && (forall i | 0 <= i < |s.tokens| :: LinkOk(s, i))
    && (forall i, j | 0 <= i < j < |s.tokens| && s.tokens[i].replacedBy.Some? ::
          s.tokens[i].replacedBy != s.tokens[j].replacedBy)
    && (forall i, j | 0 <= i < j < |s.tokens| && Unused(s, i) && Unused(s, j) :: s.tokens[i].session != s.tokens[j].session)
    && (forall x | 0 <= x < |s.sessions| :: HasLive(s, x))
  }

  lemma OpenKeeps(s: State, user: nat, now: int, lifetime: int)
    requires Valid(s)
    ensures Valid(Open(s, user, now, lifetime))
  {
    var r := Open(s, user, now, lifetime);
    forall i | 0 <= i < |r.tokens| ensures LinkOk(r, i) {
      assert i < |s.tokens| ==> LinkOk(s, i);
    }
    forall x | 0 <= x < |r.sessions| ensures HasLive(r, x) {
      if x < |s.sessions| {
        assert HasLive(s, x);
        var i :| 0 <= i < |s.tokens| && Unused(s, i) && s.tokens[i].session == x;
        assert Unused(r, i);
      } else {
        assert Unused(r, |s.tokens|);
      }
    }
    forall i, j | 0 <= i < j < |r.tokens| && Unused(r, i) && Unused(r, j)
      ensures r.tokens[i].session != r.tokens[j].session
    {
      assert LinkOk(s, i);
      assert j < |s.tokens| ==> Unused(s, i) && Unused(s, j);
    }
  }

  lemma RotateKeeps(s: State, token: nat, now: int, lifetime: int)
    requires Valid(s)
    ensures Valid(Rotate(s, token, now, lifetime).state)
  {
    var o := Rotate(s, token, now, lifetime);
    var r := o.state;
    if o.result.Success? {
      forall i | 0 <= i < |r.tokens| ensures LinkOk(r, i) {
        assert i < |s.tokens| ==> LinkOk(s, i);
        assert LinkOk(s, token);
      }
      forall x | 0 <= x < |r.sessions| ensures HasLive(r, x) {
        assert HasLive(s, x);
        var i :| 0 <= i < |s.tokens| && Unused(s, i) && s.tokens[i].session == x;
        assert i != token ==> Unused(r, i);
        assert Unused(r, |s.tokens|);
      }
      forall i, j | 0 <= i < j < |r.tokens| && Unused(r, i) && Unused(r, j)
        ensures r.tokens[i].session != r.tokens[j].session
      {
        assert i != token && Unused(s, i) && Unused(s, token);
        assert j < |s.tokens| ==> Unused(s, j);
      }
      forall i, j | 0 <= i < j < |r.tokens| && r.tokens[i].replacedBy.Some?
        ensures r.tokens[i].replacedBy != r.tokens[j].replacedBy
      {
        assert LinkOk(s, i);
        assert j < |s.tokens| ==> LinkOk(s, j);
      }
    } else {
      SameTokensValid(s, r);
    }
  }

  lemma SameTokensValid(s: State, r: State)
    requires Valid(s) && r.tokens == s.tokens && |r.sessions| == |s.sessions|
    ensures Valid(r)
  {
    forall i | 0 <= i < |r.tokens| ensures LinkOk(r, i) {
      assert LinkOk(s, i);
    }
    forall i, j | 0 <= i < j < |r.tokens| && Unused(r, i) && Unused(r, j) ensures r.tokens[i].session != r.tokens[j].session {
      assert Unused(s, i) && Unused(s, j);
    }
    forall x | 0 <= x < |r.sessions| ensures HasLive(r, x) {
      assert HasLive(s, x);
      var i :| 0 <= i < |s.tokens| && Unused(s, i) && s.tokens[i].session == x;
      assert Unused(r, i);
    }
  }

  lemma StepKeeps(s: State, c: Call)
    requires Valid(s)
    ensures Valid(Step(s, c))
  {
    match c {
      case Login(user, now, lifetime) => OpenKeeps(s, user, now, lifetime);
      case Refresh(token, now, lifetime) => RotateKeeps(s, token, now, lifetime);
      case _ => SameTokensValid(s, Step(s, c));
    }
  }

  lemma {:induction false} RunKeeps(s: State, calls: seq<Call>)
    requires Valid(s)
    ensures Valid(Run(s, calls))
  {
    if calls != [] {
      RunKeeps(s, calls[..|calls| - 1]);
      StepKeeps(Run(s, calls[..|calls| - 1]), calls[|calls| - 1]);
    }
  }

  /** Where following `replaced_by_id` from a token ends. */
  ghost function End(s: State, i: nat): (r: nat)
    requires Valid(s) && i < |s.tokens|
    decreases |s.tokens| - i
  {
    assert LinkOk(s, i);
    if s.tokens[i].replacedBy.None? then i else End(s, s.tokens[i].replacedBy.value)
  }

  lemma {:induction false} EndIsLive(s: State, i: nat)
    requires Valid(s) && i < |s.tokens|
    ensures i <= End(s, i) < |s.tokens| && Unused(s, End(s, i)) && s.tokens[End(s, i)].session == s.tokens[i].session
    decreases |s.tokens| - i
  {
    assert LinkOk(s, i);
    if s.tokens[i].replacedBy.Some? {
      EndIsLive(s, s.tokens[i].replacedBy.value);
    }
  }

  /**
   In every reachable state each session has an unused token, it is the only one, and the links of
   every token of the session lead to it, forward and without merging: one acyclic chain.
   */
  lemma OneLiveTokenPerSession(calls: seq<Call>, session: nat)
    requires session < |Run(NO_SESSIONS, calls).sessions|
    ensures var s := Run(NO_SESSIONS, calls);
            && Valid(s)
            && exists live | 0 <= live < |s.tokens| ::
                 && Unused(s, live) && s.tokens[live].session == session
                 && (forall i | 0 <= i < |s.tokens| && s.tokens[i].session == session ::
                       (Unused(s, i) <==> i == live) && End(s, i) == live)
  {
    var s := Run(NO_SESSIONS, calls);
    RunKeeps(NO_SESSIONS, calls);
    assert HasLive(s, session);
    var live :| 0 <= live < |s.tokens| && Unused(s, live) && s.tokens[live].session == session;
    forall i | 0 <= i < |s.tokens| && s.tokens[i].session == session
      ensures (Unused(s, i) <==> i == live) && End(s, i) == live
    {
      EndIsLive(s, i);
      OnlyLive(s, End(s, i), live);
      if Unused(s, i) {
        OnlyLive(s, i, live);
      }
    }
  }

  lemma OnlyLive(s: State, i: nat, j: nat)
    requires Valid(s) && Unused(s, i) && Unused(s, j) && s.tokens[i].session == s.tokens[j].session
    ensures i == j
  {
  }

  // ---------------------------------------------------------------- reuse kills the family

  lemma RevokedStaysRevoked(s: State, c: Call, session: nat)
    requires session < |s.sessions| && s.sessions[session].revoked
    ensures session < |Step(s, c).sessions| && Step(s, c).sessions[session].revoked
  {
  }

  lemma {:induction false} RevocationIsFinal(s: State, calls: seq<Call>, session: nat)
    requires session < |s.sessions| && s.sessions[session].revoked
    ensures session < |Run(s, calls).sessions| && Run(s, calls).sessions[session].revoked
  {
    if calls != [] {
      var init := calls[..|calls| - 1];
      RevocationIsFinal(s, init, session);
      RevokedStaysRevoked(Run(s, init), calls[|calls| - 1], session);
    }
  }

  /**
   Once an unexpired token that was already used is presented, its session is revoked and no token of
   that session ever rotates again, in any later state.
   */
  lemma ReuseKillsSession(s: State, token: nat, now: int, lifetime: int, calls: seq<Call>, other: nat, later: int)
    requires Valid(s) && token < |s.tokens| && s.tokens[token].usedAt.Some? && now < s.tokens[token].expires
    ensures var dead := Rotate(s, token, now, lifetime).state;
            var after := Run(dead, calls);
            other < |after.tokens| && after.tokens[other].session == s.tokens[token].session ==>
              Rotate(after, other, later, lifetime).result.Failure? && Rotate(after, other, later, lifetime).state == after
  {
    assert LinkOk(s, token);
    var session := s.tokens[token].session;
    var dead := Rotate(s, token, now, lifetime).state;
    assert dead.sessions[session].revoked;
    RevocationIsFinal(dead, calls, session);
  }
}
