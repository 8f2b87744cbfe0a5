/** Whose session a token is, and what each reply of login, refresh and logout means. */
module Sessions {
  import opened Domain
  import opened RefreshTokens

  // ----- the tokens a reply hands out

  /** The token is a refresh token of the subject, signed at the given moment: it expires the
      lifetime later, cut to a whole second. */
  predicate SignedFor(t: Token, sub: Subject, ttl: int, moment: nat, jti: nat) {
    && t.sub == sub && t.kind == Refresh && t.jti == jti
    && t.exp * 1000 <= moment + ttl * 1000 < t.exp * 1000 + 1000
  }

  // The token is stored until the lifetime after the given moment, or not at all.
  predicate StoredFor(s: Auth, t: Token) {
    if s.ttl > 0 then t in s.entries && s.entries[t] == Entry(t.sub, s.now + s.ttl * 1000) else t !in s.entries
  }

  /** A login is granted exactly when the store goes through. It hands the browser a new token
      of the user who logged in. */
  lemma LoginGrants(s: Auth, browser: Browser, user: nat, jti: nat, lag: nat, up: bool)
    requires Inv(s) && FreshId(s, Login(browser, user, jti, lag, up))
    ensures var (s', reply) := Step(s, Login(browser, user, jti, lag, up));
            && (reply.Granted? <==> up) && (!up ==> reply == Unavailable && s'.jar == s.jar && s'.entries == s.entries)
            && s'.now == s.now + lag
            && (up ==>
                && SignedFor(reply.token, Uuid(user), s.ttl, s.now, jti) && StoredFor(s', reply.token)
                && s'.jar == s.jar[browser := reply.token] && reply.token !in s.signed
                && reply.token in s'.origin && s'.origin[reply.token] == jti)
  {
  }

  /** A granted refresh hands the browser a new token of the subject of the token presented, of
      the same login. */
  lemma RefreshGrants(s: Auth, browser: Browser, cookie: Cookie, jti: nat, lag: nat, redis: Redis)
    requires Inv(s) && FreshId(s, Rotate(browser, cookie, jti, lag, redis))
    ensures var (s', reply) := Step(s, Rotate(browser, cookie, jti, lag, redis));
            && (!reply.Granted? ==> s'.jar == s.jar)
            && (reply.Granted? ==>
                && cookie.Signed? && cookie.token in s.origin
                && SignedFor(reply.token, cookie.token.sub, s.ttl, s.now, jti) && StoredFor(s', reply.token)
                && s'.jar == s.jar[browser := reply.token] && reply.token !in s.signed
                && s'.now == s.now + lag
                && reply.token in s'.origin && s'.origin[reply.token] == s.origin[cookie.token])
  {
    var p := Presented(s, cookie);
    if p.Some? && p.value in s.entries { assert p.value in s.signed; }
  }

  // ----- when a refresh and a logout are refused

  /** The cookie holds a refresh token that the server signed and that still decodes. */
  predicate Valid(s: Auth, c: Cookie) {
    c.Signed? && c.token in s.signed && s.now < c.token.exp * 1000 + s.grace
  }

  lemma PresentedIff(s: Auth, c: Cookie)
    requires Inv(s)
    ensures Presented(s, c) == if Valid(s, c) then Some(c.token) else None
  {
  }

  // The store still maps the token to its subject.
  predicate Live(s: Auth, t: Token) { t in s.entries && s.now < s.entries[t].deadline }

  /** The three replies of a refresh: granted exactly for a valid, live token when every call
      goes through; 401 exactly for an invalid token, or one the store does not have any more;
      503 when a call fails that is made. */
  lemma RefreshReplies(s: Auth, browser: Browser, c: Cookie, jti: nat, lag: nat, redis: Redis)
    requires Inv(s)
    ensures var reply := Step(s, Rotate(browser, c, jti, lag, redis)).1;
            && (reply.Granted? <==> Valid(s, c) && Live(s, c.token) && redis.get && redis.store && redis.revoke)
            && (reply == Unauthorized <==> !Valid(s, c) || (redis.get && !Live(s, c.token)))
            && (reply == Unavailable <==>
                  Valid(s, c) && (!redis.get || (Live(s, c.token) && (!redis.store || !redis.revoke))))
  {
    PresentedIff(s, c);
  }

  /** The three replies of a logout: it succeeds exactly for a valid token when the revoke goes
      through, 401 exactly for an invalid one, 503 exactly when the revoke fails. A success takes
      the token out of the store and the cookie out of the browser; a failure changes nothing. */
  lemma LogoutReplies(s: Auth, browser: Browser, c: Cookie, up: bool)
    requires Inv(s)
    ensures var (s', reply) := Step(s, Logout(browser, c, up));
            && (reply.LoggedOut? <==> Valid(s, c) && up)
            && (reply == Unauthorized <==> !Valid(s, c))
            && (reply == Unavailable <==> Valid(s, c) && !up)
            && (reply.LoggedOut? ==> reply.cleared && s'.entries == s.entries - {c.token} && s'.jar == s.jar - {browser})
            && (!reply.LoggedOut? ==> s' == s)
  {
    PresentedIff(s, c);
  }

  /** A logout of a valid token whose revoke goes through ends it for good. */
  lemma LogoutEnds(s: Auth, browser: Browser, t: Token, acts: seq<Action>, b: Browser, jti: nat, redis: Redis)
    requires Inv(s) && Valid(s, Signed(t)) && Runs(Step(s, Logout(browser, Signed(t), true)).0, acts)
    ensures !Accepts(Exec(Step(s, Logout(browser, Signed(t), true)).0, acts), t, b, jti, redis)
  {
    LogoutReplies(s, browser, Signed(t), true);
    SingleUse(s, Logout(browser, Signed(t), true), acts, t, b, jti, redis);
  }

  /** A refresh of a valid, live token whose calls go through ends that token for good. */
  lemma RefreshEnds(s: Auth, a: Action, t: Token, acts: seq<Action>, b: Browser, jti: nat, redis: Redis)
    requires Inv(s) && FreshId(s, a) && a.Rotate? && a.cookie == Signed(t) && a.redis == ALL_UP
    requires Valid(s, Signed(t)) && Live(s, t) && Runs(Step(s, a).0, acts)
    ensures !Accepts(Exec(Step(s, a).0, acts), t, b, jti, redis)
  {
    RefreshReplies(s, a.browser, a.cookie, a.jti, a.lag, a.redis);
    SingleUse(s, a, acts, t, b, jti, redis);
  }

  lemma TimeStep(s: Auth, a: Action)
    ensures Step(s, a).0.now >= s.now && Step(s, a).0.grace == s.grace
    ensures a.Wait? ==> Step(s, a).0.now == s.now + a.ms
  {
  }

  lemma {:induction false} TimePasses(s: Auth, acts: seq<Action>)
    requires Runs(s, acts)
    ensures Exec(s, acts).now >= s.now && Exec(s, acts).grace == s.grace
  {
    if acts != [] {
      TimePasses(s, acts[..|acts| - 1]);
      TimeStep(Exec(s, acts[..|acts| - 1]), acts[|acts| - 1]);
    }
  }

  /** Once its expiry and the grace are over, no continuation of the run accepts a token. */
  lemma ExpiredForGood(s: Auth, ms: nat, acts: seq<Action>, t: Token, b: Browser, jti: nat, redis: Redis)
    requires Inv(s) && s.now + ms >= t.exp * 1000 + s.grace && Runs(Step(s, Wait(ms)).0, acts)
    ensures !Accepts(Exec(Step(s, Wait(ms)).0, acts), t, b, jti, redis)
  {
    TimeStep(s, Wait(ms));
    TimePasses(Step(s, Wait(ms)).0, acts);
    InvKept(s, Wait(ms));
    InvInRuns(Step(s, Wait(ms)).0, acts);
    AcceptedIff(Exec(Step(s, Wait(ms)).0, acts), t, b, jti, redis);
  }

  /** A fresh token number always exists, so anyone can log in and refresh at any time. */
  lemma EveryoneMayAsk(s: Auth, browser: Browser, user: nat, cookie: Cookie, redis: Redis, up: bool)
    ensures exists jti :: FreshId(s, Login(browser, user, jti, 0, up)) && FreshId(s, Rotate(browser, cookie, jti, 0, redis))
  {
    var jti := FreshKey(s.doubles.Keys + set t | t in s.signed :: t.jti);
    assert FreshId(s, Login(browser, user, jti, 0, up)) && FreshId(s, Rotate(browser, cookie, jti, 0, redis));
  }

  // ----- whose tokens there are

  // The run has a login of the user under this number.
  predicate LoggedInAs(acts: seq<Action>, login: LoginId, sub: Subject) {
    exists k :: 0 <= k < |acts| && IsLogin(acts[k], login, sub)
  }

  predicate IsLogin(a: Action, login: LoginId, sub: Subject) { a.Login? && a.jti == login && sub == Uuid(a.user) }

  lemma LoggedInLater(acts: seq<Action>, login: LoginId, sub: Subject)
    requires acts != [] && LoggedInAs(acts[..|acts| - 1], login, sub)
    ensures LoggedInAs(acts, login, sub)
  {
    var before := acts[..|acts| - 1];
    var k :| 0 <= k < |before| && IsLogin(before[k], login, sub);
    assert IsLogin(acts[k], login, sub);
  }

  // A token that is new after a step is of the login, or of the subject and login presented.
  lemma NewTokenIs(s: Auth, a: Action, t: Token)
    requires Inv(s) && FreshId(s, a) && t in Step(s, a).0.signed && t !in s.signed
    ensures t in Step(s, a).0.origin
    ensures a.Login? ==> IsLogin(a, Step(s, a).0.origin[t], t.sub)
    ensures !a.Login? ==>
              && a.Rotate? && a.cookie.Signed? && a.cookie.token in s.origin
              && t.sub == a.cookie.token.sub && Step(s, a).0.origin[t] == s.origin[a.cookie.token]
  {
    if a.Rotate? && Presented(s, a.cookie).Some? {
      var o := Presented(s, a.cookie).value;
      if o in s.entries { assert o in s.signed; }
    }
  }

  /** In every run from the empty store, each signed token names the user of the login it
      descends from, however often it was rotated and whatever failed. */
  lemma {:induction false} TokensNameTheirUser(ttl: int, grace: nat, now: nat, acts: seq<Action>, t: Token)
    requires Runs(Empty(ttl, grace, now), acts) && t in Exec(Empty(ttl, grace, now), acts).signed
    ensures var s := Exec(Empty(ttl, grace, now), acts);
            t in s.origin && LoggedInAs(acts, s.origin[t], t.sub)
    decreases |acts|
  {
    var before := acts[..|acts| - 1];
    var mid, a := Exec(Empty(ttl, grace, now), before), acts[|acts| - 1];
    EmptyInv(ttl, grace, now);
    InvInRuns(Empty(ttl, grace, now), before);
    if t in mid.signed {
      TokensNameTheirUser(ttl, grace, now, before, t);
      LoggedInLater(acts, mid.origin[t], t.sub);
      EffectAt(mid, a, t);
    } else {
      NewTokenIs(mid, a, t);
      if !a.Login? {
        TokensNameTheirUser(ttl, grace, now, before, a.cookie.token);
        LoggedInLater(acts, mid.origin[a.cookie.token], t.sub);
      }
    }
  }

  // Login numbers do not repeat, so the user of a login is unique.
  lemma {:induction false} OneUserPerLogin(s: Auth, acts: seq<Action>, i: nat, j: nat)
    requires Runs(s, acts) && i < j < |acts| && acts[i].Login? && acts[j].Login?
    ensures acts[i].jti != acts[j].jti
  {
    LaterIsFresh(s, acts, j);
    assert acts[..j][i] == acts[i];
    DoublesStay(s, acts[..j], i);
  }

  lemma {:induction false} LaterIsFresh(s: Auth, acts: seq<Action>, j: nat)
    requires Runs(s, acts) && j < |acts|
    ensures Runs(s, acts[..j]) && FreshId(Exec(s, acts[..j]), acts[j])
    decreases |acts|
  {
    if j < |acts| - 1 {
      LaterIsFresh(s, acts[..|acts| - 1], j);
      assert acts[..|acts| - 1][..j] == acts[..j];
    }
  }

  lemma {:induction false} DoublesStay(s: Auth, acts: seq<Action>, i: nat)
    requires i < |acts| && acts[i].Login? && Runs(s, acts)
    ensures acts[i].jti in Exec(s, acts).doubles
    decreases |acts|
  {
    if i < |acts| - 1 { DoublesStay(s, acts[..|acts| - 1], i); }
  }

  // ----- whose cookie a browser holds

  /** The user of the last login granted at the browser. */
  ghost function LastUser(s: Auth, acts: seq<Action>, b: Browser): Option<nat>
    requires Runs(s, acts)
  {
    if acts == [] then None
    else
      var mid, a := Exec(s, acts[..|acts| - 1]), acts[|acts| - 1];
      if a.Login? && a.browser == b && a.up then Some(a.user) else LastUser(s, acts[..|acts| - 1], b)
  }

  /** When browsers send their own cookies, the cookie of a browser names the user who last
      logged in there. */
  lemma {:induction false} CookieNamesLastUser(ttl: int, grace: nat, now: nat, acts: seq<Action>, b: Browser)
    requires Runs(Empty(ttl, grace, now), acts) && HonestRun(Empty(ttl, grace, now), acts)
    requires b in Exec(Empty(ttl, grace, now), acts).jar
    ensures LastUser(Empty(ttl, grace, now), acts, b).Some?
    ensures Exec(Empty(ttl, grace, now), acts).jar[b].sub == Uuid(LastUser(Empty(ttl, grace, now), acts, b).value)
    decreases |acts|
  {
    var s := Empty(ttl, grace, now);
    var before := acts[..|acts| - 1];
    var mid, a := Exec(s, before), acts[|acts| - 1];
    EmptyInv(ttl, grace, now);
    InvInRuns(s, before);
    CookieAfter(mid, a, b);
    if !(a.Login? && a.browser == b && a.up) { CookieNamesLastUser(ttl, grace, now, before, b); }
  }

  // A browser's cookie keeps its subject, but for a granted login there.
  lemma CookieAfter(s: Auth, a: Action, b: Browser)
    requires Inv(s) && FreshId(s, a) && Honest(s, a) && b in Step(s, a).0.jar
    ensures var s' := Step(s, a).0;
            if a.Login? && a.browser == b && a.up then s'.jar[b].sub == Uuid(a.user)
            else b in s.jar && s'.jar[b].sub == s.jar[b].sub
  {
    match a
    case Login(browser, user, jti, lag, up) => LoginGrants(s, browser, user, jti, lag, up);
    case Rotate(browser, c, jti, lag, redis) => RefreshGrants(s, browser, c, jti, lag, redis);
    case Logout(browser, c, up) => LogoutReplies(s, browser, c, up);
    case Wait(_) =>
  }

  // ----- what the bound on live tokens counts

  // A rotation of the login in which the store went through and both revokes failed.
  predicate BothRevokesFailed(s: Auth, a: Action, login: LoginId) {
    && a.Rotate? && Valid(s, a.cookie) && Live(s, a.cookie.token) && a.cookie.token in s.origin
    && s.origin[a.cookie.token] == login
    && a.redis.get && a.redis.store && !a.redis.revoke && !a.redis.undo
  }

  ghost function DoubleFailures(s: Auth, acts: seq<Action>, login: LoginId): nat
    requires Runs(s, acts)
  {
    if acts == [] then 0
    else
      DoubleFailures(s, acts[..|acts| - 1], login)
      + if BothRevokesFailed(Exec(s, acts[..|acts| - 1]), acts[|acts| - 1], login) then 1 else 0
  }

  lemma CountAfter(s: Auth, a: Action, login: LoginId)
    requires Inv(s) && FreshId(s, a)
    ensures var s' := Step(s, a).0;
            && (login in s'.doubles <==> login in s.doubles || (a.Login? && a.jti == login))
            && (login in s'.doubles ==>
                  s'.doubles[login] == (if login in s.doubles then s.doubles[login] else 0)
                                       + if BothRevokesFailed(s, a, login) then 1 else 0)
  {
    if a.Rotate? {
      PresentedIff(s, a.cookie);
      if Valid(s, a.cookie) { assert a.cookie.token in s.signed; }
    }
  }

  lemma {:induction false} CountsAre(ttl: int, grace: nat, now: nat, acts: seq<Action>, login: LoginId)
    requires Runs(Empty(ttl, grace, now), acts)
    ensures var s := Exec(Empty(ttl, grace, now), acts);
            if login in s.doubles then s.doubles[login] == DoubleFailures(Empty(ttl, grace, now), acts, login)
            else DoubleFailures(Empty(ttl, grace, now), acts, login) == 0
  {
    if acts != [] {
      var s, before := Empty(ttl, grace, now), acts[..|acts| - 1];
      EmptyInv(ttl, grace, now);
      InvInRuns(s, before);
      CountsAre(ttl, grace, now, before, login);
      CountAfter(Exec(s, before), acts[|acts| - 1], login);
    }
  }

  /** The tokens of a login that a refresh would accept. */
  function LiveTokens(s: Auth, login: LoginId): set<Token> {
    set t | t in s.signed && t in s.origin && s.origin[t] == login && Live(s, t) && Valid(s, Signed(t))
  }

  lemma LiveTokensInFamily(s: Auth, login: LoginId)
    requires Inv(s)
    ensures LiveTokens(s, login) <= LiveFamily(s, login)
    ensures login !in s.doubles ==> LiveTokens(s, login) == {}
  {
  }

  /** In every run from the empty store, whatever Redis calls fail, the tokens of a login that a
      refresh would accept are at most one more than its rotations in which both revokes failed. */
  lemma LiveTokensAreBounded(ttl: int, grace: nat, now: nat, acts: seq<Action>, login: LoginId)
    requires Runs(Empty(ttl, grace, now), acts)
    ensures |LiveTokens(Exec(Empty(ttl, grace, now), acts), login)|
            <= 1 + DoubleFailures(Empty(ttl, grace, now), acts, login)
  {
    var s := Exec(Empty(ttl, grace, now), acts);
    EmptyInv(ttl, grace, now);
    InvInRuns(Empty(ttl, grace, now), acts);
    LiveTokensInFamily(s, login);
    CountsAre(ttl, grace, now, acts, login);
    if login in s.doubles {
      LiveTokensPerLogin(ttl, grace, now, acts, login);
      SubsetSize(LiveTokens(s, login), LiveFamily(s, login));
    }
  }
}
