/** Login, refresh-token rotation and logout over a Redis store that may fail at any call. */
module RefreshTokens {
  import opened Domain

  type Browser = nat
  type LoginId = nat

  // `sub` is a user's UUID in every token the server signs.
  datatype Subject = Uuid(id: nat) | Text(s: string)
  datatype Kind = Access | Refresh

  /** A signed token. `exp` is in whole seconds; `jti` is the fresh id of a refresh token. */
  datatype Token = Token(sub: Subject, kind: Kind, exp: int, jti: nat)

  // A Redis key with its expiry, in milliseconds.
  datatype Entry = Entry(subject: Subject, deadline: int)

  type Entries = map<Token, Entry>

  datatype Cookie = NoCookie | Junk | Signed(token: Token)

  datatype Reply = Granted(token: Token) | LoggedOut(cleared: bool) | Unauthorized | Unavailable

  /** Whether each Redis call of a refresh goes through. */
  datatype Redis = Redis(get: bool, store: bool, revoke: bool, undo: bool)

  /** `now` is in milliseconds and `ttl`, the configured lifetime, in seconds; a token decodes
      for up to `grace` milliseconds past its expiry. `signed` holds
      every refresh token made. The last three fields are history: the login a token descends
      from, how many rotations of a login had both revokes fail, and the tokens that a
      successful rotation or logout has ended. */
  datatype Auth = Auth(
    ttl: int, grace: nat, now: nat, entries: Entries, signed: set<Token>, jar: map<Browser, Token>,
    origin: map<Token, LoginId>, doubles: map<LoginId, nat>, retired: set<Token>)

  datatype Action =
    | Login(browser: Browser, user: nat, jti: nat, lag: nat, up: bool)
    | Rotate(browser: Browser, cookie: Cookie, jti: nat, lag: nat, redis: Redis)
    | Logout(browser: Browser, cookie: Cookie, up: bool)
    | Wait(ms: nat)

  // ----- the store

  function Stored(es: Entries, t: Token, sub: Subject, ttl: int, now: nat): Entries {
    if ttl <= 0 then es else es[t := Entry(sub, now + ttl * 1000)]
  }

  function Lookup(es: Entries, t: Token, now: nat): Option<Subject> {
    if t in es && now < es[t].deadline then Some(es[t].subject) else None
  }

  // ----- tokens

  function NewToken(sub: Subject, ttl: int, now: nat, jti: nat): Token {
    Token(sub, Refresh, now / 1000 + ttl, jti)
  }

  predicate Unexpired(t: Token, now: nat) { now < t.exp * 1000 }

  predicate Decodes(s: Auth, t: Token) { s.now < t.exp * 1000 + s.grace }

  // Access tokens carry the same signature, so decode_token accepts them.
  predicate Genuine(s: Auth, t: Token) { t in s.signed || t.kind == Access }

  predicate EmptySubject(sub: Subject) { sub.Text? && sub.s == "" }

  // _resolve_refresh_token, decode_token and the check of the subject and the type.
  function Presented(s: Auth, c: Cookie): Option<Token> {
    if c.Signed? && Genuine(s, c.token) && Decodes(s, c.token)
       && !EmptySubject(c.token.sub) && c.token.kind == Refresh
    then Some(c.token)
    else None
  }

  // ----- the three endpoints

  // A new token is signed; `lag` milliseconds pass before the next Redis call.
  function Issue(s: Auth, t: Token, login: LoginId, lag: nat): Auth {
    s.(signed := s.signed + {t}, origin := s.origin[t := login], now := s.now + lag)
  }

  function Save(s: Auth, t: Token): Auth { s.(entries := Stored(s.entries, t, t.sub, s.ttl, s.now)) }

  function Drop(s: Auth, t: Token): Auth { s.(entries := s.entries - {t}) }

  function End(s: Auth, t: Token): Auth { s.(entries := s.entries - {t}, retired := s.retired + {t}) }

  function Give(s: Auth, b: Browser, t: Token): Auth { s.(jar := s.jar[b := t]) }

  function CountDouble(s: Auth, login: LoginId): Auth {
    s.(doubles := s.doubles[login := 1 + if login in s.doubles then s.doubles[login] else 0])
  }

  function LoginStep(s: Auth, browser: Browser, user: nat, jti: nat, lag: nat, up: bool): (Auth, Reply) {
    var t := NewToken(Uuid(user), s.ttl, s.now, jti);
    var s1 := Issue(s.(doubles := s.doubles[jti := 0]), t, jti, lag);
    if !up then (s1, Unavailable) else (Give(Save(s1, t), browser, t), Granted(t))
  }

  function Successor(s: Auth, old_: Token, jti: nat): Token { NewToken(old_.sub, s.ttl, s.now, jti) }

  function LoginOf(s: Auth, t: Token): LoginId { if t in s.origin then s.origin[t] else 0 }

  // A refresh from the moment the stored subject has matched.
  function Exchange(s: Auth, browser: Browser, old_: Token, jti: nat, lag: nat, redis: Redis): (Auth, Reply) {
    var t, login := Successor(s, old_, jti), LoginOf(s, old_);
    var s1 := Issue(s, t, login, lag);
    if !redis.store then (s1, Unavailable)
    else if redis.revoke then (Give(End(Save(s1, t), old_), browser, t), Granted(t))
    else if redis.undo then (Drop(Save(s1, t), t), Unavailable)
    else (CountDouble(Save(s1, t), login), Unavailable)
  }

  function RotateStep(s: Auth, browser: Browser, cookie: Cookie, jti: nat, lag: nat, redis: Redis): (Auth, Reply) {
    match Presented(s, cookie)
    case None => (s, Unauthorized)
    case Some(old_) =>
      if !redis.get then (s, Unavailable)
      else if Lookup(s.entries, old_, s.now) != Some(old_.sub) then (s, Unauthorized)
      else Exchange(s, browser, old_, jti, lag, redis)
  }

  function LogoutStep(s: Auth, browser: Browser, cookie: Cookie, up: bool): (Auth, Reply) {
    match Presented(s, cookie)
    case None => (s, Unauthorized)
    case Some(t) =>
      if !up then (s, Unavailable)
      else
        var s1 := End(s, t);
        if !t.sub.Uuid? then (s1, LoggedOut(false))  // returns before the cookie is deleted
        else (s1.(jar := s1.jar - {browser}), LoggedOut(true))
  }

  function Step(s: Auth, a: Action): (Auth, Reply) {
    match a
    case Login(b, u, jti, lag, up) => LoginStep(s, b, u, jti, lag, up)
    case Rotate(b, c, jti, lag, redis) => RotateStep(s, b, c, jti, lag, redis)
    case Logout(b, c, up) => LogoutStep(s, b, c, up)
    case Wait(ms) => (s.(now := s.now + ms), Unauthorized)
  }

  // uuid4 never repeats.
  predicate FreshId(s: Auth, a: Action) {
    a.Login? || a.Rotate? ==> a.jti !in s.doubles && forall t :: t in s.signed ==> t.jti != a.jti
  }

  // ----- invariants

  /** Every stored entry is an issued refresh token under the subject signed in it, and its
      Redis deadline is not before the token's own expiry. */
  predicate Provenance(s: Auth) {
    forall t :: t in s.entries ==>
      t in s.signed && s.entries[t].subject == t.sub && t.exp * 1000 <= s.entries[t].deadline
  }

  predicate Issued(s: Auth) {
    && s.signed == s.origin.Keys
    && (forall t :: t in s.signed ==> t.kind == Refresh && t.sub.Uuid? && s.origin[t] in s.doubles)
  }

  predicate RetiredGone(s: Auth) { s.retired <= s.signed && s.retired !! s.entries.Keys }

  function Family(s: Auth, login: LoginId): set<Token>
  {
    set t | t in s.entries && t in s.origin && s.origin[t] == login
  }

  /** Stored tokens of one login: at most one, plus one for each rotation in which both the
      revoke of the old token and the revoke of the new one failed. */
  predicate Bounded(s: Auth) { forall l :: l in s.doubles ==> |Family(s, l)| <= 1 + s.doubles[l] }

  predicate Facts(s: Auth) { Provenance(s) && Issued(s) && RetiredGone(s) }

  predicate Inv(s: Auth) { Facts(s) && Bounded(s) }

  lemma DeadlineCoversExpiry(now: nat, lag: nat, ttl: int)
    ensures (now / 1000 + ttl) * 1000 <= now + lag + ttl * 1000
    ensures ttl <= 0 ==> (now / 1000 + ttl) * 1000 <= now
  {
  }

  lemma SubsetSize<T>(a: set<T>, b: set<T>)
    requires a <= b
    ensures |a| <= |b|
  {
    assert |b| == |a| + |b - a| by { assert b == a + (b - a); }
  }

  // A token about to be signed.
  predicate Mintable(s: Auth, t: Token, login: LoginId) {
    t !in s.signed && t.kind == Refresh && t.sub.Uuid? && login in s.doubles && t.exp * 1000 <= s.now + s.ttl * 1000
  }

  lemma Issuing(s: Auth, t: Token, login: LoginId, lag: nat)
    requires Facts(s) && Mintable(s, t, login)
    ensures Facts(Issue(s, t, login, lag)) && t !in s.entries && t !in s.retired
    ensures forall l :: Family(Issue(s, t, login, lag), l) == Family(s, l)
  {
    forall l ensures Family(Issue(s, t, login, lag), l) == Family(s, l) { }
  }

  lemma Saving(s: Auth, t: Token)
    requires Facts(s) && t in s.signed && t !in s.retired && t.exp * 1000 <= s.now + s.ttl * 1000
    ensures Facts(Save(s, t))
    ensures forall l :: Family(Save(s, t), l) <= Family(s, l) + {t}
    ensures forall l :: l != s.origin[t] ==> Family(Save(s, t), l) == Family(s, l)
  {
  }

  lemma Ending(s: Auth, t: Token)
    requires Facts(s) && t in s.signed
    ensures Facts(End(s, t))
    ensures forall l :: Family(End(s, t), l) == Family(s, l) - {t}
  {
    forall l ensures Family(End(s, t), l) == Family(s, l) - {t} { }
  }

  lemma Opening(s: Auth, login: LoginId)
    requires Facts(s) && login !in s.doubles
    ensures var s0 := s.(doubles := s.doubles[login := 0]);
            Facts(s0) && Family(s, login) == {} && forall l :: Family(s0, l) == Family(s, l)
  {
    var s0 := s.(doubles := s.doubles[login := 0]);
    forall l ensures Family(s0, l) == Family(s, l) { }
  }

  lemma EnteringFrom(s0: Auth, t: Token, login: LoginId, lag: nat, browser: Browser)
    requires Facts(s0) && Mintable(s0, t, login) && Family(s0, login) == {}
    ensures var s1 := Issue(s0, t, login, lag); var s2 := Give(Save(s1, t), browser, t);
            && Facts(s1) && Family(s1, login) == {} && Facts(s2) && Family(s2, login) <= {t}
            && (forall l :: Family(s1, l) == Family(s0, l))
            && (forall l :: l != login ==> Family(s2, l) == Family(s0, l))
  {
    Issuing(s0, t, login, lag);
    var s1 := Issue(s0, t, login, lag);
    Saving(s1, t);
    var s2 := Give(Save(s1, t), browser, t);
    forall l ensures Family(s2, l) == Family(Save(s1, t), l) { }
  }

  // A login starts a family with at most the new token in it.
  lemma Entering(s: Auth, a: Action)
    requires Facts(s) && FreshId(s, a) && a.Login?
    ensures var s' := Step(s, a).0;
            && Facts(s') && |Family(s', a.jti)| <= 1
            && (forall l :: l != a.jti ==> Family(s', l) == Family(s, l))
  {
    var t := NewToken(Uuid(a.user), s.ttl, s.now, a.jti);
    DeadlineCoversExpiry(s.now, a.lag, s.ttl);
    DeadlineCoversExpiry(s.now, 0, s.ttl);
    Opening(s, a.jti);
    EnteringFrom(s.(doubles := s.doubles[a.jti := 0]), t, a.jti, a.lag, a.browser);
    SubsetSize(Family(Step(s, a).0, a.jti), {t});
  }

  lemma LoginKeepsInv(s: Auth, a: Action)
    requires Inv(s) && FreshId(s, a) && a.Login?
    ensures Inv(Step(s, a).0)
  {
    Entering(s, a);
  }

  // The new token signed and stored, before the old one is revoked.
  lemma Overlapping(s: Auth, o: Token, jti: nat, lag: nat)
    requires Facts(s) && o in s.entries && jti !in s.doubles && forall t :: t in s.signed ==> t.jti != jti
    ensures var t := Successor(s, o, jti); var s1 := Issue(s, t, s.origin[o], lag); var s2 := Save(s1, t);
            && o in s2.signed && t != o && Facts(s1) && Facts(s2) && t !in s.entries
            && (forall l :: Family(s1, l) == Family(s, l))
            && Family(s2, s.origin[o]) <= Family(s, s.origin[o]) + {t}
            && (forall l :: l != s.origin[o] ==> Family(s2, l) == Family(s, l))
  {
    assert o in s.signed;
    DeadlineCoversExpiry(s.now, 0, s.ttl);
    DeadlineCoversExpiry(s.now, lag, s.ttl);
    Issuing(s, Successor(s, o, jti), s.origin[o], lag);
    Saving(Issue(s, Successor(s, o, jti), s.origin[o], lag), Successor(s, o, jti));
  }

  // What a granted or failed exchange leaves, family by family.
  lemma Exchanging(s: Auth, browser: Browser, o: Token, jti: nat, lag: nat, redis: Redis)
    requires Facts(s) && o in s.entries && jti !in s.doubles && forall t :: t in s.signed ==> t.jti != jti
    ensures var s', t := Exchange(s, browser, o, jti, lag, redis).0, Successor(s, o, jti);
            && Facts(s')
            && (forall l :: l != s.origin[o] ==> Family(s', l) == Family(s, l))
            && (!redis.store || (!redis.revoke && redis.undo) ==> s'.entries == s.entries)
            && (redis.store && redis.revoke ==> Family(s', s.origin[o]) <= Family(s, s.origin[o]) - {o} + {t})
            && Family(s', s.origin[o]) <= Family(s, s.origin[o]) + {t}
  {
    var t, login := Successor(s, o, jti), s.origin[o];
    Overlapping(s, o, jti, lag);
    var s1 := Issue(s, t, login, lag);
    var s2, s' := Save(s1, t), Exchange(s, browser, o, jti, lag, redis).0;
    if redis.store && redis.revoke {
      Ending(s2, o);
      SameFamilies(End(s2, o), s');
    } else if redis.store && redis.undo {
      assert s'.entries == s1.entries;
      SameFamilies(s1, s');
    } else if redis.store {
      SameFamilies(s2, s');
    }
  }

  lemma SameFamilies(s: Auth, s': Auth)
    requires s'.entries == s.entries && s'.origin == s.origin
    ensures forall l :: Family(s', l) == Family(s, l)
  {
    forall l ensures Family(s', l) == Family(s, l) { }
  }

  lemma RotateKeepsInv(s: Auth, a: Action)
    requires Inv(s) && FreshId(s, a) && a.Rotate?
    ensures Inv(Step(s, a).0)
  {
    var s', p := Step(s, a).0, Presented(s, a.cookie);
    if p.Some? && a.redis.get && Lookup(s.entries, p.value, s.now) == Some(p.value.sub) {
      var o := p.value;
      assert o in s.signed;
      var t, login := Successor(s, o, a.jti), s.origin[o];
      Exchanging(s, a.browser, o, a.jti, a.lag, a.redis);
      ExchangeBound(Family(s, login), Family(s', login), o, t);
      if s'.entries == s.entries { assert forall x :: x in Family(s', login) ==> x in Family(s, login); }
      forall l | l in s'.doubles ensures |Family(s', l)| <= 1 + s'.doubles[l] {
        if l == login && s'.entries == s.entries { SubsetSize(Family(s', l), Family(s, l)); }
      }
    }
  }

  lemma ExchangeBound(before: set<Token>, after: set<Token>, o: Token, t: Token)
    requires o in before
    ensures after <= before - {o} + {t} ==> |after| <= |before|
    ensures after <= before + {t} ==> |after| <= |before| + 1
  {
    if after <= before - {o} + {t} { SubsetSize(after, before - {o} + {t}); }
    if after <= before + {t} { SubsetSize(after, before + {t}); }
  }

  lemma LogoutKeepsInv(s: Auth, a: Action)
    requires Inv(s) && a.Logout?
    ensures Inv(Step(s, a).0)
  {
    var s', p := Step(s, a).0, Presented(s, a.cookie);
    if p.Some? && a.up {
      Ending(s, p.value);
      forall l | l in s'.doubles ensures |Family(s', l)| <= 1 + s'.doubles[l] {
        assert Family(s', l) == Family(End(s, p.value), l);
        SubsetSize(Family(s', l), Family(s, l));
      }
    }
  }

  lemma WaitKeepsInv(s: Auth, a: Action)
    requires Inv(s) && a.Wait?
    ensures Inv(Step(s, a).0)
  {
    forall l | l in s.doubles ensures Family(Step(s, a).0, l) == Family(s, l) { }
  }

  lemma InvKept(s: Auth, a: Action)
    requires Inv(s) && FreshId(s, a)
    ensures Inv(Step(s, a).0)
  {
    match a
    case Login(_, _, _, _, _) => LoginKeepsInv(s, a);
    case Rotate(_, _, _, _, _) => RotateKeepsInv(s, a);
    case Logout(_, _, _) => LogoutKeepsInv(s, a);
    case Wait(_) => WaitKeepsInv(s, a);
  }

  // ----- runs

  ghost predicate Runs(s: Auth, acts: seq<Action>)
    decreases |acts|, 0
  {
    acts == [] || (Runs(s, acts[..|acts| - 1]) && FreshId(Exec(s, acts[..|acts| - 1]), acts[|acts| - 1]))
  }

  ghost function Exec(s: Auth, acts: seq<Action>): Auth
    requires Runs(s, acts)
    decreases |acts|, 1
  {
    if acts == [] then s else Step(Exec(s, acts[..|acts| - 1]), acts[|acts| - 1]).0
  }

  function Empty(ttl: int, grace: nat, now: nat): Auth { Auth(ttl, grace, now, map[], {}, map[], map[], map[], {}) }

  lemma EmptyInv(ttl: int, grace: nat, now: nat)
    ensures Inv(Empty(ttl, grace, now))
  {
  }

  lemma {:induction false} InvInRuns(s: Auth, acts: seq<Action>)
    requires Inv(s) && Runs(s, acts)
    ensures Inv(Exec(s, acts))
  {
    if acts != [] {
      InvInRuns(s, acts[..|acts| - 1]);
      InvKept(Exec(s, acts[..|acts| - 1]), acts[|acts| - 1]);
    }
  }

  // Tokens of the login that are stored, not timed out by Redis and still decode.
  function LiveFamily(s: Auth, login: LoginId): set<Token> {
    set t | t in Family(s, login) && Lookup(s.entries, t, s.now) != None && Decodes(s, t)
  }

  /** In every run from the empty store, whatever Redis calls fail, the tokens of a login
      that a refresh would accept number at most one plus its double failures. */
  lemma LiveTokensPerLogin(ttl: int, grace: nat, now: nat, acts: seq<Action>, login: LoginId)
    requires Runs(Empty(ttl, grace, now), acts)
    ensures var s := Exec(Empty(ttl, grace, now), acts);
            login in s.doubles ==> |LiveFamily(s, login)| <= 1 + s.doubles[login]
  {
    EmptyInv(ttl, grace, now);
    InvInRuns(Empty(ttl, grace, now), acts);
    var s := Exec(Empty(ttl, grace, now), acts);
    SubsetSize(LiveFamily(s, login), Family(s, login));
  }

  // ----- acceptance

  const ALL_UP := Redis(true, true, true, true)

  predicate Accepts(s: Auth, t: Token, browser: Browser, jti: nat, redis: Redis) {
    RotateStep(s, browser, Signed(t), jti, 0, redis).1.Granted?
  }

  /** A refresh is granted exactly when the token is stored and decodes, Redis has not timed
      it out, and the read, the store and the revoke all go through. Redis times no token out
      before its expiry. */
  lemma AcceptedIff(s: Auth, t: Token, browser: Browser, jti: nat, redis: Redis)
    requires Inv(s)
    ensures Accepts(s, t, browser, jti, redis) <==>
            t in s.entries && s.now < s.entries[t].deadline && Decodes(s, t)
            && redis.get && redis.store && redis.revoke
    ensures t in s.entries && Unexpired(t, s.now) ==> s.now < s.entries[t].deadline && Decodes(s, t)
  {
    if t in s.entries { assert t in s.signed; }
  }

  // The action ends the token: a granted rotation of it, or a logout of it.
  predicate Ends(s: Auth, a: Action, t: Token) {
    (a.Rotate? || a.Logout?) && a.cookie == Signed(t) && (Step(s, a).1.Granted? || Step(s, a).1.LoggedOut?)
  }

  lemma ExchangeAt(s: Auth, browser: Browser, o: Token, jti: nat, lag: nat, redis: Redis, t: Token)
    requires t in s.signed && jti !in s.doubles && forall x :: x in s.signed ==> x.jti != jti
    ensures var (s', reply) := Exchange(s, browser, o, jti, lag, redis);
            && (t in s'.entries <==> t in s.entries && !(reply.Granted? && t == o))
            && (t in s'.entries ==> s'.entries[t] == s.entries[t])
            && (reply.Granted? && t == o ==> t in s'.retired)
            && (t in s'.origin <==> t in s.origin) && (t in s.origin ==> s'.origin[t] == s.origin[t])
  {
    assert Successor(s, o, jti).jti == jti;
  }

  lemma LoginAt(s: Auth, a: Action, t: Token)
    requires FreshId(s, a) && t in s.signed && a.Login?
    ensures var s' := Step(s, a).0;
            && (t in s'.entries <==> t in s.entries) && (t in s'.entries ==> s'.entries[t] == s.entries[t])
            && (t in s'.origin <==> t in s.origin) && (t in s.origin ==> s'.origin[t] == s.origin[t])
  {
    assert NewToken(Uuid(a.user), s.ttl, s.now, a.jti).jti == a.jti;
  }

  lemma RotateAt(s: Auth, a: Action, t: Token)
    requires FreshId(s, a) && t in s.signed && a.Rotate?
    ensures var s' := Step(s, a).0;
            && (t in s'.entries <==> t in s.entries && !Ends(s, a, t))
            && (t in s'.entries ==> s'.entries[t] == s.entries[t])
            && (Ends(s, a, t) ==> t in s'.retired)
            && (t in s'.origin <==> t in s.origin) && (t in s.origin ==> s'.origin[t] == s.origin[t])
  {
    var p := Presented(s, a.cookie);
    if p.Some? { ExchangeAt(s, a.browser, p.value, a.jti, a.lag, a.redis, t); }
  }

  lemma LogoutAt(s: Auth, a: Action, t: Token)
    requires a.Logout?
    ensures var s' := Step(s, a).0;
            && s'.origin == s.origin
            && (t in s'.entries <==> t in s.entries && !Ends(s, a, t))
            && (t in s'.entries ==> s'.entries[t] == s.entries[t])
            && (Ends(s, a, t) ==> t in s'.retired)
  {
  }

  /** A token already signed leaves the store in the step that ends it, and in no other; its
      entry never changes. */
  lemma EffectAt(s: Auth, a: Action, t: Token)
    requires FreshId(s, a) && t in s.signed
    ensures var s' := Step(s, a).0;
            && (t in s'.entries <==> t in s.entries && !Ends(s, a, t))
            && (t in s'.entries ==> s'.entries[t] == s.entries[t])
            && (Ends(s, a, t) ==> t in s'.retired)
            && (t in s'.origin <==> t in s.origin) && (t in s.origin ==> s'.origin[t] == s.origin[t])
  {
    match a
    case Login(_, _, _, _, _) => LoginAt(s, a, t);
    case Rotate(_, _, _, _, _) => RotateAt(s, a, t);
    case Logout(_, _, _) => LogoutAt(s, a, t);
    case Wait(_) =>
  }

  /** What a stored token's entry is, it stays, until a rotation or a logout ends the token. */
  lemma {:induction false} StaysUntilRetired(s: Auth, acts: seq<Action>, t: Token)
    requires Inv(s) && Runs(s, acts) && t in s.entries && t !in Exec(s, acts).retired
    ensures t in Exec(s, acts).entries && Exec(s, acts).entries[t] == s.entries[t]
  {
    if acts != [] {
      var mid := Exec(s, acts[..|acts| - 1]);
      InvInRuns(s, acts[..|acts| - 1]);
      RetiredGrows(mid, acts[|acts| - 1], t);
      StaysUntilRetired(s, acts[..|acts| - 1], t);
      EffectAt(mid, acts[|acts| - 1], t);
    }
  }

  /** An unrevoked token is accepted at every moment before its expiry. */
  lemma AcceptedUntilExpiry(s: Auth, acts: seq<Action>, t: Token, browser: Browser, jti: nat)
    requires Inv(s) && Runs(s, acts) && t in s.entries
    requires t !in Exec(s, acts).retired && Unexpired(t, Exec(s, acts).now)
    ensures Accepts(Exec(s, acts), t, browser, jti, ALL_UP)
  {
    StaysUntilRetired(s, acts, t);
    InvInRuns(s, acts);
    AcceptedIff(Exec(s, acts), t, browser, jti, ALL_UP);
  }

  // ----- single use

  lemma RetiredGrows(s: Auth, a: Action, t: Token)
    ensures t in s.retired ==> t in Step(s, a).0.retired
  {
  }

  lemma {:induction false} RetiredForever(s: Auth, acts: seq<Action>, t: Token)
    requires Runs(s, acts) && t in s.retired
    ensures t in Exec(s, acts).retired
  {
    if acts != [] {
      RetiredForever(s, acts[..|acts| - 1], t);
      RetiredGrows(Exec(s, acts[..|acts| - 1]), acts[|acts| - 1], t);
    }
  }

  /** Once a refresh of a token is granted, or a logout of it succeeds, no continuation of the
      run ever accepts it again, whatever Redis does. */
  lemma SingleUse(s: Auth, a: Action, acts: seq<Action>, t: Token, browser: Browser, jti: nat, redis: Redis)
    requires Inv(s) && FreshId(s, a)
    requires (a.Rotate? || a.Logout?) && a.cookie == Signed(t)
    requires Step(s, a).1.Granted? || Step(s, a).1.LoggedOut?
    requires Runs(Step(s, a).0, acts)
    ensures !Accepts(Exec(Step(s, a).0, acts), t, browser, jti, redis)
  {
    var s1 := Step(s, a).0;
    InvKept(s, a);
    RetiredForever(s1, acts, t);
    InvInRuns(s1, acts);
    AcceptedIff(Exec(s1, acts), t, browser, jti, redis);
  }

  // The login whose tokens the action may touch.
  function Lineage(s: Auth, a: Action): Option<LoginId> {
    match a
    case Login(_, _, jti, _, _) => Some(jti)
    case Wait(_) => None
    case _ => if a.cookie.Signed? && a.cookie.token in s.origin then Some(s.origin[a.cookie.token]) else None
  }

  // A token the step signs belongs to the action's login.
  lemma NewTokenLineage(s: Auth, a: Action, t: Token)
    requires Issued(s) && Provenance(s) && FreshId(s, a) && t in Step(s, a).0.origin && t !in s.signed
    ensures Lineage(s, a) == Some(Step(s, a).0.origin[t])
  {
    if a.Rotate? && Presented(s, a.cookie).Some? {
      var o := Presented(s, a.cookie).value;
      if o in s.entries { assert o in s.signed; }
    }
  }

  /** A request touches the stored tokens of one login only. */
  lemma OtherLineagesUntouched(s: Auth, a: Action, t: Token)
    requires Inv(s) && FreshId(s, a)
    requires t in Step(s, a).0.origin && Some(Step(s, a).0.origin[t]) != Lineage(s, a)
    ensures t in Step(s, a).0.entries <==> t in s.entries
    ensures t in s.entries ==> Step(s, a).0.entries[t] == s.entries[t]
  {
    if t in s.signed { EffectAt(s, a, t); } else { NewTokenLineage(s, a, t); }
  }

  // ----- browser and server

  function CookieOf(s: Auth, b: Browser): Cookie { if b in s.jar then Signed(s.jar[b]) else NoCookie }

  // Each browser sends the cookie it holds.
  predicate Honest(s: Auth, a: Action) {
    a.Rotate? || a.Logout? ==> a.cookie == CookieOf(s, a.browser)
  }

  predicate OwnTokens(s: Auth) {
    && (forall b :: b in s.jar ==> s.jar[b] in s.signed)
    && (forall b, c :: b in s.jar && c in s.jar && b != c ==> s.jar[b] != s.jar[c])
  }

  /** The cookie a browser holds, unless it has expired, is live under its own subject. */
  predicate Aligned(s: Auth) {
    forall b :: b in s.jar && Unexpired(s.jar[b], s.now) ==>
      Lookup(s.entries, s.jar[b], s.now) == Some(s.jar[b].sub)
  }

  // What a step does to the cookies: nothing, unless it grants a token or logs out.
  lemma JarAfter(s: Auth, a: Action, b: Browser)
    requires Facts(s) && FreshId(s, a)
    ensures var (s', reply) := Step(s, a);
            && (reply.Granted? && b == a.browser ==>
                  b in s'.jar && s'.jar[b] == reply.token && reply.token !in s.signed && reply.token in s'.signed
                  && (Unexpired(reply.token, s'.now) ==> reply.token in s'.entries))
            && (reply.LoggedOut? && b == a.browser ==> b !in s'.jar)
            && (!(reply.Granted? || reply.LoggedOut?) || b != a.browser ==>
                  (b in s'.jar <==> b in s.jar) && (b in s.jar ==> s'.jar[b] == s.jar[b]))
            && s.signed <= s'.signed && s.now <= s'.now
  {
    if a.Login? {
      DeadlineCoversExpiry(s.now, a.lag, s.ttl);
    } else if a.Rotate? && Presented(s, a.cookie).Some? {
      var o := Presented(s, a.cookie).value;
      if o in s.entries {
        assert o in s.signed;
        assert Successor(s, o, a.jti) != o;
      }
      DeadlineCoversExpiry(s.now, a.lag, s.ttl);
    }
  }

  lemma OwnTokensKept(s: Auth, a: Action)
    requires Facts(s) && OwnTokens(s) && FreshId(s, a)
    ensures OwnTokens(Step(s, a).0)
  {
    var s' := Step(s, a).0;
    forall b ensures b in s'.jar ==> s'.jar[b] in s'.signed { JarAfter(s, a, b); }
    forall b, c | b in s'.jar && c in s'.jar && b != c ensures s'.jar[b] != s'.jar[c] {
      JarAfter(s, a, b);
      JarAfter(s, a, c);
    }
  }

  lemma AlignmentKept(s: Auth, a: Action)
    requires Inv(s) && OwnTokens(s) && Aligned(s) && FreshId(s, a) && Honest(s, a)
    ensures OwnTokens(Step(s, a).0) && Aligned(Step(s, a).0)
  {
    var s' := Step(s, a).0;
    InvKept(s, a);
    OwnTokensKept(s, a);
    forall b | b in s'.jar && Unexpired(s'.jar[b], s'.now)
      ensures Lookup(s'.entries, s'.jar[b], s'.now) == Some(s'.jar[b].sub)
    {
      JarAfter(s, a, b);
      if b in s.jar && s'.jar[b] == s.jar[b] {
        assert Unexpired(s.jar[b], s.now);
        EffectAt(s, a, s.jar[b]);
      }
    }
  }

  ghost predicate HonestRun(s: Auth, acts: seq<Action>)
    requires Runs(s, acts)
  {
    acts == [] || (HonestRun(s, acts[..|acts| - 1]) && Honest(Exec(s, acts[..|acts| - 1]), acts[|acts| - 1]))
  }

  /** After every login, refresh and logout response, the failed and the compensated ones
      included, browsers and server agree. */
  lemma {:induction false} AlwaysAligned(ttl: int, grace: nat, now: nat, acts: seq<Action>)
    requires Runs(Empty(ttl, grace, now), acts) && HonestRun(Empty(ttl, grace, now), acts)
    ensures var s := Exec(Empty(ttl, grace, now), acts); Inv(s) && OwnTokens(s) && Aligned(s)
  {
    if acts == [] {
      EmptyInv(ttl, grace, now);
    } else {
      AlwaysAligned(ttl, grace, now, acts[..|acts| - 1]);
      var mid := Exec(Empty(ttl, grace, now), acts[..|acts| - 1]);
      AlignmentKept(mid, acts[|acts| - 1]);
      InvKept(mid, acts[|acts| - 1]);
    }
  }
}
