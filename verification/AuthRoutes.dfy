/** The refresh-token store and the three endpoints as they run: one Redis call after
    another, each of which may raise, with the compensating revoke. */
module AuthRoutes {
  import opened Domain
  import opened RefreshTokens

  datatype Fetched = Found(subject: Option<Subject>) | Failed

  class RefreshTokenStore {
    var entries: Entries

    constructor ()
      ensures entries == map[]
    {
      entries := map[];
    }

    // SET with an expiry; nothing at all when the lifetime is not positive.
    method Store(t: Token, sub: Subject, ttl: int, now: nat, up: bool) returns (ok: bool)
      modifies this
      ensures entries == if ok then Stored(old(entries), t, sub, ttl, now) else old(entries)
      ensures ok <==> up || ttl <= 0
    {
      if ttl <= 0 { return true; }
      if up { entries := entries[t := Entry(sub, now + ttl * 1000)]; }
      return up;
    }

    method GetSubject(t: Token, now: nat, up: bool) returns (r: Fetched)
      ensures r == if up then Found(Lookup(entries, t, now)) else Failed
    {
      if !up { return Failed; }
      if t in entries && now < entries[t].deadline { return Found(Some(entries[t].subject)); }
      return Found(None);
    }

    method Revoke(t: Token, up: bool) returns (ok: bool)
      modifies this
      ensures ok == up
      ensures entries == if up then old(entries) - {t} else old(entries)
    {
      if up { entries := entries - {t}; }
      return up;
    }
  }

  class AuthRouter {
    const store: RefreshTokenStore
    const ttl: int
    const grace: nat
    var now: nat
    var signed: set<Token>
    var jar: map<Browser, Token>
    ghost var origin: map<Token, LoginId>
    ghost var doubles: map<LoginId, nat>
    ghost var retired: set<Token>

    ghost function View(): Auth
      reads this, store
    {
      Auth(ttl, grace, now, store.entries, signed, jar, origin, doubles, retired)
    }

    constructor (ttl: int, grace: nat, start: nat)
      ensures View() == Empty(ttl, grace, start) && fresh(store)
    {
      this.ttl, this.grace := ttl, grace;
      store := new RefreshTokenStore();
      now, signed, jar := start, {}, map[];
      origin, doubles, retired := map[], map[], {};
    }

    // Sign a refresh token for the subject; `lag` milliseconds later the next call is made.
    method CreateRefreshToken(sub: Subject, jti: nat, lag: nat, ghost login: LoginId) returns (t: Token)
      modifies this
      ensures t == NewToken(sub, ttl, old(now), jti)
      ensures View() == Issue(old(View()), t, login, lag)
    {
      t := NewToken(sub, ttl, now, jti);
      signed, now := signed + {t}, now + lag;
      origin := origin[t := login];
    }

    method LoginUser(browser: Browser, user: nat, jti: nat, lag: nat, up: bool) returns (reply: Reply)
      modifies this, store
      ensures (View(), reply) == Step(old(View()), Login(browser, user, jti, lag, up || ttl <= 0))
    {
      doubles := doubles[jti := 0];
      var t := CreateRefreshToken(Uuid(user), jti, lag, jti);
      var ok := store.Store(t, t.sub, ttl, now, up);
      if !ok { return Unavailable; }
      jar := jar[browser := t];
      return Granted(t);
    }

    // The cookie, decoded and checked for subject and type; None stands for a 401.
    method ResolveToken(cookie: Cookie) returns (r: Option<Token>)
      ensures r == Presented(View(), cookie)
    {
      match cookie
      case NoCookie => return None;
      case Junk => return None;
      case Signed(t) =>
        if t !in signed && t.kind != Access { return None; }
        if now >= t.exp * 1000 + grace { return None; }
        if t.sub == Text("") || t.kind != Refresh {
          assert EmptySubject(t.sub) || t.kind != Refresh;
          return None;
        }
        return Some(t);
    }

    method RefreshAccessToken(browser: Browser, cookie: Cookie, jti: nat, lag: nat, redis: Redis) returns (reply: Reply)
      modifies this, store
      ensures (View(), reply) ==
              Step(old(View()), Rotate(browser, cookie, jti, lag, redis.(store := redis.store || ttl <= 0)))
    {
      var presented := ResolveToken(cookie);
      if presented == None { return Unauthorized; }
      var current := presented.value;
      var fetched := store.GetSubject(current, now, redis.get);
      if fetched == Failed { return Unavailable; }
      if fetched.subject != Some(current.sub) { return Unauthorized; }
      ghost var login := LoginOf(View(), current);
      var t := CreateRefreshToken(current.sub, jti, lag, login);
      var ok := store.Store(t, t.sub, ttl, now, redis.store);
      if !ok { return Unavailable; }
      ok := store.Revoke(current, redis.revoke);
      if !ok {
        var undone := store.Revoke(t, redis.undo);
        if !undone { doubles := CountDouble(View(), login).doubles; }
        return Unavailable;
      }
      retired := retired + {current};
      jar := jar[browser := t];
      return Granted(t);
    }

    method LogoutUser(browser: Browser, cookie: Cookie, up: bool) returns (reply: Reply)
      modifies this, store
      ensures (View(), reply) == Step(old(View()), Logout(browser, cookie, up))
    {
      var presented := ResolveToken(cookie);
      if presented == None { return Unauthorized; }
      var ok := store.Revoke(presented.value, up);
      if !ok { return Unavailable; }
      retired := retired + {presented.value};
      if !presented.value.sub.Uuid? { return LoggedOut(false); }
      jar := jar - {browser};
      return LoggedOut(true);
    }
  }
}
