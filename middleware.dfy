/** The session-cookie middleware. `getSessionCookie` installs the session
    the request's cookie names, or a fresh guest session; after the
    downstream handlers have run, `setSessionCookie` hands a valid session's
    token to a client that has no cookie, and `expireSessionCookie` clears
    the cookie of a client whose session is no longer valid.

    Each method below is the part of its middleware that follows or precedes
    `await next()`; the context it receives is the one the downstream
    handlers left. Loading a session from the session store is the
    `loaded` parameter. */
module Middleware {
  import opened Entities
  import opened Sessions

  /** What the session store holds for the session id inside a cookie. */
  datatype StoredSession = StoredSession(id: string, userId: string, expires: int)

  /** `!cookie` is false for a missing and for an empty cookie. */
  predicate CookiePresent(cookie: Option<string>) {
    cookie.Some? && cookie.value != ""
  }

  /** `setSessionCookie` sets the cookie exactly for a valid session and a request without one. */
  predicate SetsCookie(present: bool, valid: bool) {
    valid && !present
  }

  /** `expireSessionCookie` clears the cookie exactly for a request with one and an invalid session. */
  predicate ClearsCookie(present: bool, valid: bool) {
    present && !valid
  }

  /** Installs the session of the request: the stored session the cookie
      names, with the cookie as its token, or else a fresh session. */
  method GetSessionCookie(ctx: Context, loaded: Option<StoredSession>, now: int, freshId: string)
    modifies ctx`session
    ensures fresh(ctx.session)
    ensures ctx.requestCookie.Some? && loaded.Some? ==>
      && ctx.session.id == loaded.value.id && ctx.session.userId == loaded.value.userId
      && ctx.session.expires == loaded.value.expires && ctx.session.token == ctx.requestCookie.value
    ensures ctx.requestCookie.None? || loaded.None? ==>
      && ctx.session.id == freshId && ctx.session.userId == "" && ctx.session.token == ""
      && ctx.session.expires == now + OneDayMs
      && !ctx.session.Valid(now)
  {
    if ctx.requestCookie.Some? && loaded.Some? {
      var s := loaded.value;
      ctx.session := new Session(SessionParams(Some(s.id), Some(s.expires), Some(s.userId), Some(ctx.requestCookie.value)), now, freshId);
    } else {
      ctx.session := new Session(NoParams, now, freshId);
    }
  }

  /** Sets the response cookie to the session's token when the session is
      valid and the request had no cookie. */
  method SetSessionCookie(ctx: Context, now: int, minted: string)
    modifies ctx`responseCookie, ctx.session`token
    ensures ctx.session == old(ctx.session)
    ensures SetsCookie(CookiePresent(ctx.requestCookie), old(ctx.session.Valid(now))) ==>
      && ctx.session.token == (if old(ctx.session.token) == "" then minted else old(ctx.session.token))
      && ctx.responseCookie == Some(ctx.session.token)
    ensures !SetsCookie(CookiePresent(ctx.requestCookie), old(ctx.session.Valid(now))) ==>
      ctx.responseCookie == old(ctx.responseCookie) && ctx.session.token == old(ctx.session.token)
  {
    var session := ctx.session;
    if session.Valid(now) && !CookiePresent(ctx.requestCookie) {
      var t := session.Token(minted);
      ctx.responseCookie := Some(t);
    }
  }

  /** Clears the response cookie when the request had a cookie and the session is not valid. */
  method ExpireSessionCookie(ctx: Context, now: int)
    modifies ctx`responseCookie
    ensures ctx.responseCookie ==
      if ClearsCookie(CookiePresent(ctx.requestCookie), ctx.session.Valid(now)) then Some("") else old(ctx.responseCookie)
  {
    if CookiePresent(ctx.requestCookie) && !ctx.session.Valid(now) {
      ctx.responseCookie := Some("");
    }
  }

  /** The two decisions never both fire, and one of them fires exactly when
      the client's cookie disagrees with the session's validity. */
  lemma CookieDecisionsExclusive(present: bool, valid: bool)
    ensures !(SetsCookie(present, valid) && ClearsCookie(present, valid))
    ensures SetsCookie(present, valid) || ClearsCookie(present, valid) <==> present != valid
  {
  }
}
