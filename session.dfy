/** The login session (`Session`) and the request context that carries it.

    A session has an id, an expiry instant in milliseconds, the id of its
    user ('' for a guest) and the cookie token, minted from the id on first
    use. The clock is the `now` parameter; the session id (`uuid.v4`) and the
    minted token are values given to the operations. */
module Sessions {
  import opened Entities

  const OneDayMs := 1000 * 60 * 60 * 24

  /** The constructor's optional input fields. */
  datatype SessionParams = SessionParams(id: Option<string>, expires: Option<int>, userId: Option<string>, token: Option<string>)

  const NoParams := SessionParams(None, None, None, None)

  /** `expired()`: the expiry instant has been reached. */
  predicate ExpiredAt(expires: int, now: int) {
    now >= expires
  }

  /** `valid()`: the session names a user and has not expired. */
  predicate ValidAt(userId: string, expires: int, now: int) {
    userId != "" && !ExpiredAt(expires, now)
  }

  class Session {
    var id: string
    var expires: int
    var userId: string
    var token: string

    /** Every field the input leaves out takes its default: a fresh id, an
        expiry one day from now, no user and no token. */
    constructor(input: SessionParams, now: int, freshId: string)
      ensures id == input.id.GetOr(freshId)
      ensures expires == input.expires.GetOr(now + OneDayMs)
      ensures userId == input.userId.GetOr("")
      ensures token == input.token.GetOr("")
    {
      id := input.id.GetOr(freshId);
      expires := input.expires.GetOr(now + OneDayMs);
      userId := input.userId.GetOr("");
      token := input.token.GetOr("");
    }

    predicate Expired(now: int)
      reads this
    {
      ExpiredAt(expires, now)
    }

    /** A guest session, or one that has expired, is not valid. */
    predicate Valid(now: int)
      reads this
      ensures Valid(now) <==> ValidAt(userId, expires, now)
    {
      userId != "" && !Expired(now)
    }

    /** The `token` getter: an empty token is replaced by one minted from the
        id and kept, so every later read returns the same token. */
    method Token(minted: string) returns (t: string)
      modifies this`token
      ensures token == (if old(token) == "" then minted else old(token))
      ensures t == token
    {
      if token == "" {
        token := minted;
      }
      t := token;
    }
  }

  /** The request context: the session the middleware installed, the signed
      session cookie the request carried, and the session cookie the response sets. */
  class Context {
    var session: Session
    const requestCookie: Option<string>
    var responseCookie: Option<string>

    constructor(session: Session, requestCookie: Option<string>)
      ensures this.session == session && this.requestCookie == requestCookie && responseCookie == None
    {
      this.session := session;
      this.requestCookie := requestCookie;
      responseCookie := None;
    }
  }

  /** A session is valid exactly while it names a user and `now` is before its expiry. */
  lemma ValidMeaning(userId: string, expires: int, now: int)
    ensures ValidAt(userId, expires, now) <==> userId != "" && now < expires
    ensures ExpiredAt(expires, now) ==> !ValidAt(userId, expires, now)
  {
  }

  /** A session made without input names no user, so it is never valid;
      a session made for a user is valid for one day. */
  lemma DefaultsAndValidity(now: int, freshId: string, userId: string, later: int)
    ensures !ValidAt(NoParams.userId.GetOr(""), NoParams.expires.GetOr(now + OneDayMs), later)
    ensures userId != "" ==>
      var input := SessionParams(None, None, Some(userId), None);
      (ValidAt(input.userId.GetOr(""), input.expires.GetOr(now + OneDayMs), later) <==> later < now + 86400000)
  {
  }

  /** Validity only runs out: a session valid at some instant was valid at every earlier one. */
  lemma ValidityRunsOut(userId: string, expires: int, earlier: int, later: int)
    requires earlier <= later
    ensures ValidAt(userId, expires, later) ==> ValidAt(userId, expires, earlier)
    ensures ExpiredAt(expires, earlier) ==> ExpiredAt(expires, later)
  {
  }
}
