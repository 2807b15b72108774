/** Users (`createUser`, `authenticate`): sign-up stores a normalised email
    and a password hash; authentication trusts an existing session and
    otherwise checks the email and password.

    The password policy, bcrypt's salted hash and bcrypt's comparison are
    library code: they are parameters here (`policy`, `hash`, `compare`). */
module UserRules {
  import opened Entities
  import opened Tables

  const PolicyViolation := Error(PolicyError, "Password does not meet password policy")
  const UnknownEmail := Error(UserInputError, "could not find user")
  const InvalidCredentials := Error(UserInputError, "invalid credentials")

  /** What bcrypt's `compare` throws when the password or the stored hash is not a string. */
  function IllegalArguments(password: Option<string>, stored: Option<string>): Error {
    Error(HashError, "Illegal arguments: " + (if password.Some? then "string" else "undefined") + ", "
                     + (if stored.Some? then "string" else "object"))
  }

  /** `verified` and `password` are optional fields of the sign-up input. */
  datatype UserInput = UserInput(email: string, password: Option<string>, permissions: seq<Permission>, verified: Option<bool>)

  datatype Credentials = Credentials(email: string, password: Option<string>)

  /** The characters JavaScript's `trim` removes: white space and line terminators. */
  predicate IsWhitespace(c: char) {
    || c == ' ' || c == '\t' || c == '\n' || c == '\r' || c == '\U{000B}' || c == '\U{000C}'
    || c == '\U{00A0}' || c == '\U{1680}' || ('\U{2000}' <= c <= '\U{200A}')
    || c == '\U{2028}' || c == '\U{2029}' || c == '\U{202F}' || c == '\U{205F}' || c == '\U{3000}' || c == '\U{FEFF}'
  }

  /** The end of the run of white space that starts at `i`. */
  function SpaceFrom(s: string, i: nat): (n: nat)
    requires i <= |s|
    ensures i <= n <= |s|
    ensures forall k :: i <= k < n ==> IsWhitespace(s[k])
    ensures n == |s| || !IsWhitespace(s[n])
    decreases |s| - i
  {
    if i < |s| && IsWhitespace(s[i]) then SpaceFrom(s, i + 1) else i
  }

  /** The start of the run of white space that ends just before `j`. */
  function SpaceUntil(s: string, j: nat): (n: nat)
    requires j <= |s|
    ensures n <= j
    ensures forall k :: n <= k < j ==> IsWhitespace(s[k])
    ensures n == 0 || !IsWhitespace(s[n - 1])
  {
    if j > 0 && IsWhitespace(s[j - 1]) then SpaceUntil(s, j - 1) else j
  }

  function TrimStart(s: string): (r: string)
    ensures r == [] || !IsWhitespace(r[0])
    ensures forall i :: 0 <= i < |s| - |r| ==> IsWhitespace(s[i])
    ensures |r| <= |s| && r == s[|s| - |r|..]
  {
    s[SpaceFrom(s, 0)..]
  }

  function TrimEnd(s: string): (r: string)
    ensures r == [] || !IsWhitespace(r[|r| - 1])
    ensures |r| <= |s| && r == s[..|r|]
    ensures forall i :: |r| <= i < |s| ==> IsWhitespace(s[i])
  {
    s[..SpaceUntil(s, |s|)]
  }

  /** `String.prototype.trim`. */
  function Trim(s: string): string {
    TrimEnd(TrimStart(s))
  }

  /** `toLowerCase` on one character (ASCII letters only). */
  function LowerChar(c: char): char {
    if 'A' <= c <= 'Z' then (c as int - 'A' as int + 'a' as int) as char else c
  }

  /** `toLowerCase`: position by position, no upper-case letter survives,
      white space stays where it was, and a string with no upper-case letter
      is its own lowercase. */
  function Lower(s: string): (r: string)
    ensures |r| == |s|
    ensures forall i :: 0 <= i < |r| ==> !('A' <= r[i] <= 'Z')
    ensures forall i :: 0 <= i < |r| ==> (IsWhitespace(r[i]) <==> IsWhitespace(s[i]))
    ensures (forall i :: 0 <= i < |s| ==> !('A' <= s[i] <= 'Z')) ==> r == s
  {
    seq(|s|, i requires 0 <= i < |s| => LowerChar(s[i]))
  }

  /** The email a new user is stored with: trimmed, then lowercased. */
  function NormalizeEmail(email: string): string {
    Lower(Trim(email))
  }

  /** A password counts as given when it is present and not empty (`if (password)`). */
  predicate PasswordGiven(password: Option<string>) {
    password.Some? && password.value != ""
  }

  /** What `createUser` stores and returns, given the password policy and
      the hash bcrypt computes for a password. */
  function NewUser(data: UserInput, policy: string -> bool, hash: string -> string, newId: Id): Result<User> {
    if PasswordGiven(data.password) && !policy(data.password.value) then Failure(PolicyViolation)
    else
      Success(User(newId, NormalizeEmail(data.email),
                   if PasswordGiven(data.password) then Some(hash(data.password.value)) else None,
                   data.verified.GetOr(false), data.permissions))
  }

  /** The `findOne({ where: { email } })` filter (exact match). */
  function UserWithEmail(email: string): User -> bool {
    (u: User) => u.email == email
  }

  /** What `authenticate` returns: None is the `undefined` of a session user
      that is no longer stored. */
  function Authenticate(users: seq<User>, sessionUserId: Id, data: Credentials,
                        compare: (string, string) -> bool): Result<Option<User>>
  {
    if sessionUserId != "" then Success(FindFirst(users, UserWithId(sessionUserId)))
    else
      match FindFirst(users, UserWithEmail(data.email))
      case None => Failure(UnknownEmail)
      case Some(user) =>
        if data.password.None? || user.password.None? then Failure(IllegalArguments(data.password, user.password))
        else if !compare(data.password.value, user.password.value) then Failure(InvalidCredentials)
        else Success(Some(user))
  }

  const NoUser := Error(ApolloError, "could not get user")
  const NoSession := Error(ApolloError, "could not create session")

  /** What `startSession` returns: the authenticated user, unless
      authentication fails or finds no user, or the new session cannot be
      saved (`stored` is the session store's answer). */
  function StartSession(users: seq<User>, sessionUserId: Id, data: Credentials,
                        compare: (string, string) -> bool, stored: bool): Result<User>
  {
    match Authenticate(users, sessionUserId, data, compare)
    case Failure(e) => Failure(e)
    case Success(found) =>
      if found.None? then Failure(NoUser)
      else if !stored then Failure(NoSession)
      else Success(found.value)
  }

  /** A started session always belongs to a stored user, and is never
      started when the store refuses it. A session already naming a user
      starts a new one exactly when that user is still stored. */
  lemma StartSessionOutcome(users: seq<User>, sessionUserId: Id, data: Credentials,
                            compare: (string, string) -> bool, stored: bool)
    requires WellKeyed(users, UserKey)
    ensures var r := StartSession(users, sessionUserId, data, compare, stored);
      && (r.Success? ==> stored && r.value in users && r.value.id != "")
      && (sessionUserId != "" ==>
            && (r.Success? <==> stored && exists u :: u in users && u.id == sessionUserId)
            && (r == Failure(NoUser) <==> forall u :: u in users ==> u.id != sessionUserId))
  {
    var r := StartSession(users, sessionUserId, data, compare, stored);
    if r.Success? {
      var i :| 0 <= i < |users| && users[i] == r.value;
    }
    if sessionUserId != "" {
      var found := FindFirst(users, UserWithId(sessionUserId));
      if found.None? {
        forall u | u in users ensures u.id != sessionUserId {
          assert !UserWithId(sessionUserId)(u);
        }
      }
    }
  }

  /** The trimmed string is the input without its leading and trailing white space. */
  lemma TrimMeaning(s: string)
    ensures var t := Trim(s);
      var a := |s| - |TrimStart(s)|;
      && (t == [] || (!IsWhitespace(t[0]) && !IsWhitespace(t[|t| - 1])))
      && 0 <= a <= a + |t| <= |s| && t == s[a..a + |t|]
      && (forall i :: 0 <= i < a ==> IsWhitespace(s[i]))
      && (forall i :: a + |t| <= i < |s| ==> IsWhitespace(s[i]))
  {
    var u := TrimStart(s);
    var t := TrimEnd(u);
    var a := |s| - |u|;
    assert t == [] || (!IsWhitespace(t[0]) && !IsWhitespace(t[|t| - 1])) by {
      if t != [] {
        assert t[0] == u[0];
      }
    }
    assert 0 <= a <= a + |t| <= |s| && t == s[a..a + |t|] by {
      SliceOfSlice(s, a, u, t);
    }
    assert forall i :: a + |t| <= i < |s| ==> IsWhitespace(s[i]) by {
      SliceOfSlice(s, a, u, t);
      forall i | a + |t| <= i < |s| ensures IsWhitespace(s[i]) {
        assert s[i] == u[i - a];
      }
    }
  }

  /** A prefix `t` of the suffix `u` of `s` from `a` is the slice of `s` from `a` of `t`'s length. */
  lemma SliceOfSlice(s: string, a: nat, u: string, t: string)
    requires a <= |s| && u == s[a..] && |t| <= |u| && t == u[..|t|]
    ensures a + |t| <= |s| && t == s[a..a + |t|]
    ensures forall i :: a <= i < |s| ==> u[i - a] == s[i]
  {
  }

  /** A stored email has no surrounding white space and no upper-case letter. */
  lemma NormalizedShape(email: string)
    ensures var e := NormalizeEmail(email);
      && (e == [] || (!IsWhitespace(e[0]) && !IsWhitespace(e[|e| - 1])))
      && (forall i :: 0 <= i < |e| ==> !('A' <= e[i] <= 'Z'))
  {
    var t := Trim(email);
    if t != [] {
      LowerCharKind(t[0]);
      LowerCharKind(t[|t| - 1]);
    }
    forall i | 0 <= i < |t| ensures !('A' <= Lower(t)[i] <= 'Z') {
      LowerCharKind(t[i]);
    }
  }

  /** Lowercasing neither makes nor removes white space, and leaves no upper-case letter. */
  lemma LowerCharKind(c: char)
    ensures IsWhitespace(LowerChar(c)) <==> IsWhitespace(c)
    ensures !('A' <= LowerChar(c) <= 'Z')
  {
  }

  /** Normalising a stored email again changes nothing. */
  lemma {:induction false} NormalizeIdempotent(email: string)
    ensures NormalizeEmail(NormalizeEmail(email)) == NormalizeEmail(email)
  {
    var e := NormalizeEmail(email);
    NormalizedShape(email);
    TrimKeepsTrimmed(e);
  }

  /** A string without surrounding white space is its own trim. */
  lemma TrimKeepsTrimmed(e: string)
    requires e == [] || (!IsWhitespace(e[0]) && !IsWhitespace(e[|e| - 1]))
    ensures Trim(e) == e
  {
    assert SpaceFrom(e, 0) == 0;
    assert SpaceUntil(e, |e|) == |e|;
  }

  /** Sign-up fails exactly when a given password fails the policy; otherwise
      the user holds the normalised email, the hash of a given password or
      no password at all, the permissions, and `verified` defaulting to false. */
  lemma NewUserOutcome(data: UserInput, policy: string -> bool, hash: string -> string, newId: Id)
    ensures var r := NewUser(data, policy, hash, newId);
      && (r == Failure(PolicyViolation) <==> PasswordGiven(data.password) && !policy(data.password.value))
      && (r.Success? ==>
            && r.value.id == newId
            && r.value.email == NormalizeEmail(data.email)
            && (r.value.password == None <==> !PasswordGiven(data.password))
            && (PasswordGiven(data.password) ==> r.value.password == Some(hash(data.password.value)))
            && r.value.permissions == data.permissions
            && (r.value.verified <==> data.verified == Some(true)))
  {
  }

  /** Sign-up then sign-in: when bcrypt's comparison accepts a password
      against its own hash, a user who signed up with a password and whose
      normalised email no earlier user holds authenticates, without a
      session, with that normalised email and the same password. */
  lemma SignUpThenAuthenticate(users: seq<User>, data: UserInput, policy: string -> bool,
                               hash: string -> string, compare: (string, string) -> bool, newId: Id)
    requires forall p :: compare(p, hash(p))
    requires PasswordGiven(data.password) && policy(data.password.value)
    requires forall u :: u in users ==> u.email != NormalizeEmail(data.email)
    ensures NewUser(data, policy, hash, newId).Success?
    ensures var user := NewUser(data, policy, hash, newId).value;
      Authenticate(users + [user], "", Credentials(NormalizeEmail(data.email), data.password), compare)
        == Success(Some(user))
  {
    var user := NewUser(data, policy, hash, newId).value;
    FindFirstAppend(users, user, UserWithEmail(NormalizeEmail(data.email)));
  }

  /** A session that names a user short-circuits authentication: the
      credentials are not looked at, and a failing comparison cannot refuse. */
  lemma SessionShortCircuits(users: seq<User>, sessionUserId: Id, data: Credentials, other: Credentials, compare: (string, string) -> bool)
    requires sessionUserId != ""
    ensures Authenticate(users, sessionUserId, data, compare) == Authenticate(users, sessionUserId, other, (p: string, h: string) => false)
    ensures Authenticate(users, sessionUserId, data, compare).Success?
  {
  }

  /** Without a session, authentication returns a user exactly when the
      email is stored and the password matches that user's hash. */
  lemma AuthenticateOutcome(users: seq<User>, data: Credentials, compare: (string, string) -> bool)
    requires WellKeyed(users, UserKey)
    ensures var r := Authenticate(users, "", data, compare);
      var found := FindFirst(users, UserWithEmail(data.email));
      && (r == Failure(UnknownEmail) <==> forall u :: u in users ==> u.email != data.email)
      && (r == Failure(InvalidCredentials) <==>
            found.Some? && data.password.Some? && found.value.password.Some?
            && !compare(data.password.value, found.value.password.value))
      && (r.Success? <==>
            found.Some? && data.password.Some? && found.value.password.Some?
            && compare(data.password.value, found.value.password.value))
      && (r.Success? ==> r.value == found && r.value.value in users && r.value.value.email == data.email)
  {
    var found := FindFirst(users, UserWithEmail(data.email));
    if found.None? {
      forall u | u in users ensures u.email != data.email {
        assert !UserWithEmail(data.email)(u);
      }
    }
  }
}

/** The user mutations over the store and the request context. */
module UserResolver {
  import opened Entities
  import opened Tables
  import opened Store
  import opened Sessions
  import UserRules

  /** Signs a user up. A failed call stores nothing; a successful one
      appends exactly the new user. `hash` is bcrypt's hash of a
      password; `newId` is the key the database generates. */
  method CreateUser(db: Database, data: UserRules.UserInput, policy: string -> bool, hash: string -> string, newId: Id)
    returns (r: Result<User>)
    requires db.Valid() && KeyFree(db.users, UserKey, newId)
    modifies db`users
    ensures db.Valid()
    ensures r == UserRules.NewUser(data, policy, hash, newId)
    ensures db.users == if r.Success? then old(db.users) + [r.value] else old(db.users)
  {
    if UserRules.PasswordGiven(data.password) && !policy(data.password.value) {
      return Failure(UserRules.PolicyViolation);
    }
    var email := UserRules.NormalizeEmail(data.email);
    var password := if UserRules.PasswordGiven(data.password) then Some(hash(data.password.value)) else None;
    var user := User(newId, email, password, data.verified.GetOr(false), data.permissions);
    AppendKeepsWellKeyed(db.users, user, UserKey);
    db.users := db.users + [user];
    r := Success(user);
  }

  /** Authenticates against the store: the session's user when the session
      names one, otherwise the user with the email whose hash matches. */
  method Authenticate(db: Database, ctx: Context, data: UserRules.Credentials, compare: (string, string) -> bool)
    returns (r: Result<Option<User>>)
    ensures r == UserRules.Authenticate(db.users, ctx.session.userId, data, compare)
  {
    if ctx.session.userId != "" {
      var found := FindFirst(db.users, UserWithId(ctx.session.userId));
      return Success(found);
    }
    var user := FindFirst(db.users, UserRules.UserWithEmail(data.email));
    if user.None? {
      return Failure(UserRules.UnknownEmail);
    }
    if data.password.None? || user.value.password.None? {
      return Failure(UserRules.IllegalArguments(data.password, user.value.password));
    }
    if !compare(data.password.value, user.value.password.value) {
      return Failure(UserRules.InvalidCredentials);
    }
    r := Success(user);
  }

  /** Authenticates and installs a new session for the user, valid for one
      day from `now`. The context keeps its session when the call fails.
      `stored` is whether the session store accepted the new session. */
  method StartSession(db: Database, ctx: Context, data: UserRules.Credentials, compare: (string, string) -> bool,
                      now: int, freshId: string, stored: bool)
    returns (r: Result<User>)
    requires db.Valid()
    modifies ctx`session
    ensures r == UserRules.StartSession(db.users, old(ctx.session.userId), data, compare, stored)
    ensures r.Failure? ==> ctx.session == old(ctx.session)
    ensures r.Success? ==>
      && fresh(ctx.session)
      && ctx.session.id == freshId && ctx.session.userId == r.value.id && ctx.session.token == ""
      && ctx.session.expires == now + OneDayMs
      && ctx.session.Valid(now)
  {
    var auth := Authenticate(db, ctx, data, compare);
    if auth.Failure? {
      return Failure(auth.error);
    }
    if auth.value.None? {
      return Failure(UserRules.NoUser);
    }
    var user := auth.value.value;
    var session := new Session(SessionParams(None, None, Some(user.id), None), now, freshId);
    if !stored {
      return Failure(UserRules.NoSession);
    }
    ctx.session := session;
    r := Success(user);
  }
}
