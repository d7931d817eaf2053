/** controllers/auth.controllers.js: registration, login, logout and e-mail
    verification over the `User` collection. */
module AuthControllers {
  import opened Common
  import opened Users
  import opened Helper

  /** What `user.generateTemporaryToken()` returns: the plain token mailed to the user,
      its digest and its expiry (a timestamp in milliseconds). */
  datatype TemporaryToken = TemporaryToken(unHashedToken: string, hashedToken: string, tokenExpiry: int)

  datatype LoginResponse = LoginResponse(user: PublicUser, accessToken: string, refreshToken: string)

  const UserExists := Error(409, "User with this detials already exist")
  const LoginFieldsMissing := Error(400, "Login Id or Password are required")
  const NotRegistered := Error(400, "User is not registered")
  const InvalidCredentials := Error(400, "Invalid credentials")
  const VerificationTokenMissing := Error(400, "Email verification token is missing")
  const VerificationTokenInvalid := Error(400, "Token is invalid or expired")

  /** `registerUser`: refuse a username or email already taken; otherwise create an
      unverified user holding the verification digest and expiry, and answer with the
      user stripped of its secrets. The `role` of the body is read but never stored. */
  method RegisterUser(store: UserStore, email: string, username: string, password: string, tmp: TemporaryToken)
    returns (r: Result<PublicUser>)
    requires store.Valid()
    modifies store
    ensures store.Valid()
    ensures (exists id :: id in old(store.users) && Matches(old(store.users)[id], ByUsernameOrEmail(username, email))) ==>
      r == Err(UserExists) && store.users == old(store.users) && store.nextId == old(store.nextId)
    ensures (forall id :: id in old(store.users) ==> !Matches(old(store.users)[id], ByUsernameOrEmail(username, email))) ==>
      var id := old(store.nextId);
      && store.nextId == id + 1
      && store.users == old(store.users)[id := User(id, username, email, password, false,
                                                     Some(tmp.hashedToken), Some(tmp.tokenExpiry), "")]
      && r == Ok(Sanitize(store.users[id]))
  {
    var existing := FindOne(store.users, store.nextId, ByUsernameOrEmail(username, email));
    if existing.Some? {
      r := Err(UserExists);
      return;
    }
    var id := store.nextId;
    var user := User(id, username, email, password, false, None, None, "");
    store.users := store.users[id := user];
    store.nextId := id + 1;
    // the mail carrying `tmp.unHashedToken` is sent here; delivery is outside the model
    user := user.(emailVerificationToken := Some(tmp.hashedToken), emailVerificationExpiry := Some(tmp.tokenExpiry));
    store.users := store.users[id := user];
    r := Ok(Sanitize(store.users[id]));
  }

  /** `registerUser` as written: the argument of `sendEmail` calls
      `emailVerificationMailgenContent`, which the file never imports. The user and the
      token digest are already saved when that throws, so the answer is 500 and no mail
      leaves. */
  method RegisterUserAsWritten(store: UserStore, email: string, username: string, password: string, tmp: TemporaryToken)
    returns (r: Result<PublicUser>)
    requires store.Valid()
    modifies store
    ensures store.Valid()
    ensures (exists id :: id in old(store.users) && Matches(old(store.users)[id], ByUsernameOrEmail(username, email))) ==>
      r == Err(UserExists) && store.users == old(store.users) && store.nextId == old(store.nextId)
    ensures (forall id :: id in old(store.users) ==> !Matches(old(store.users)[id], ByUsernameOrEmail(username, email))) ==>
      var id := old(store.nextId);
      && store.nextId == id + 1
      && store.users == old(store.users)[id := User(id, username, email, password, false,
                                                     Some(tmp.hashedToken), Some(tmp.tokenExpiry), "")]
      && r == Err(InternalError)
  {
    var existing := FindOne(store.users, store.nextId, ByUsernameOrEmail(username, email));
    if existing.Some? {
      r := Err(UserExists);
      return;
    }
    var id := store.nextId;
    var user := User(id, username, email, password, false, None, None, "");
    store.users := store.users[id := user];
    store.nextId := id + 1;
    user := user.(emailVerificationToken := Some(tmp.hashedToken), emailVerificationExpiry := Some(tmp.tokenExpiry));
    store.users := store.users[id := user];
    r := Err(InternalError);
  }

  /** The divergence: a fresh registration answers 500 as written, yet the account is
      stored, so sending the same registration again is refused with 409; the account
      never receives its verification link. */
  method RegisterUserAsWrittenLocksOut(store: UserStore, email: string, username: string, password: string,
                                       tmp: TemporaryToken, retry: TemporaryToken)
    returns (first: Result<PublicUser>, second: Result<PublicUser>)
    requires store.Valid()
    requires forall id :: id in store.users ==> !Matches(store.users[id], ByUsernameOrEmail(username, email))
    modifies store
    ensures first == Err(InternalError)
    ensures second == Err(UserExists)
  {
    first := RegisterUserAsWritten(store, email, username, password, tmp);
    ghost var id := old(store.nextId);
    assert id in store.users && Matches(store.users[id], ByUsernameOrEmail(username, email));
    second := RegisterUserAsWritten(store, email, username, password, retry);
  }

  /** The lookup `loginUser` makes: by email exactly when `isEmailId` holds. */
  function LoginQuery(loginId: string): (q: Query)
    ensures q.ByEmail? <==> IsEmailId(loginId)
    ensures q.ByEmail? ==> q.email == loginId
    ensures q.ByUsername? ==> q.username == loginId
    ensures !IsEmailId(loginId) ==> q == ByUsername(loginId)
  {
    if IsEmailId(loginId) then ByEmail(loginId) else ByUsername(loginId)
  }

  /** `loginUser`: both fields required; the user is found by email or username, the
      password is checked against THAT user's stored password (the source calls the
      static `User.isPasswordValid`), and a fresh refresh token is stored on it.
      `passwordMatches(stored, candidate)` stands for the model's password check. */
  method LoginUser(store: UserStore, passwordMatches: (string, string) -> bool,
                   loginId: string, password: string, issued: SessionTokens)
    returns (r: Result<LoginResponse>)
    requires store.Valid()
    modifies store
    ensures store.Valid() && store.nextId == old(store.nextId)
    ensures loginId == "" || password == "" ==> r == Err(LoginFieldsMissing) && store.users == old(store.users)
    ensures loginId != "" && password != "" ==>
      var found := FindOne(old(store.users), old(store.nextId), LoginQuery(loginId));
      && (found.None? ==> r == Err(NotRegistered) && store.users == old(store.users))
      && (found.Some? && !passwordMatches(old(store.users)[found.value].password, password) ==>
            r == Err(InvalidCredentials) && store.users == old(store.users))
      && (found.Some? && passwordMatches(old(store.users)[found.value].password, password) ==>
            var u := old(store.users)[found.value];
            && r == Ok(LoginResponse(Sanitize(u), issued.accessToken, issued.refreshToken))
            && store.users == old(store.users)[u.id := u.(refreshToken := issued.refreshToken)])
    ensures r.Ok? ==>
      var u := old(store.users)[r.value.user.id];
      && r.value.user.id in old(store.users)
      && passwordMatches(u.password, password)
      && (loginId == u.email || loginId == u.username)
      && store.users[u.id].refreshToken == r.value.refreshToken
  {
    if loginId == "" || password == "" {
      r := Err(LoginFieldsMissing);
      return;
    }
    var found := FindOne(store.users, store.nextId, LoginQuery(loginId));
    if found.None? {
      r := Err(NotRegistered);
      return;
    }
    var user := store.users[found.value];
    if !passwordMatches(user.password, password) {
      r := Err(InvalidCredentials);
      return;
    }
    var tokens := GenerateAccessAndRefreshToken(store, user.id, issued);
    var loggedUser := Sanitize(store.users[user.id]);
    r := Ok(LoginResponse(loggedUser, tokens.value.accessToken, tokens.value.refreshToken));
  }

  /** `logoutUser`: blank the caller's refresh token; an unknown id updates nothing. */
  method LogoutUser(store: UserStore, userId: UserId)
    requires store.Valid()
    modifies store
    ensures store.Valid() && store.nextId == old(store.nextId)
    ensures userId in old(store.users) ==>
      store.users == old(store.users)[userId := old(store.users)[userId].(refreshToken := "")]
    ensures userId !in old(store.users) ==> store.users == old(store.users)
  {
    if userId in store.users {
      var user := store.users[userId];
      store.users := store.users[userId := user.(refreshToken := "")];
    }
  }

  /** The document a successful verification leaves behind. */
  function MarkVerified(u: User): (v: User)
    ensures v.isEmailVerified && v.emailVerificationToken.None? && v.emailVerificationExpiry.None?
    ensures v.id == u.id && v.username == u.username && v.email == u.email
    ensures v.password == u.password && v.refreshToken == u.refreshToken
  {
    u.(emailVerificationToken := None, emailVerificationExpiry := None, isEmailVerified := true)
  }

  datatype Verification = Verification(result: Result<bool>, users: map<UserId, User>)

  /** `verifyEmail` as a transition of the collection: digest the token, find a user
      holding that digest whose expiry is still strictly ahead of `now`, and clear both
      token fields while setting the verified flag. `sha256` is the hex digest. */
  function VerifyEmailStep(users: map<UserId, User>, nextId: UserId, sha256: string -> string,
                           token: string, now: int): (v: Verification)
    requires WellKeyed(users, nextId)
    ensures v.result.Ok? <==>
      token != "" && exists id :: id in users && Matches(users[id], ByVerificationToken(sha256(token), now))
    ensures v.result.Err? ==> v.users == users && v.result.error.status == 400
    ensures v.result.Ok? ==>
      exists id :: id in users && Matches(users[id], ByVerificationToken(sha256(token), now)) &&
                   v.users == users[id := MarkVerified(users[id])]
  {
    if token == "" then Verification(Err(VerificationTokenMissing), users)
    else
      match FindOne(users, nextId, ByVerificationToken(sha256(token), now))
      case None => Verification(Err(VerificationTokenInvalid), users)
      case Some(id) => Verification(Ok(true), users[id := MarkVerified(users[id])])
  }

  /** A token is consumed once: after it verified a user, that user matches no
      verification query any more, and when no other user held the same digest a
      second call with the same token, at any time, fails with 400. */
  lemma {:induction false} VerifyEmailSingleUse(users: map<UserId, User>, nextId: UserId, sha256: string -> string,
                                                token: string, now: int, later: int)
    requires WellKeyed(users, nextId)
    requires VerifyEmailStep(users, nextId, sha256, token, now).result.Ok?
    requires forall a, b ::
      (a in users && b in users && users[a].emailVerificationToken == Some(sha256(token)) &&
       users[b].emailVerificationToken == Some(sha256(token))) ==> a == b
    ensures WellKeyed(VerifyEmailStep(users, nextId, sha256, token, now).users, nextId)
    ensures VerifyEmailStep(VerifyEmailStep(users, nextId, sha256, token, now).users, nextId, sha256, token, later).result
            == Err(VerificationTokenInvalid)
  {
    var v := VerifyEmailStep(users, nextId, sha256, token, now);
    var id := FindOne(users, nextId, ByVerificationToken(sha256(token), now)).value;
    assert v.users == users[id := MarkVerified(users[id])];
    forall k | k in v.users ensures !Matches(v.users[k], ByVerificationToken(sha256(token), later)) {
      if k != id {
        assert v.users[k] == users[k];
      }
    }
  }

  /** The token mailed at registration verifies its user: if the stored digest is the
      digest of the mailed token and the expiry is still ahead, verification succeeds,
      and when that user is the only holder of the digest it is the one verified. */
  lemma VerifyEmailAcceptsIssuedToken(users: map<UserId, User>, nextId: UserId, sha256: string -> string,
                                      id: UserId, tmp: TemporaryToken, now: int)
    requires WellKeyed(users, nextId) && id in users
    requires tmp.hashedToken == sha256(tmp.unHashedToken) && tmp.unHashedToken != ""
    requires users[id].emailVerificationToken == Some(tmp.hashedToken)
    requires users[id].emailVerificationExpiry == Some(tmp.tokenExpiry)
    requires now < tmp.tokenExpiry
    ensures VerifyEmailStep(users, nextId, sha256, tmp.unHashedToken, now).result == Ok(true)
    ensures (forall k :: k in users && k != id ==> users[k].emailVerificationToken != Some(tmp.hashedToken)) ==>
      VerifyEmailStep(users, nextId, sha256, tmp.unHashedToken, now).users == users[id := MarkVerified(users[id])]
  {
    assert Matches(users[id], ByVerificationToken(sha256(tmp.unHashedToken), now));
  }

  /** The expiry comparison is strict: at the expiry instant the token is rejected. */
  lemma VerifyEmailRejectsAtExpiry(users: map<UserId, User>, nextId: UserId, sha256: string -> string,
                                   token: string, now: int)
    requires WellKeyed(users, nextId)
    requires forall k :: k in users && users[k].emailVerificationToken == Some(sha256(token)) ==>
      users[k].emailVerificationExpiry == Some(now)
    ensures VerifyEmailStep(users, nextId, sha256, token, now).result.Err?
  {
  }

  /** `verifyEmail`. The source reads the token as `req.params` (the whole parameter
      object) and saves with the static `User.save`; the model digests the token string
      and saves the found document. */
  method VerifyEmail(store: UserStore, sha256: string -> string, token: string, now: int)
    returns (r: Result<bool>)
    requires store.Valid()
    modifies store
    ensures store.Valid() && store.nextId == old(store.nextId)
    ensures r == VerifyEmailStep(old(store.users), old(store.nextId), sha256, token, now).result
    ensures store.users == VerifyEmailStep(old(store.users), old(store.nextId), sha256, token, now).users
  {
    if token == "" {
      r := Err(VerificationTokenMissing);
      return;
    }
    var hashedToken := sha256(token);
    var found := FindOne(store.users, store.nextId, ByVerificationToken(hashedToken, now));
    if found.None? {
      r := Err(VerificationTokenInvalid);
      return;
    }
    var user := store.users[found.value];
    user := user.(emailVerificationToken := None);
    user := user.(emailVerificationExpiry := None);
    user := user.(isEmailVerified := true);
    store.users := store.users[found.value := user];
    r := Ok(true);
  }

  /** `verifyEmail` as written: `crypto.createHash("sha256").update(req.params)` is given
      the route-parameter object, not a string, and throws, so every call ends in a 500
      and no document changes. */
  function VerifyEmailStepAsWritten(users: map<UserId, User>): (v: Verification)
    ensures v.result.Err? && v.result.error.status == 500 && v.users == users
  {
    Verification(Err(InternalError), users)
  }

  /** The divergence: a user holding the digest of the mailed token, before its expiry,
      is verified by the corrected handler and refused by the handler as written. */
  lemma VerifyEmailAsWrittenRefusesIssuedToken(users: map<UserId, User>, nextId: UserId, sha256: string -> string,
                                               id: UserId, tmp: TemporaryToken, now: int)
    requires WellKeyed(users, nextId) && id in users
    requires tmp.hashedToken == sha256(tmp.unHashedToken) && tmp.unHashedToken != ""
    requires users[id].emailVerificationToken == Some(tmp.hashedToken)
    requires users[id].emailVerificationExpiry == Some(tmp.tokenExpiry)
    requires now < tmp.tokenExpiry
    ensures VerifyEmailStep(users, nextId, sha256, tmp.unHashedToken, now).result.Ok?
    ensures VerifyEmailStepAsWritten(users).result.Err?
  {
    VerifyEmailAcceptsIssuedToken(users, nextId, sha256, id, tmp, now);
  }

  /** Registering and then presenting the issued token before it expires verifies the
      new user. */
  method RegisterThenVerify(store: UserStore, sha256: string -> string, email: string, username: string,
                            password: string, tmp: TemporaryToken, now: int)
    returns (registered: Result<PublicUser>, verified: Result<bool>)
    requires store.Valid()
    requires forall id :: id in store.users ==> !Matches(store.users[id], ByUsernameOrEmail(username, email))
    requires forall id :: id in store.users ==> store.users[id].emailVerificationToken != Some(tmp.hashedToken)
    requires tmp.hashedToken == sha256(tmp.unHashedToken) && tmp.unHashedToken != ""
    requires now < tmp.tokenExpiry
    modifies store
    ensures store.Valid()
    ensures registered.Ok? && verified == Ok(true)
    ensures registered.value.id in store.users && store.users[registered.value.id].isEmailVerified
    ensures store.users[registered.value.id].emailVerificationToken.None?
  {
    registered := RegisterUser(store, email, username, password, tmp);
    var id := registered.value.id;
    VerifyEmailAcceptsIssuedToken(store.users, store.nextId, sha256, id, tmp, now);
    verified := VerifyEmail(store, sha256, tmp.unHashedToken, now);
  }
}
