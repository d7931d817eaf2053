/** middlewares/auth.midlewares.js: `verifyJwt`, which resolves the caller from the
    access token carried by a cookie or by the `Authorization` header. */
module AuthMiddleware {
  import opened Common
  import opened Users
  import opened Http

  /** `pat` occurs in `s` at position `k`. */
  predicate OccursAt(s: string, pat: string, k: nat)
  {
    k + |pat| <= |s| && s[k..k + |pat|] == pat
  }

  /** First position at or after `from` where `pat` occurs in `s`. */
  function FirstOccurrenceFrom(s: string, pat: string, from: nat): (r: Option<nat>)
    decreases |s| - from
    ensures r.Some? ==> from <= r.value && OccursAt(s, pat, r.value)
    ensures r.Some? ==> forall k: nat :: from <= k < r.value ==> !OccursAt(s, pat, k)
    ensures r.None? ==> forall k: nat :: from <= k ==> !OccursAt(s, pat, k)
  {
    if from + |pat| > |s| then None
    else if s[from..from + |pat|] == pat then Some(from)
    else FirstOccurrenceFrom(s, pat, from + 1)
  }

  /** `s.replace(pat, rep)` with a string pattern: only the first occurrence is replaced. */
  function ReplaceFirst(s: string, pat: string, rep: string): (r: string)
    ensures (forall k: nat :: !OccursAt(s, pat, k)) ==> r == s
    ensures forall i: nat :: OccursAt(s, pat, i) && (forall k: nat :: k < i ==> !OccursAt(s, pat, k)) ==>
      r == s[..i] + rep + s[i + |pat|..]
  {
    match FirstOccurrenceFrom(s, pat, 0)
    case None => s
    case Some(i) => s[..i] + rep + s[i + |pat|..]
  }

  /** `req.cookies?.accessToken || req.header('Authorization')?.replace('Bearer ', '')`,
      where an empty result counts as no token (the `!token` test). */
  function ExtractToken(cookie: Option<string>, header: Option<string>): (t: Option<string>)
    ensures t.Some? ==> t.value != ""
    ensures cookie.Some? && cookie.value != "" ==> t == cookie
    ensures (cookie.None? || cookie.value == "") && header.None? ==> t == None
    ensures (cookie.None? || cookie.value == "") && header.Some? ==>
      (t.Some? <==> ReplaceFirst(header.value, "Bearer ", "") != "") &&
      (t.Some? ==> t.value == ReplaceFirst(header.value, "Bearer ", ""))
  {
    if cookie.Some? && cookie.value != "" then cookie
    else if header.None? then None
    else
      var stripped := ReplaceFirst(header.value, "Bearer ", "");
      if stripped == "" then None else Some(stripped)
  }

  /** A `Bearer <token>` header yields the token when no cookie carries one. */
  lemma BearerHeaderYieldsToken(cookie: Option<string>, token: string)
    requires cookie.None? || cookie.value == ""
    requires token != ""
    ensures ExtractToken(cookie, Some("Bearer " + token)) == Some(token)
  {
    var h := "Bearer " + token;
    assert h[0..7] == "Bearer ";
    assert OccursAt(h, "Bearer ", 0);
    assert h[..0] + "" + h[7..] == token;
  }

  /** The cookie wins over the header whenever it is non-empty. */
  lemma CookieTakesPrecedence(cookie: string, header: Option<string>)
    requires cookie != ""
    ensures ExtractToken(Some(cookie), header) == Some(cookie)
  {
  }

  const UnauthorizedAccess := Error(401, "Unauthorized access")
  const InvalidAccessToken := Error(401, "Invalid access token")

  /** `verifyJwt`. `jwtVerify(token)` stands for `jwt.verify` with the access-token secret
      followed by reading `_id` from the payload: None when it throws or has no id.
      Every failure is a 401 and leaves `req.user` alone; on success `req.user` is the
      stored user without its secrets. */
  method VerifyJwt(req: Request, store: UserStore, jwtVerify: string -> Option<UserId>)
    returns (r: Outcome)
    modifies req
    ensures req.role == old(req.role)
    ensures ExtractToken(req.accessTokenCookie, req.authorization).None? ==>
      r == Fail(UnauthorizedAccess) && req.user == old(req.user)
    ensures ExtractToken(req.accessTokenCookie, req.authorization).Some? ==>
      var id := jwtVerify(ExtractToken(req.accessTokenCookie, req.authorization).value);
      && (id.None? || id.value !in store.users ==> r == Fail(InvalidAccessToken) && req.user == old(req.user))
      && (id.Some? && id.value in store.users ==> r == Next && req.user == Some(Sanitize(store.users[id.value])))
    ensures r.Fail? ==> r.error.status == 401
  {
    var token := ExtractToken(req.accessTokenCookie, req.authorization);
    if token.None? {
      r := Fail(UnauthorizedAccess);
      return;
    }
    var decoded := jwtVerify(token.value);
    if decoded.None? || decoded.value !in store.users {
      r := Fail(InvalidAccessToken);
      return;
    }
    req.user := Some(Sanitize(store.users[decoded.value]));
    r := Next;
  }
}
