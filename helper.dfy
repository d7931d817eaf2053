/** utils/helper.js: the login-id classifier and the session-token writer. */
module Helper {
  import opened Common
  import opened Users

  predicate IsAsciiLetter(c: char) { 'a' <= c <= 'z' || 'A' <= c <= 'Z' }

  predicate IsDigit(c: char) { '0' <= c <= '9' }

  /** `[a-zA-Z0-9._%+-]` */
  predicate IsLocalChar(c: char)
  {
    IsAsciiLetter(c) || IsDigit(c) || c == '.' || c == '_' || c == '%' || c == '+' || c == '-'
  }

  /** `[a-zA-Z0-9.-]` */
  predicate IsDomainChar(c: char)
  {
    IsAsciiLetter(c) || IsDigit(c) || c == '.' || c == '-'
  }

  /** `s` matches `[a-zA-Z0-9._%+-]*`. */
  predicate AllLocal(s: string) { forall k :: 0 <= k < |s| ==> IsLocalChar(s[k]) }

  /** `s` matches `[a-zA-Z0-9.-]*`. */
  predicate AllDomain(s: string) { forall k :: 0 <= k < |s| ==> IsDomainChar(s[k]) }

  /** `s` matches `[a-zA-Z]*`. */
  predicate AllLetters(s: string) { forall k :: 0 <= k < |s| ==> IsAsciiLetter(s[k]) }

  /** The language of `/^[a-zA-Z0-9._%+-]+@[a-zA-Z0-9.-]+\.[a-zA-Z]{2,}$/`, read off the
      regular expression: an '@' at i, a '.' at j, a non-empty local part before i, a
      non-empty domain between them and at least two letters after j. */
  ghost predicate EmailPattern(s: string)
  {
    exists i, j :: 0 < i && i + 1 < j && j + 3 <= |s| && s[i] == '@' && s[j] == '.' &&
      AllLocal(s[..i]) && AllDomain(s[i + 1..j]) && AllLetters(s[j + 1..])
  }

  /** Position of the first `c` in `s`. */
  function IndexOf(s: string, c: char): (r: Option<nat>)
    ensures r.Some? ==> r.value < |s| && s[r.value] == c && c !in s[..r.value]
    ensures r.None? ==> c !in s
  {
    if |s| == 0 then None
    else if s[0] == c then Some(0)
    else
      match IndexOf(s[1..], c)
      case None => None
      case Some(k) =>
        assert s[..k + 1] == [s[0]] + s[1..][..k];
        Some(k + 1)
  }

  /** Position of the last `c` in `s`. */
  function LastIndexOf(s: string, c: char): (r: Option<nat>)
    ensures r.Some? ==> r.value < |s| && s[r.value] == c && c !in s[r.value + 1..]
    ensures r.None? ==> c !in s
  {
    if |s| == 0 then None
    else if s[|s| - 1] == c then Some(|s| - 1)
    else
      match LastIndexOf(s[..|s| - 1], c)
      case None => None
      case Some(k) =>
        assert s[k + 1..] == s[..|s| - 1][k + 1..] + [s[|s| - 1]];
        Some(k)
  }

  /** `isEmailId(loginId)`: split at the first '@', then split the rest at its last '.'. */
  predicate IsEmailId(s: string)
    ensures IsEmailId(s) ==> '@' in s && |s| >= 6
  {
    match IndexOf(s, '@')
    case None => false
    case Some(i) =>
      var rest := s[i + 1..];
      match LastIndexOf(rest, '.')
      case None => false
      case Some(j) =>
        0 < i && 0 < j && j + 3 <= |rest| &&
        AllLocal(s[..i]) && AllDomain(rest[..j]) && AllLetters(rest[j + 1..])
  }

  /** The first `c` of a string is the one at `i` when nothing before `i` is a `c`. */
  lemma FirstOccurrence(s: string, c: char, i: nat)
    requires i < |s| && s[i] == c && c !in s[..i]
    ensures IndexOf(s, c) == Some(i)
  {
    var r := IndexOf(s, c);
    assert forall k :: 0 <= k < i ==> s[..i][k] == s[k];
    assert r.Some? ==> forall k :: 0 <= k < r.value ==> s[..r.value][k] == s[k];
  }

  /** The last `c` of a string is the one at `j` when nothing after `j` is a `c`. */
  lemma LastOccurrence(s: string, c: char, j: nat)
    requires j < |s| && s[j] == c && c !in s[j + 1..]
    ensures LastIndexOf(s, c) == Some(j)
  {
    var r := LastIndexOf(s, c);
    assert forall k :: j < k < |s| ==> s[j + 1..][k - j - 1] == s[k];
    assert r.Some? ==> forall k :: r.value < k < |s| ==> s[r.value + 1..][k - r.value - 1] == s[k];
  }

  /** Every string the classifier accepts matches the regular expression. */
  lemma {:induction false} IsEmailIdSound(s: string)
    requires IsEmailId(s)
    ensures EmailPattern(s)
  {
    var i := IndexOf(s, '@').value;
    var rest := s[i + 1..];
    var j := LastIndexOf(rest, '.').value;
    var j' := i + 1 + j;
    assert s[i + 1..j'] == rest[..j];
    assert s[j' + 1..] == rest[j + 1..];
    assert s[j'] == rest[j];
    assert 0 < i && i + 1 < j' && j' + 3 <= |s| && s[i] == '@' && s[j'] == '.' &&
      AllLocal(s[..i]) && AllDomain(s[i + 1..j']) && AllLetters(s[j' + 1..]);
  }

  /** A local part followed by '@' puts the first '@' right after it. */
  lemma FirstAtAfterLocalPart(s: string, i: nat)
    requires i < |s| && s[i] == '@' && AllLocal(s[..i])
    ensures IndexOf(s, '@') == Some(i)
  {
    forall k | 0 <= k < i ensures s[..i][k] != '@' {
      assert IsLocalChar(s[..i][k]);
    }
    FirstOccurrence(s, '@', i);
  }

  /** A '.' followed only by letters is the last '.'. */
  lemma LastDotBeforeLetters(t: string, j: nat)
    requires j < |t| && t[j] == '.' && AllLetters(t[j + 1..])
    ensures LastIndexOf(t, '.') == Some(j)
  {
    var tail := t[j + 1..];
    forall k | 0 <= k < |tail| ensures tail[k] != '.' {
      assert IsAsciiLetter(tail[k]);
    }
    LastOccurrence(t, '.', j);
  }

  /** The classifier accepts a string once the two split points are known. */
  lemma IsEmailIdAt(s: string, i: nat, j: nat)
    requires 0 < i && i + 1 < j && j + 3 <= |s| && s[i] == '@' && s[j] == '.'
    requires AllLocal(s[..i]) && AllDomain(s[i + 1..j]) && AllLetters(s[j + 1..])
    ensures IsEmailId(s)
  {
    FirstAtAfterLocalPart(s, i);
    var rest := s[i + 1..];
    var jr := j - i - 1;
    assert rest[jr + 1..] == s[j + 1..];
    assert rest[..jr] == s[i + 1..j];
    LastDotBeforeLetters(rest, jr);
  }

  /** Every string the regular expression matches is accepted by the classifier. */
  lemma IsEmailIdComplete(s: string)
    requires EmailPattern(s)
    ensures IsEmailId(s)
  {
    var i, j :| 0 < i && i + 1 < j && j + 3 <= |s| && s[i] == '@' && s[j] == '.' &&
      AllLocal(s[..i]) && AllDomain(s[i + 1..j]) && AllLetters(s[j + 1..]);
    IsEmailIdAt(s, i, j);
  }

  /** The classifier accepts exactly the strings the regular expression matches. */
  lemma IsEmailIdMatchesPattern(s: string)
    ensures IsEmailId(s) <==> EmailPattern(s)
  {
    if IsEmailId(s) { IsEmailIdSound(s); }
    if EmailPattern(s) { IsEmailIdComplete(s); }
  }

  /** A login id classified as an email holds exactly one '@'. */
  lemma EmailIdHasOneAt(s: string)
    requires IsEmailId(s)
    ensures exists i :: 0 <= i < |s| && s[i] == '@'
    ensures forall i, k :: 0 <= i < |s| && 0 <= k < |s| && s[i] == '@' && s[k] == '@' ==> i == k
  {
    var i := IndexOf(s, '@').value;
    var rest := s[i + 1..];
    var j := LastIndexOf(rest, '.').value;
    forall k | i < k < |s| ensures s[k] != '@' {
      var kr := k - i - 1;
      if kr < j {
        assert rest[..j][kr] == s[k];
        assert IsDomainChar(rest[..j][kr]);
      } else if kr > j {
        assert rest[j + 1..][kr - j - 1] == s[k];
        assert IsAsciiLetter(rest[j + 1..][kr - j - 1]);
      }
    }
    forall k | 0 <= k < i ensures s[k] != '@' {
      assert s[..i][k] == s[k];
    }
  }

  /** A login id without an '@' is always looked up as a username. */
  lemma NoAtMeansUsername(s: string)
    requires '@' !in s
    ensures !IsEmailId(s)
  {
  }

  /** What the access- and refresh-token generators produced for this call (signed
      JWTs; their signing is outside this model). */
  datatype SessionTokens = SessionTokens(accessToken: string, refreshToken: string)

  const TokenGenerationFailed := Error(500, "Somthng went wrong while generating access token")

  /** `genrateAccessAndRefreshToken(userId)`: store the new refresh token on the user
      and hand both tokens back; any failure (here: no such user) is a 500.
      The source calls the static `User.generateAccessToken()`; the tokens are taken
      to be the user's own, as the instance methods would produce them. */
  method GenerateAccessAndRefreshToken(store: UserStore, userId: UserId, issued: SessionTokens)
    returns (r: Result<SessionTokens>)
    requires store.Valid()
    modifies store
    ensures store.Valid() && store.nextId == old(store.nextId)
    ensures userId !in old(store.users) ==>
      r == Err(TokenGenerationFailed) && store.users == old(store.users)
    ensures userId in old(store.users) ==>
      r == Ok(issued) &&
      store.users == old(store.users)[userId := old(store.users)[userId].(refreshToken := issued.refreshToken)]
    ensures r.Ok? ==> userId in store.users && store.users[userId].refreshToken == r.value.refreshToken
  {
    if userId !in store.users {
      r := Err(TokenGenerationFailed);
      return;
    }
    var user := store.users[userId];
    user := user.(refreshToken := issued.refreshToken);
    store.users := store.users[userId := user];
    r := Ok(issued);
  }
}
