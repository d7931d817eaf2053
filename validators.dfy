/** validators/index.js: the express-validator chains for registration, forgot-password,
    change-password and reset-password bodies. A chain runs its sanitiser, then every
    validator in turn; each failing validator records its own message for the field,
    and the chains of one route run one after another, so errors come field by field. */
module Validators {
  import opened Common
  import opened Http
  import opened Helper

  /** The characters JavaScript's `String.prototype.trim` removes: white space and
      line terminators. */
  predicate IsJsWhitespace(c: char)
  {
    || c == '\t' || c == '\n' || c == '\U{000B}' || c == '\U{000C}' || c == '\r' || c == ' '
    || c == '\U{00A0}' || c == '\U{1680}' || ('\U{2000}' <= c <= '\U{200A}')
    || c == '\U{2028}' || c == '\U{2029}' || c == '\U{202F}' || c == '\U{205F}'
    || c == '\U{3000}' || c == '\U{FEFF}'
  }

  /** `s` without its leading white space. */
  function TrimStart(s: string): (r: string)
    ensures |r| <= |s| && r == s[|s| - |r|..]
    ensures forall k :: 0 <= k < |s| - |r| ==> IsJsWhitespace(s[k])
    ensures r != [] ==> !IsJsWhitespace(r[0])
  {
    if s != [] && IsJsWhitespace(s[0]) then TrimStart(s[1..]) else s
  }

  /** `s` without its trailing white space. */
  function TrimEnd(s: string): (r: string)
    ensures |r| <= |s| && r == s[..|r|]
    ensures forall k :: |r| <= k < |s| ==> IsJsWhitespace(s[k])
    ensures r != [] ==> !IsJsWhitespace(r[|r| - 1])
  {
    if s != [] && IsJsWhitespace(s[|s| - 1]) then TrimEnd(s[..|s| - 1]) else s
  }

  /** Every character of `s` is white space. */
  predicate AllWhitespace(s: string)
  {
    forall k :: 0 <= k < |s| ==> IsJsWhitespace(s[k])
  }

  /** `r` is `s` with its leading and trailing white space removed: a slice of `s`
      with only white space outside it and none at either of its own ends. */
  ghost predicate IsTrimOf(r: string, s: string)
  {
    exists a, b :: 0 <= a <= b <= |s| && r == s[a..b] && AllWhitespace(s[..a]) && AllWhitespace(s[b..]) &&
      (r != [] ==> !IsJsWhitespace(r[0]) && !IsJsWhitespace(r[|r| - 1]))
  }

  /** A string has one trimmed form. */
  lemma {:induction false} IsTrimOfUnique(r1: string, r2: string, s: string)
    requires IsTrimOf(r1, s) && IsTrimOf(r2, s)
    ensures r1 == r2
  {
    var a1, b1 :| 0 <= a1 <= b1 <= |s| && r1 == s[a1..b1] && AllWhitespace(s[..a1]) && AllWhitespace(s[b1..]) &&
      (r1 != [] ==> !IsJsWhitespace(r1[0]) && !IsJsWhitespace(r1[|r1| - 1]));
    var a2, b2 :| 0 <= a2 <= b2 <= |s| && r2 == s[a2..b2] && AllWhitespace(s[..a2]) && AllWhitespace(s[b2..]) &&
      (r2 != [] ==> !IsJsWhitespace(r2[0]) && !IsJsWhitespace(r2[|r2| - 1]));
    WhitespaceOutside(s, r1, a1, b1);
    WhitespaceOutside(s, r2, a2, b2);
    if r1 != [] && r2 != [] {
      assert !IsJsWhitespace(s[a1]) && !IsJsWhitespace(s[a2]);
      assert a1 == a2;
      assert !IsJsWhitespace(s[b1 - 1]) && !IsJsWhitespace(s[b2 - 1]);
      assert b1 == b2;
    }
  }

  /** When the slice `s[a..b]` is `r`, has no white space at its ends and only white
      space lies outside it, then `a` and `b` are fixed by `s` alone: `r` is empty exactly
      when all of `s` is white space, and otherwise `a` is the first and `b - 1` the last
      position of `s` that is not white space. */
  lemma WhitespaceOutside(s: string, r: string, a: nat, b: nat)
    requires a <= b <= |s| && r == s[a..b] && AllWhitespace(s[..a]) && AllWhitespace(s[b..])
    requires r != [] ==> !IsJsWhitespace(r[0]) && !IsJsWhitespace(r[|r| - 1])
    ensures r == [] <==> AllWhitespace(s)
    ensures r != [] ==> !IsJsWhitespace(s[a]) && forall k :: 0 <= k < a ==> IsJsWhitespace(s[k])
    ensures r != [] ==> !IsJsWhitespace(s[b - 1]) && forall k :: b <= k < |s| ==> IsJsWhitespace(s[k])
  {
    assert forall k :: 0 <= k < a ==> s[..a][k] == s[k];
    assert forall k :: b <= k < |s| ==> s[b..][k - b] == s[k];
    assert r != [] ==> s[a] == r[0] && s[b - 1] == r[|r| - 1];
  }

  /** The white space `TrimStart` removes is the prefix `s[..|s| - |TrimStart(s)|]`. */
  lemma TrimStartPrefix(s: string)
    ensures AllWhitespace(s[..|s| - |TrimStart(s)|])
  {
    var a := |s| - |TrimStart(s)|;
    forall k | 0 <= k < a
      ensures IsJsWhitespace(s[..a][k])
    {
      assert s[..a][k] == s[k];
    }
  }

  /** The white space `TrimEnd` removes is the suffix `t[|TrimEnd(t)|..]`. */
  lemma TrimEndSuffix(t: string)
    ensures AllWhitespace(t[|TrimEnd(t)|..])
  {
    var b := |TrimEnd(t)|;
    forall k | 0 <= k < |t| - b
      ensures IsJsWhitespace(t[b..][k])
    {
      assert t[b..][k] == t[b + k];
    }
  }

  /** Trimming the start and then the end removes exactly the white space at both ends. */
  lemma TrimBothEnds(s: string)
    ensures IsTrimOf(TrimEnd(TrimStart(s)), s)
  {
    var t := TrimStart(s);
    var r := TrimEnd(t);
    var a := |s| - |t|;
    var b := a + |r|;
    TrimStartPrefix(s);
    TrimEndSuffix(t);
    assert s[b..] == t[|r|..];
    assert r == s[a..b];
    assert r != [] ==> r[0] == t[0];
    WhitespaceOutside(s, r, a, b);
    assert IsTrimOf(r, s) by {
      assert 0 <= a <= b <= |s| && r == s[a..b] && AllWhitespace(s[..a]) && AllWhitespace(s[b..]);
    }
  }

  /** A trimmed form is empty exactly when the string is all white space. */
  lemma IsTrimOfEmpty(r: string, s: string)
    requires IsTrimOf(r, s)
    ensures r == [] <==> AllWhitespace(s)
  {
    var a, b :| 0 <= a <= b <= |s| && r == s[a..b] && AllWhitespace(s[..a]) && AllWhitespace(s[b..]) &&
      (r != [] ==> !IsJsWhitespace(r[0]) && !IsJsWhitespace(r[|r| - 1]));
    WhitespaceOutside(s, r, a, b);
  }

  /** The `trim()` sanitiser: the input without its leading and trailing white space. */
  function Trim(s: string): (r: string)
    ensures IsTrimOf(r, s)
    ensures r == [] <==> AllWhitespace(s)
    ensures |r| <= |s|
  {
    TrimBothEnds(s);
    IsTrimOfEmpty(TrimEnd(TrimStart(s)), s);
    TrimEnd(TrimStart(s))
  }

  /** Trimming twice is trimming once. */
  lemma TrimIdempotent(s: string)
    ensures Trim(Trim(s)) == Trim(s)
  {
    var r := Trim(s);
    if r != [] {
      assert TrimStart(r) == r;
      assert TrimEnd(r) == r;
    }
  }

  // The password pattern /^(?=.*[a-z])(?=.*[A-Z])(?=.*\d)(?=.*[@$!%*?&])[A-Za-z\d@$!%*?&]{8,}$/

  predicate IsLower(c: char) { 'a' <= c <= 'z' }
  predicate IsUpper(c: char) { 'A' <= c <= 'Z' }
  predicate IsSpecial(c: char) { c == '@' || c == '$' || c == '!' || c == '%' || c == '*' || c == '?' || c == '&' }
  predicate IsPasswordChar(c: char) { IsLower(c) || IsUpper(c) || IsDigit(c) || IsSpecial(c) }

  /** What the pattern accepts, read off its parts: each look-ahead asks for one
      character of its class somewhere, the body allows only the listed characters,
      at least eight of them, and the anchors make the body the whole string. */
  ghost predicate MatchesPasswordPattern(s: string)
  {
    && (exists k :: 0 <= k < |s| && IsLower(s[k]))
    && (exists k :: 0 <= k < |s| && IsUpper(s[k]))
    && (exists k :: 0 <= k < |s| && IsDigit(s[k]))
    && (exists k :: 0 <= k < |s| && IsSpecial(s[k]))
    && (forall k :: 0 <= k < |s| ==> IsPasswordChar(s[k]))
    && |s| >= 8
  }

  /** The character classes met in one pass over a string. */
  datatype Classes = Classes(lower: bool, upper: bool, digit: bool, special: bool, allowed: bool)

  /** One pass over `s[i..]`. */
  function ScanFrom(s: string, i: nat): (c: Classes)
    requires i <= |s|
    decreases |s| - i
    ensures c.lower <==> exists k :: i <= k < |s| && IsLower(s[k])
    ensures c.upper <==> exists k :: i <= k < |s| && IsUpper(s[k])
    ensures c.digit <==> exists k :: i <= k < |s| && IsDigit(s[k])
    ensures c.special <==> exists k :: i <= k < |s| && IsSpecial(s[k])
    ensures c.allowed <==> forall k :: i <= k < |s| ==> IsPasswordChar(s[k])
  {
    if i == |s| then Classes(false, false, false, false, true)
    else
      var x := s[i];
      var rest := ScanFrom(s, i + 1);
      Classes(rest.lower || IsLower(x), rest.upper || IsUpper(x), rest.digit || IsDigit(x),
              rest.special || IsSpecial(x), rest.allowed && IsPasswordChar(x))
  }

  /** The pattern test as one pass. */
  predicate PasswordPattern(s: string)
  {
    var c := ScanFrom(s, 0);
    |s| >= 8 && c.lower && c.upper && c.digit && c.special && c.allowed
  }

  /** The one-pass test accepts exactly what the pattern describes. */
  lemma PasswordPatternIsExact(s: string)
    ensures PasswordPattern(s) <==> MatchesPasswordPattern(s)
  {
  }

  /** What a chain reads for a field: an absent field reads as the empty string. */
  function Field(v: Option<string>): string
  {
    if v.Some? then v.value else ""
  }

  /** The error a validator records when it fails. */
  function Check(ok: bool, path: string, msg: string): (e: seq<ValidationError>)
    ensures e == [] <==> ok
    ensures e != [] ==> e == [ValidationError(path, msg)]
  {
    if ok then [] else [ValidationError(path, msg)]
  }

  /** `isLowercase`, for the letters A to Z. */
  predicate IsLowercase(s: string)
  {
    forall k :: 0 <= k < |s| ==> !IsUpper(s[k])
  }

  /** U+FE0E and U+FE0F, the variation selectors validator.js leaves out of a length. */
  predicate IsVariationSelector(c: char)
  {
    c == '\U{FE0E}' || c == '\U{FE0F}'
  }

  /** The length `isLength` compares, over `s[i..]`: one per code point, variation
      selectors not counted. */
  function ValidatorLengthFrom(s: string, i: nat): (n: nat)
    requires i <= |s|
    decreases |s| - i
    ensures n <= |s| - i
    ensures n == |s| - i <==> forall k :: i <= k < |s| ==> !IsVariationSelector(s[k])
    ensures n + multiset(s[i..])['\U{FE0E}'] + multiset(s[i..])['\U{FE0F}'] == |s| - i
  {
    if i == |s| then 0
    else
      assert s[i..] == [s[i]] + s[i + 1..];
      if IsVariationSelector(s[i]) then ValidatorLengthFrom(s, i + 1)
      else 1 + ValidatorLengthFrom(s, i + 1)
  }

  function ValidatorLength(s: string): (n: nat)
    ensures n <= |s|
    ensures n == |s| <==> forall k :: 0 <= k < |s| ==> !IsVariationSelector(s[k])
    ensures n + multiset(s)['\U{FE0E}'] + multiset(s)['\U{FE0F}'] == |s|
  {
    assert s[0..] == s;
    ValidatorLengthFrom(s, 0)
  }

  /** `body('email').trim().notEmpty().isEmail()`; `isEmail` is validator.js's test. */
  function EmailErrors(isEmail: string -> bool, email: Option<string>): (e: seq<ValidationError>)
    ensures e == [] <==> Trim(Field(email)) != "" && isEmail(Trim(Field(email)))
    ensures forall k :: 0 <= k < |e| ==> e[k].path == "email"
  {
    var v := Trim(Field(email));
    Check(v != "", "email", "Email is required") + Check(isEmail(v), "email", "Email is Invalid")
  }

  /** The username validators on the sanitised value `v`. */
  function UsernameRules(v: string): (e: seq<ValidationError>)
    ensures e == [] <==> ValidatorLength(v) >= 5 && IsLowercase(v)
    ensures v == "" ==> e == [ValidationError("username", "Username is required"),
                              ValidationError("username", "Usernmae must have at least 5 characters")]
    ensures forall k :: 0 <= k < |e| ==> e[k].path == "username"
  {
    var e1 := Check(v != "", "username", "Username is required");
    var e2 := Check(ValidatorLength(v) >= 5, "username", "Usernmae must have at least 5 characters");
    var e3 := Check(IsLowercase(v), "username", "Username must be in lower case");
    assert |e1 + e2 + e3| == |e1| + |e2| + |e3|;
    e1 + e2 + e3
  }

  /** `body('username').trim().notEmpty().isLength({ min: 5 }).isLowercase()`. */
  function UsernameErrors(username: Option<string>): (e: seq<ValidationError>)
    ensures e == [] <==> ValidatorLength(Trim(Field(username))) >= 5 && IsLowercase(Trim(Field(username)))
    ensures Trim(Field(username)) == "" ==>
      e == [ValidationError("username", "Username is required"),
            ValidationError("username", "Usernmae must have at least 5 characters")]
    ensures forall k :: 0 <= k < |e| ==> e[k].path == "username"
  {
    UsernameRules(Trim(Field(username)))
  }

  /** A password the pattern accepts passes `isLength({ min: 8 })`: it has no
      variation selector, so every one of its eight or more characters counts. */
  lemma PatternPasswordIsLongEnough(v: string)
    requires MatchesPasswordPattern(v)
    ensures ValidatorLength(v) >= 8
  {
    assert forall k :: 0 <= k < |v| ==> IsPasswordChar(v[k]);
  }

  const PasswordRuleMessage :=
    "Password must contain at least one uppercase letter, one lowercase letter, one number, and one special character."

  /** The password validators on the sanitised value `v`. */
  function PasswordRules(v: string): (e: seq<ValidationError>)
    ensures e == [] <==> MatchesPasswordPattern(v)
    ensures forall k :: 0 <= k < |e| ==> e[k].path == "password"
    ensures |v| < 8 ==> ValidationError("password", PasswordRuleMessage) in e
  {
    PasswordPatternIsExact(v);
    var e1 := Check(v != "", "password", "Password is required");
    var e2 := Check(ValidatorLength(v) >= 8, "password", "Password must have at least 8 characters long");
    var e3 := Check(PasswordPattern(v), "password", PasswordRuleMessage);
    assert PasswordPattern(v) ==> ValidatorLength(v) >= 8 by {
      if PasswordPattern(v) { PatternPasswordIsLongEnough(v); }
    }
    assert |e1 + e2 + e3| == |e1| + |e2| + |e3|;
    assert e3 != [] ==> (e1 + e2 + e3)[|e1| + |e2|] == e3[0];
    e1 + e2 + e3
  }

  /** `body('password').trim().notEmpty().isLength({ min: 8 }).matches(...)`. The pattern
      alone decides acceptance: it already asks for eight characters. */
  function PasswordErrors(password: Option<string>): (e: seq<ValidationError>)
    ensures e == [] <==> MatchesPasswordPattern(Trim(Field(password)))
    ensures forall k :: 0 <= k < |e| ==> e[k].path == "password"
    ensures |Trim(Field(password))| < 8 ==> ValidationError("password", PasswordRuleMessage) in e
  {
    PasswordRules(Trim(Field(password)))
  }

  /** `body('role').optional().notEmpty().isIn(AvailableUserRole)`: no sanitiser, and an
      absent role is not checked at all. */
  function RoleErrors(role: Option<string>): (e: seq<ValidationError>)
    ensures e == [] <==> role.None? || role.value in AvailableUserRole
    ensures role == Some("") ==> e == [ValidationError("role", "Role is required"), ValidationError("role", "Role is invalid")]
    ensures forall k :: 0 <= k < |e| ==> e[k].path == "role"
  {
    if role.None? then []
    else
      assert "" !in AvailableUserRole;
      Check(role.value != "", "role", "Role is required") + Check(role.value in AvailableUserRole, "role", "Role is invalid")
  }

  datatype RegisterBody = RegisterBody(email: Option<string>, username: Option<string>,
                                       password: Option<string>, role: Option<string>)

  /** The position of a field's chain in `userRegisterValidator()`. */
  function ChainRank(path: string): nat
  {
    if path == "email" then 0
    else if path == "username" then 1
    else if path == "password" then 2
    else 3
  }

  /** `userRegisterValidator()`: the errors of the four chains. Every error is on one of
      the four fields, and they come field by field in chain order. */
  function RegisterErrors(isEmail: string -> bool, body: RegisterBody): (e: seq<ValidationError>)
    ensures forall k :: 0 <= k < |e| ==> e[k].path in {"email", "username", "password", "role"}
    ensures forall i, j :: 0 <= i < j < |e| ==> ChainRank(e[i].path) <= ChainRank(e[j].path)
  {
    var e1 := EmailErrors(isEmail, body.email);
    var e2 := UsernameErrors(body.username);
    var e3 := PasswordErrors(body.password);
    var e4 := RoleErrors(body.role);
    ChainsInOrder(e1, e2, e3, e4);
    e1 + e2 + e3 + e4
  }

  /** Four blocks of errors, each on one field, concatenated in chain order. */
  lemma ChainsInOrder(e1: seq<ValidationError>, e2: seq<ValidationError>,
                      e3: seq<ValidationError>, e4: seq<ValidationError>)
    requires forall k :: 0 <= k < |e1| ==> e1[k].path == "email"
    requires forall k :: 0 <= k < |e2| ==> e2[k].path == "username"
    requires forall k :: 0 <= k < |e3| ==> e3[k].path == "password"
    requires forall k :: 0 <= k < |e4| ==> e4[k].path == "role"
    ensures var e := e1 + e2 + e3 + e4;
      && (forall k :: 0 <= k < |e| ==> e[k].path in {"email", "username", "password", "role"})
      && (forall i, j :: 0 <= i < j < |e| ==> ChainRank(e[i].path) <= ChainRank(e[j].path))
  {
    var e := e1 + e2 + e3 + e4;
    forall k | 0 <= k < |e|
      ensures ChainRank(e[k].path) == Block(k, |e1|, |e2|, |e3|)
      ensures e[k].path in {"email", "username", "password", "role"}
    {
      if k < |e1| { assert e[k] == e1[k]; }
      else if k < |e1| + |e2| { assert e[k] == e2[k - |e1|]; }
      else if k < |e1| + |e2| + |e3| { assert e[k] == e3[k - |e1| - |e2|]; }
      else { assert e[k] == e4[k - |e1| - |e2| - |e3|]; }
    }
  }

  /** Which of four consecutive blocks of lengths `n1`, `n2`, `n3` and the rest holds `k`. */
  function Block(k: nat, n1: nat, n2: nat, n3: nat): (b: nat)
    ensures b <= 3
  {
    if k < n1 then 0 else if k < n1 + n2 then 1 else if k < n1 + n2 + n3 then 2 else 3
  }

  /** The body the controller receives: the `trim()` sanitisers rewrite the three
      trimmed fields in place; the role is passed on as sent. */
  function SanitizedRegisterBody(body: RegisterBody): (b: RegisterBody)
    ensures b.email.Some? && IsTrimOf(b.email.value, Field(body.email))
    ensures b.username.Some? && IsTrimOf(b.username.value, Field(body.username))
    ensures b.password.Some? && IsTrimOf(b.password.value, Field(body.password))
    ensures b.role == body.role
  {
    RegisterBody(Some(Trim(Field(body.email))), Some(Trim(Field(body.username))),
                 Some(Trim(Field(body.password))), body.role)
  }

  /** A registration passes validation exactly when the trimmed email is a non-empty
      valid address, the trimmed username is at least five characters long by
      `isLength` and has no capital letter, the trimmed password matches the pattern,
      and the role is absent or one of the available roles. */
  lemma RegisterAcceptedIff(isEmail: string -> bool, body: RegisterBody)
    ensures RegisterErrors(isEmail, body) == [] <==>
      && Trim(Field(body.email)) != "" && isEmail(Trim(Field(body.email)))
      && ValidatorLength(Trim(Field(body.username))) >= 5 && IsLowercase(Trim(Field(body.username)))
      && MatchesPasswordPattern(Trim(Field(body.password)))
      && (body.role.None? || body.role.value in AvailableUserRole)
  {
    var e1 := EmailErrors(isEmail, body.email);
    var e2 := UsernameErrors(body.username);
    var e3 := PasswordErrors(body.password);
    var e4 := RoleErrors(body.role);
    assert RegisterErrors(isEmail, body) == e1 + e2 + e3 + e4;
    assert |e1 + e2 + e3 + e4| == |e1| + |e2| + |e3| + |e4|;
    assert e1 == [] <==> Trim(Field(body.email)) != "" && isEmail(Trim(Field(body.email)));
    assert e2 == [] <==> ValidatorLength(Trim(Field(body.username))) >= 5 && IsLowercase(Trim(Field(body.username)));
    assert e3 == [] <==> MatchesPasswordPattern(Trim(Field(body.password)));
    assert e4 == [] <==> body.role.None? || body.role.value in AvailableUserRole;
  }

  /** What the controller receives from a registration that passed validation meets the
      same rules: the sanitised email, username and password are the checked values. */
  lemma AcceptedRegistrationIsSanitized(isEmail: string -> bool, body: RegisterBody)
    requires RegisterErrors(isEmail, body) == []
    ensures var b := SanitizedRegisterBody(body);
      && b.email.Some? && b.email.value != "" && isEmail(b.email.value)
      && b.username.Some? && ValidatorLength(b.username.value) >= 5 && IsLowercase(b.username.value)
      && b.password.Some? && MatchesPasswordPattern(b.password.value)
      && (b.role.None? || b.role.value in AvailableUserRole)
  {
    RegisterAcceptedIff(isEmail, body);
  }

  /** A missing username yields both its "required" and its length message: the chain
      does not stop at the first failure. */
  lemma MissingUsernameReportsTwice(isEmail: string -> bool, body: RegisterBody)
    requires body.username.None?
    ensures ValidationError("username", "Username is required") in RegisterErrors(isEmail, body)
    ensures ValidationError("username", "Usernmae must have at least 5 characters") in RegisterErrors(isEmail, body)
  {
    assert Trim(Field(body.username)) == "";
    var e := RegisterErrors(isEmail, body);
    var e1 := EmailErrors(isEmail, body.email);
    var e2 := UsernameErrors(body.username);
    var e3 := PasswordErrors(body.password);
    var e4 := RoleErrors(body.role);
    assert e == e1 + e2 + e3 + e4;
    assert e[|e1|] == e2[0] && e[|e1| + 1] == e2[1];
  }

  /** `userForgotPasswordValidator()`: no sanitiser, so white space counts. */
  function ForgotPasswordErrors(isEmail: string -> bool, email: Option<string>): (e: seq<ValidationError>)
    ensures e == [] <==> Field(email) != "" && isEmail(Field(email))
    ensures email.None? ==> ValidationError("email", "Email is required") in e
  {
    Check(Field(email) != "", "email", "Email is required") + Check(isEmail(Field(email)), "email", "Email is invalid")
  }

  /** `userChangeCurrentPasswordValidator()`: both passwords must be non-empty. */
  function ChangePasswordErrors(oldPassword: Option<string>, newPassword: Option<string>): (e: seq<ValidationError>)
    ensures e == [] <==> Field(oldPassword) != "" && Field(newPassword) != ""
    ensures |e| <= 2
    ensures forall k :: 0 <= k < |e| ==> e[k].path in {"oldPassword", "newPassword"}
  {
    Check(Field(oldPassword) != "", "oldPassword", "Old password is required")
    + Check(Field(newPassword) != "", "newPassword", "New password is required")
  }

  /** `userResetForgotPasswordValidator()`: the new password must be non-empty. */
  function ResetPasswordErrors(newPassword: Option<string>): (e: seq<ValidationError>)
    ensures e == [] <==> Field(newPassword) != ""
    ensures e != [] ==> e == [ValidationError("newPassword", "Password is required")]
  {
    Check(Field(newPassword) != "", "newPassword", "Password is required")
  }
}
