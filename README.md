# Project manager backend: accounts and project authorization

This is a Dafny model of the account and authorization bookkeeping in the
`project-manager` Express/Mongoose backend. It covers these parts:

- The `User` collection and its account state machine (`controllers/auth.controllers.js`,
  `utils/helper.js`):
  - registration refuses a taken username or email;
  - a new account is unverified and holds a verification digest and expiry;
  - login picks the lookup field with `isEmailId`;
  - token generation stores the refresh token;
  - logout blanks it;
  - e-mail verification consumes the token exactly once.
- The request gates:
  - `verifyJwt` extracts and checks the access token (`middlewares/auth.midlewares.js`);
  - `validate` turns recorded validation errors into a 422;
  - `validateProjectPermission(roles)` resolves the caller's role in the project
    (`middlewares/validators.middlewares.js`).
- The `Project` collection and the `ProjectMember` table, which maps a (user, project)
  pair to a project-scoped role (`controllers/project.controllers.js`).
- The route table of `routes/project.routes.js`: which gate and which role set sit in
  front of each handler, and in which order the stages run.
- The express-validator chains of `validators/index.js` for registration,
  forgot-password, change-password and reset-password bodies. This includes the
  password pattern, read as a character-class predicate.

## How the model is built

- Collections become maps keyed by id, held in the fields of the classes `UserStore` and
  `ProjectStore`. Each handler is a module-level method that takes the store and
  reassigns those fields, as the handlers update documents in place.
- `findOne` is the first matching document in id order.
- `ProjectMember` is keyed by the (user, project) pair. This is what makes the upsert
  keep one row per pair.
- The request is a class: its `user` and `role` are written by the middlewares.
- Calls into code outside the model are parameters of the operations:
  - the password comparison;
  - SHA-256;
  - `jwt.verify` together with reading `_id`;
  - validator.js's `isEmail`;
  - the tokens produced by `generateTemporaryToken`, `generateAccessToken` and
    `generateRefreshToken`;
  - the clock (`now`).
- An exception the handler does not catch becomes `InternalError`, a 500.

The role names `admin`, `project_admin` and `member` stand for `UserRolesEnum` and
`AvailableUserRole`. `utils/constant.js` is not part of this model, so only the fact that
there are three distinct roles, one of them ADMIN, matters to the proofs.
`models/user.models.js` and the mailer are not part of this model either.

### Where the source is followed as intended

Several calls in the source cannot run as written. Where the intent is evident, the
model follows it:

- `loginUser` calls the static `User.isPasswordValid(password)`
  (controllers/auth.controllers.js:82). The model checks the candidate against the
  found user's own stored password.
- `genrateAccessAndRefreshToken` calls the static `User.generateAccessToken()` and
  `User.generateRefreshToken()` (utils/helper.js:12-13). The model takes the tokens to
  be the user's own.
- `verifyEmail` saves with the static `User.save` (controllers/auth.controllers.js:192).
  The model saves the found document.
- The username chain writes `.notEmpty.withMessage(...)` and `.islowercase()`
  (validators/index.js:15, 18). Both throw when the chain is built. The model runs
  `notEmpty` and `isLowercase` with their messages.
- `validators.middlewares.js` uses `asyncHandler`, `ProjectMember` and `mongoose`
  without importing them. The model treats them as imported.
- `project.routes.js` imports `createProjectValidator` and
  `addMembertoProjectValidator`, which `validators/index.js` does not export. Their
  rules are not part of this model. The router model takes the errors they would
  record as an input.
- `createProjects`, `addMembersToProject`, `updateMemberRole` and `deleteMember` build
  ids with `new mongoose.ObjectId(...)` (backend/src/controllers/project.controllers.js:144,
  152-153, 216-221, 252-253, 282-283). That is Mongoose's schema-type class, not
  `mongoose.Types.ObjectId`, so the member filters are plausibly not ObjectIds and the
  query fails before the upsert, update or delete. The model uses the intended ids.
- `getProjectById` answers with `res.status(200).json(200, project, ...)`
  (backend/src/controllers/project.controllers.js:79). `res.json` is given three
  arguments, so in every Express version the body sent is the number `200`. The model
  returns the found project, as intended.
- The gate answers 400 when the caller has no membership row. The code does this,
  and the model follows the code.

The six divergences that the model states in Dafny are listed under Findings.

## Model

| member | source | states |
|---|---|---|
| Users.Sanitize | backend/src/controllers/auth.controllers.js:43-45 | the `.select` projection keeps the id, username, email and verified flag unchanged |
| Users.SanitizeHidesSecrets | backend/src/controllers/auth.controllers.js:43-45 | the projection returned by register and login depends only on id, username, email and the verified flag, never on the password, refresh token or verification fields |
| Users.FindFrom | backend/src/controllers/auth.controllers.js:12-14 | a range scan finds the first matching document in id order, and None means that no document in the range matches |
| Users.FindOne | backend/src/controllers/auth.controllers.js:12-14 | `findOne` returns a matching document, and returns none exactly when no document matches |
| Users.FindOneByCredentialIsExact | backend/src/controllers/auth.controllers.js:72-76 | with unique usernames and emails, a lookup by email or username finds the one document carrying it |
| AuthControllers.RegisterUser | backend/src/controllers/auth.controllers.js:10-45 | a clash on username or email gives 409 and leaves the store unchanged; otherwise exactly one new unverified user is added, holding the digest and expiry of the temporary token and no refresh token, and the answer is that user without secrets; uniqueness of credentials is preserved |
| AuthControllers.LoginQuery | backend/src/controllers/auth.controllers.js:72-76 | the lookup is by email, on the login id, exactly when `isEmailId(loginId)` holds, and otherwise it is by username on the login id |
| AuthControllers.LoginUser | backend/src/controllers/auth.controllers.js:63-94 | an empty login id or password gives 400 before any lookup; no match gives 400 "User is not registered"; a wrong password gives 400 "Invalid credentials", both without changes; success stores the issued refresh token on that user alone and returns it with the sanitized user, whose password matched and whose email or username is the login id |
| AuthControllers.LogoutUser | backend/src/controllers/auth.controllers.js:118-129 | the caller's refresh token becomes empty; every other field and every other user is unchanged |
| AuthControllers.MarkVerified | backend/src/controllers/auth.controllers.js:187-190 | a verified document has the flag set and both token fields cleared, and keeps its id, username, email, password and refresh token |
| AuthControllers.VerifyEmailStep | backend/src/controllers/auth.controllers.js:160-192 | verification succeeds exactly when the token is non-empty and some user holds its digest with an expiry strictly after `now`; a failure is 400 and changes nothing; a success clears both token fields of one such user and sets its verified flag |
| AuthControllers.VerifyEmailSingleUse | backend/src/controllers/auth.controllers.js:175-190 | once a token has verified the only user holding its digest, the same token fails with 400 at any later time |
| AuthControllers.VerifyEmailAcceptsIssuedToken | backend/src/controllers/auth.controllers.js:27-30 | the token mailed at registration verifies its user before expiry, and it verifies that user when no other user holds the digest |
| AuthControllers.VerifyEmailRejectsAtExpiry | backend/src/controllers/auth.controllers.js:177 | the expiry comparison is strict: at the expiry instant the token is refused |
| AuthControllers.VerifyEmail | backend/src/controllers/auth.controllers.js:160-204 | the handler's answer and new collection are those of `VerifyEmailStep`, and the store's invariant is preserved |
| AuthControllers.VerifyEmailStepAsWritten | backend/src/controllers/auth.controllers.js:161-173 | as written, digesting the parameter object throws: every call is a 500 and changes nothing |
| AuthControllers.VerifyEmailAsWrittenRefusesIssuedToken | backend/src/controllers/auth.controllers.js:161-173 | a valid, unexpired mailed token is accepted by the corrected handler and refused by the handler as written |
| AuthControllers.RegisterUserAsWritten | backend/src/controllers/auth.controllers.js:10-41 | as written, a clash still gives 409 with no change, but a fresh registration stores the unverified user with its token digest and expiry and then answers 500, because `emailVerificationMailgenContent` is not imported |
| AuthControllers.RegisterUserAsWrittenLocksOut | backend/src/controllers/auth.controllers.js:16-41 | as written, a fresh registration answers 500, and the same registration sent again answers 409 |
| AuthControllers.RegisterThenVerify | backend/src/controllers/auth.controllers.js:10-204 | registering a fresh user and presenting the issued token before expiry leaves that user verified with its token cleared |
| Helper.IndexOf | backend/src/utils/helper.js:5 | the first occurrence of a character, or none when it does not occur |
| Helper.LastIndexOf | backend/src/utils/helper.js:5 | the last occurrence of a character, or none when it does not occur |
| Helper.IsEmailId | backend/src/utils/helper.js:4-7 | the classifier, splitting at the first '@' and the last '.' after it; an accepted id contains '@' and has at least six characters (its full meaning is `IsEmailIdMatchesPattern`) |
| Helper.IsEmailIdSound | backend/src/utils/helper.js:4-7 | every string the classifier accepts has the form local@domain.tld, with local over `[a-zA-Z0-9._%+-]`, domain over `[a-zA-Z0-9.-]`, both non-empty, and tld of at least two ASCII letters |
| Helper.IsEmailIdComplete | backend/src/utils/helper.js:4-7 | every string of that form is accepted |
| Helper.IsEmailIdMatchesPattern | backend/src/utils/helper.js:5-6 | `isEmailId` holds if and only if the string matches the regular expression |
| Helper.EmailIdHasOneAt | backend/src/utils/helper.js:5 | a string classified as an email contains exactly one '@' |
| Helper.NoAtMeansUsername | backend/src/utils/helper.js:5 | a string without '@' is never classified as an email, so login looks it up as a username |
| Helper.GenerateAccessAndRefreshToken | backend/src/utils/helper.js:9-21 | an unknown user gives 500 and changes nothing; otherwise the new refresh token replaces any previous one on that user, the stored token equals the returned one, and nothing else changes |
| AuthMiddleware.FirstOccurrenceFrom | backend/src/middlewares/auth.midlewares.js:9 | the first position at or after a start where a pattern occurs, or none |
| AuthMiddleware.ReplaceFirst | backend/src/middlewares/auth.midlewares.js:9 | `replace` with a string pattern rewrites only the first occurrence, and leaves the string alone when the pattern does not occur |
| AuthMiddleware.ExtractToken | backend/src/middlewares/auth.midlewares.js:7-13 | a non-empty cookie is the token; otherwise the Authorization header with its first "Bearer " removed; an empty result means no token |
| AuthMiddleware.BearerHeaderYieldsToken | backend/src/middlewares/auth.midlewares.js:7-9 | without a cookie, a "Bearer t" header yields exactly t |
| AuthMiddleware.CookieTakesPrecedence | backend/src/middlewares/auth.midlewares.js:7-9 | a non-empty cookie wins over any header |
| AuthMiddleware.VerifyJwt | backend/src/middlewares/auth.midlewares.js:6-31 | no token gives 401 "Unauthorized access"; a token that fails verification or names no stored user gives 401 "Invalid access token"; failures leave `req.user` unset; success attaches the stored user without secrets |
| ValidatorsMiddleware.Entries | backend/src/middlewares/validators.middlewares.js:10-15 | one `{path: msg}` entry per recorded error, in the same order |
| ValidatorsMiddleware.Validate | backend/src/middlewares/validators.middlewares.js:4-18 | no errors calls `next`; n errors give a 422 with exactly n `{path: msg}` entries in the original order |
| ValidatorsMiddleware.ValidateAsWritten | backend/src/middlewares/validators.middlewares.js:5 | as written, the errors are read from the response, so every request passes |
| ValidatorsMiddleware.ValidateDivergence | backend/src/middlewares/validators.middlewares.js:5 | a request with recorded errors passes as written and gets 422 from the corrected middleware |
| ValidatorsMiddleware.Decide | backend/src/middlewares/validators.middlewares.js:20-50 | the gate's four outcomes: no project id; no membership row; a role not in `roles`; a role in `roles`, granted exactly when the caller's row holds a listed role |
| ValidatorsMiddleware.DecisionOutcome | backend/src/middlewares/validators.middlewares.js:24-48 | the gate calls `next` exactly when granted, and answers 403 exactly when the role is refused |
| ValidatorsMiddleware.DefaultRolesRejectEveryone | backend/src/middlewares/validators.middlewares.js:20 | with the default `roles = []` no caller passes |
| ValidatorsMiddleware.AdminGateAdmitsOnlyAdmins | backend/src/middlewares/validators.middlewares.js:41-46 | a member passes an ADMIN-only gate exactly when their project role is ADMIN, and gets 403 otherwise |
| ValidatorsMiddleware.ValidateProjectPermission | backend/src/middlewares/validators.middlewares.js:20-50 | a missing project id gives 400 first; otherwise the answer is the decision's outcome; the project role is written to the request before the role check, so it is set even on 403 |
| ProjectControllers.CreateProjects | backend/src/controllers/project.controllers.js:138-160 | a new project under a fresh id, created by the caller, with a membership row making the caller ADMIN |
| ProjectControllers.CreateProjectsAsWritten | backend/src/controllers/project.controllers.js:141 | as written, `new Project.create(...)` throws: every call is a 500 |
| ProjectControllers.CreateProjectsDivergence | backend/src/controllers/project.controllers.js:141-155 | the corrected handler creates the project and the ADMIN row where the handler as written answers 500 |
| ProjectControllers.GetProjectById | backend/src/controllers/project.controllers.js:70-80 | an existing project is returned; an unknown one gives 404 "Project not found" |
| ProjectControllers.GetProjectByIdAsWritten | backend/src/controllers/project.controllers.js:73 | as written, the project id is looked up among membership documents, so every call gives 404 |
| ProjectControllers.GetProjectByIdDivergence | backend/src/controllers/project.controllers.js:73-77 | an existing project is found by the corrected handler and reported missing as written |
| ProjectControllers.UpdateProjects | backend/src/controllers/project.controllers.js:162-184 | an unknown project gives 404 and changes nothing; otherwise only that project changes: a name or description sent replaces the stored one, one left out of the body stays as it was |
| ProjectControllers.DeleteProjects | backend/src/controllers/project.controllers.js:186-202 | a missing id or an unknown project gives 404 and changes nothing; otherwise exactly that project is removed and the membership table is untouched |
| ProjectControllers.AddMembersToProject | backend/src/controllers/project.controllers.js:204-240 | an unknown email gives 404 and leaves the table unchanged; otherwise only the (user, project) row is upserted: with the role sent, or, when the body has no role, keeping an existing row unchanged and giving a new row the schema's default role |
| ProjectControllers.AddMembersTwice | backend/src/controllers/project.controllers.js:214-229 | repeating the upsert with the same body gives the same answer and the same table as doing it once |
| ProjectControllers.UpdateMemberRole | backend/src/controllers/project.controllers.js:242-276 | a role outside `AvailableUserRole` gives 400 and a missing row gives 400, both without changes; otherwise only that row's role changes |
| ProjectControllers.DeleteMember | backend/src/controllers/project.controllers.js:278-295 | exactly the (user, project) row is removed, or 404 when it is absent; other rows are untouched |
| ProjectRoutes.Pipeline | backend/src/routes/project.routes.js:24-53 | the chain registered for each route: it ends in its one handler, a permission gate comes first and alone when present, and `validate` directly follows the body rules |
| ProjectRoutes.RequiredRoles | backend/src/routes/project.routes.js:24-53 | a route's role set is that of its first stage when that is the gate, and a route has none exactly when its chain has no gate |
| ProjectRoutes.Run | backend/src/routes/project.routes.js:24-53 | running a chain reaches only a handler of that chain; without a gate the role is left as it was; a 422 comes only from a chain with `validate` |
| ProjectRoutes.RouteRequest | backend/src/routes/project.routes.js:24-53 | a request reaches, if anything, its own route's handler, and on an ungated route it carries no project role |
| ProjectRoutes.RoutePolicy | backend/src/routes/project.routes.js:26-53 | GET /:projectId is open to every available role; PUT and DELETE /:projectId and the member POST, PUT and DELETE routes need ADMIN; GET /, POST / and GET /:projectId/members are not gated |
| ProjectRoutes.GateRejectsBeforeValidation | backend/src/routes/project.routes.js:31-53 | on a gated route a caller the gate refuses gets the gate's error whatever the body, because the gate runs before validation and the handler |
| ProjectRoutes.ReachedHandlerHoldsAllowedRole | backend/src/routes/project.routes.js:31-53 | a gated handler is reached only by a member whose project role is in the route's role set, with that role attached |
| ProjectRoutes.NonAdminCannotChangeProject | backend/src/routes/project.routes.js:32-53 | a member who is not ADMIN gets 403 on every route that changes a project or its members |
| ProjectRoutes.AdminReachesHandler | backend/src/routes/project.routes.js:32-53 | an ADMIN member with a valid body reaches the handler of each of those routes |
| ProjectRoutes.ValidateProjectPermissionAsWritten | backend/src/middlewares/validators.middlewares.js:20-21 | as written, the gate factory returns nothing |
| ProjectRoutes.AsWritten | backend/src/routes/project.routes.js:31-53 | as written, the router receives `undefined` exactly where a chain has a permission gate |
| ProjectRoutes.GatedRoutesRefusedAsWritten | backend/src/routes/project.routes.js:31-53 | every gated route is refused by the router as written, and every corrected chain is accepted |
| Validators.TrimStart | backend/src/validators/index.js:7 | the result is a suffix of the input, the removed prefix is all white space, and the result does not start with white space |
| Validators.TrimEnd | backend/src/validators/index.js:7 | the result is a prefix of the input, the removed suffix is all white space, and the result does not end with white space |
| Validators.Trim | backend/src/validators/index.js:7 | the result is a slice of the input with only white space before and after it and none at its own ends, that is, the input without its leading and trailing white space; it is empty exactly when the input is all white space |
| Validators.IsTrimOfUnique | backend/src/validators/index.js:7 | a string has exactly one such trimmed form |
| Validators.TrimIdempotent | backend/src/validators/index.js:7 | trimming twice is trimming once |
| Validators.ValidatorLength | backend/src/validators/index.js:16 | the length `isLength` compares: the number of code points minus the number of variation selectors U+FE0E and U+FE0F, so equal to the code-point count exactly when there is no selector |
| Validators.PatternPasswordIsLongEnough | backend/src/validators/index.js:25-29 | a password the pattern accepts also passes `isLength({ min: 8 })` |
| Validators.ScanFrom | backend/src/validators/index.js:27-29 | one pass finds a lowercase letter, an uppercase letter, a digit and a special character exactly when one occurs, and reports whether every character is allowed |
| Validators.PasswordPatternIsExact | backend/src/validators/index.js:27-29 | the one-pass test accepts exactly the strings the password pattern describes |
| Validators.Check | backend/src/validators/index.js:8-9 | a validator records nothing when it passes, and exactly its own message when it fails |
| Validators.EmailErrors | backend/src/validators/index.js:6-11 | the email is accepted exactly when, trimmed, it is non-empty and a valid email; all errors are on `email` |
| Validators.UsernameErrors | backend/src/validators/index.js:13-19 | the username is accepted exactly when, trimmed, it is at least 5 long by `isLength` and has no capital letter; an empty one gets both the required and the length message |
| Validators.PasswordErrors | backend/src/validators/index.js:21-32 | the password is accepted exactly when, trimmed, it matches the pattern; a short one always carries the pattern message |
| Validators.RoleErrors | backend/src/validators/index.js:34-39 | the role is accepted exactly when absent or one of `AvailableUserRole`; an empty role gets both messages |
| Validators.RegisterErrors | backend/src/validators/index.js:4-41 | every registration error is on email, username, password or role, and they come field by field in chain order |
| Validators.SanitizedRegisterBody | backend/src/validators/index.js:6-34 | the body handed on holds the email, username and password as sent without their leading and trailing white space, and the role as sent |
| Validators.RegisterAcceptedIff | backend/src/validators/index.js:4-41 | a registration passes exactly when all four field rules hold |
| Validators.AcceptedRegistrationIsSanitized | backend/src/validators/index.js:4-41 | after a registration passes, the sanitized body the controller receives meets the same four rules: a non-empty valid email, a lowercase username of `isLength` at least 5, a password matching the pattern, and an absent or available role |
| Validators.MissingUsernameReportsTwice | backend/src/validators/index.js:13-17 | a missing username records both "Username is required" and the length message, because a chain does not stop at its first failure |
| Validators.ForgotPasswordErrors | backend/src/validators/index.js:73-81 | the forgot-password email is accepted exactly when it is non-empty, untrimmed, and valid; an absent one is "Email is required" |
| Validators.ChangePasswordErrors | backend/src/validators/index.js:83-88 | a password change is accepted exactly when both the old and the new password are non-empty |
| Validators.ResetPasswordErrors | backend/src/validators/index.js:90-92 | a reset is accepted exactly when the new password is non-empty, and otherwise gets the single message "Password is required" |

## Left out

- `getProjects` and `getProjectMembers` (backend/src/controllers/project.controllers.js:11-68, 82-136) are Mongo aggregation pipelines. They are query-engine semantics and are not modelled.
- `getCurrentUser` (backend/src/controllers/auth.controllers.js:148-158) only echoes `req.user`, which `AuthMiddleware.VerifyJwt` describes.
- `resendEmailVerification`, `refreshAccessToken`, `forgotPasswordRequest`, `changeCurrentPassword` and `resetForgotPassword` (backend/src/controllers/auth.controllers.js:206-224) have empty bodies.
- The `validateProjectPermission` of backend/src/middlewares/auth.midlewares.js:33 is an empty handler that never calls `next`. It is not mounted by the project router.
- `userLoginValidator` (backend/src/validators/index.js:43-71) uses an undefined `usernameRegex` and tests a Promise for truth, so it has no well-defined behaviour.
- Sending the verification mail is not modelled: no member takes or sends it. As written the mail is never built (see Findings); `RegisterUser` is the intended handler, which would send it.
- The following are foreign calls and appear only as parameters or inputs:
  - SHA-256;
  - JWT signing and verification;
  - password hashing and comparison;
  - `generateTemporaryToken`;
  - validator.js's `isEmail`.
- Cookies, response bodies, `asyncHandler` promise plumbing and HTTP status plumbing beyond the error itself are not modelled.
- Body fields are strings. Only `UpdateProjects` and `AddMembersToProject` take a field that may be absent (`name`, `description`, `role`), and the validators read an absent field as empty. An absent field elsewhere is not modelled, nor is express-validator's treatment of numbers, arrays and objects.
- AddMembersToProject: the default role of the `ProjectMember` schema is a parameter, since that schema is not part of this model.
- Ids are naturals. ObjectId casting errors on malformed ids are not modelled.
- Mounting `verifyJwt` in front of the project router is not part of the files modelled. `ProjectRoutes` assumes an authenticated caller.
- AuthControllers.LogoutUser assumes an authenticated caller. backend/src/routes/auth.routes.js:30-31 mounts `/profile` and `/logout` without `verifyJwt`, which that file never imports, so as routed `req.user` is undefined and `logoutUser` answers 500 (backend/src/controllers/auth.controllers.js:119-120). That route wiring is not part of this model.
- The schema defaults and enums of `models/user.models.js` are not modelled. This includes a global user role: `registerUser` reads `role` but never stores it.
- The 500 of `registerUser` when the re-read user is missing (backend/src/controllers/auth.controllers.js:47-49) cannot happen in the model, since the user was just stored.
- Each handler is modelled as one atomic step. In the source the check and the write are separate `await`s: check-then-create in `registerUser` (backend/src/controllers/auth.controllers.js:12-25) and find-then-save in `verifyEmail` (175-192). Two concurrent registrations, or two concurrent verifications, can both pass the check. The uniqueness of usernames and emails under concurrent registration rests on the schema's unique indexes, which are not modelled. `UserStore.Valid` and `AuthControllers.VerifyEmailSingleUse` hold for requests handled one at a time.
- Validators.IsLowercase: only the letters A to Z count as capitals. Other cased letters that `toLowerCase` would change are not modelled.
- backend/src/controllers/healthcheck.controllers.js reads the database state and the clock. It is not modelled.
- backend/src/routes/auth.routes.js is wiring only and is not modelled.
- backend/src/models/taks.models.js is a schema with no operations and is not modelled.

## Findings

| source | as written | input that shows it | evidently intended | confidence | as-written member | corrected member |
|---|---|---|---|---|---|---|
| backend/src/controllers/auth.controllers.js:161 | the token is `req.params`, an object, and `crypto...update(object)` throws | any verification link, e.g. `/verify-email/abc` for a user holding sha256("abc") before expiry | digest `req.params.verificationToken` | high, not executed | AuthControllers.VerifyEmailAsWrittenRefusesIssuedToken | AuthControllers.VerifyEmail |
| backend/src/middlewares/validators.middlewares.js:5 | `validationResult(res)` reads the response, which carries no errors | a registration body with an empty email passes `validate` | `validationResult(req)` | high, not executed | ValidatorsMiddleware.ValidateDivergence | ValidatorsMiddleware.Validate |
| backend/src/middlewares/validators.middlewares.js:21 | the factory's block body does not return the handler | every gated route, e.g. `GET /:projectId`, is registered with `undefined` | `return asyncHandler(...)` | high, not executed | ProjectRoutes.GatedRoutesRefusedAsWritten | ProjectRoutes.ReachedHandlerHoldsAllowedRole |
| backend/src/controllers/project.controllers.js:141 | `new Project.create(...)` applies `new` to an async method and throws | any `POST /` with a name and description | `await Project.create(...)` | high, not executed | ProjectControllers.CreateProjectsDivergence | ProjectControllers.CreateProjects |
| backend/src/controllers/auth.controllers.js:37 | `emailVerificationMailgenContent` is never imported (line 5 imports only `sendEmail`), so building the mail throws after the user and token are saved | any fresh registration: it answers 500, and sending it again answers 409 | import it from the mailer | high, not executed | AuthControllers.RegisterUserAsWrittenLocksOut | AuthControllers.RegisterUser |
| backend/src/controllers/project.controllers.js:73 | `ProjectMember.findById(projectId)` looks for a membership document with the project's id | `GET /:projectId` for an existing project | `Project.findById(projectId)` | medium, not executed | ProjectControllers.GetProjectByIdDivergence | ProjectControllers.GetProjectById |
