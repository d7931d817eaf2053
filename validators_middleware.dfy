/** middlewares/validators.middlewares.js: `validate`, which turns the recorded
    validation errors into a 422, and `validateProjectPermission(roles)`, the gate
    that resolves the caller's role in the project and checks it against `roles`. */
module ValidatorsMiddleware {
  import opened Common
  import opened Users
  import opened Http
  import opened ProjectControllers

  const InvalidData := " Received data is not valid"

  /** The `{ [err.path]: err.msg }` entries, one per error. */
  function Entries(errors: seq<ValidationError>): (e: seq<ErrorEntry>)
    ensures |e| == |errors|
    ensures forall i :: 0 <= i < |errors| ==> e[i] == ErrorEntry(errors[i].path, errors[i].msg)
  {
    seq(|errors|, i requires 0 <= i < |errors| => ErrorEntry(errors[i].path, errors[i].msg))
  }

  /** `validate`, given the errors `validationResult` returns: none calls `next()`;
      otherwise every error becomes one `{ [path]: msg }` entry, in order, of a 422. */
  method Validate(errors: seq<ValidationError>) returns (r: Outcome)
    ensures r == Next <==> |errors| == 0
    ensures r.Fail? ==>
      && r.error.status == 422
      && r.error.message == InvalidData
      && |r.error.errors| == |errors|
      && forall i :: 0 <= i < |errors| ==> r.error.errors[i] == ErrorEntry(errors[i].path, errors[i].msg)
    ensures r.Fail? ==> r.error == ApiError(422, InvalidData, Entries(errors))
  {
    if |errors| == 0 {
      return Next;
    }
    var extracted: seq<ErrorEntry> := [];
    var i := 0;
    while i < |errors|
      invariant 0 <= i <= |errors|
      invariant |extracted| == i
      invariant forall k :: 0 <= k < i ==> extracted[k] == ErrorEntry(errors[k].path, errors[k].msg)
    {
      extracted := extracted + [ErrorEntry(errors[i].path, errors[i].msg)];
      i := i + 1;
    }
    r := Fail(ApiError(422, InvalidData, extracted));
  }

  /** What `validationResult(res)` finds: the chains record their errors on the request,
      so the response object carries none. */
  function ResponseValidationErrors(): seq<ValidationError>
  {
    []
  }

  /** `validate` as written reads the errors of `res` and so always calls `next()`. */
  method ValidateAsWritten(req: Request) returns (r: Outcome)
    ensures r == Next
  {
    r := Validate(ResponseValidationErrors());
  }

  /** The divergence: a request whose body broke a rule passes `validate` as written and
      is refused with 422 by `validate` reading the request. */
  method ValidateDivergence(req: Request) returns (asWritten: Outcome, corrected: Outcome)
    requires |req.errors| > 0
    ensures asWritten == Next
    ensures corrected.Fail? && corrected.error.status == 422
  {
    asWritten := ValidateAsWritten(req);
    corrected := Validate(req.errors);
  }

  /** The four ways the permission gate can end. */
  datatype Decision = MissingProjectId | NoMembership | Denied(role: string) | Granted(role: string)

  /** The gate's decision for `userId` on `projectId` against the membership table. */
  function Decide(roles: seq<string>, projectId: Option<ProjectId>, userId: UserId,
                  members: map<(UserId, ProjectId), string>): (d: Decision)
    ensures d == MissingProjectId <==> projectId.None?
    ensures d == NoMembership <==> projectId.Some? && (userId, projectId.value) !in members
    ensures d.Denied? || d.Granted? ==>
      projectId.Some? && (userId, projectId.value) in members && d.role == members[(userId, projectId.value)]
    ensures d.Granted? <==>
      projectId.Some? && (userId, projectId.value) in members && members[(userId, projectId.value)] in roles
  {
    if projectId.None? then MissingProjectId
    else if (userId, projectId.value) !in members then NoMembership
    else
      var role := members[(userId, projectId.value)];
      if role in roles then Granted(role) else Denied(role)
  }

  const ProjectIdMissing := Error(400, "project id is missing")
  const ProjectMembershipNotFound := Error(400, "project not found")
  const PermissionDenied := Error(403, "You do not have permission to perform this action")

  function DecisionOutcome(d: Decision): (r: Outcome)
    ensures r == Next <==> d.Granted?
    ensures r.Fail? && r.error.status == 403 <==> d.Denied?
  {
    match d
    case MissingProjectId => Fail(ProjectIdMissing)
    case NoMembership => Fail(ProjectMembershipNotFound)
    case Denied(_) => Fail(PermissionDenied)
    case Granted(_) => Next
  }

  /** With the default `roles = []` the gate lets no one through. */
  lemma DefaultRolesRejectEveryone(projectId: Option<ProjectId>, userId: UserId,
                                   members: map<(UserId, ProjectId), string>)
    ensures DecisionOutcome(Decide([], projectId, userId, members)).Fail?
  {
  }

  /** A member passes an ADMIN-only gate exactly when their project role is ADMIN. */
  lemma AdminGateAdmitsOnlyAdmins(projectId: ProjectId, userId: UserId, members: map<(UserId, ProjectId), string>)
    requires (userId, projectId) in members
    ensures DecisionOutcome(Decide([ADMIN], Some(projectId), userId, members)) == Next <==>
      members[(userId, projectId)] == ADMIN
    ensures members[(userId, projectId)] != ADMIN ==>
      DecisionOutcome(Decide([ADMIN], Some(projectId), userId, members)) == Fail(PermissionDenied)
  {
  }

  /** `validateProjectPermission(roles)`, the handler the factory is meant to return.
      It needs `req.user` from `verifyJwt`; without it reading `req.user._id` throws.
      `req.user.role` is written before the role check, so a 403 also leaves it set. */
  method ValidateProjectPermission(req: Request, roles: seq<string>, store: ProjectStore) returns (r: Outcome)
    modifies req
    ensures req.user == old(req.user)
    ensures req.projectId.None? ==> r == Fail(ProjectIdMissing) && req.role == old(req.role)
    ensures req.projectId.Some? && req.user.None? ==> r == Fail(InternalError) && req.role == old(req.role)
    ensures req.projectId.Some? && req.user.Some? ==>
      var d := Decide(roles, req.projectId, req.user.value.id, store.members);
      && r == DecisionOutcome(d)
      && req.role == (if d.Denied? || d.Granted? then Some(d.role) else old(req.role))
  {
    if req.projectId.None? {
      r := Fail(ProjectIdMissing);
      return;
    }
    if req.user.None? {
      r := Fail(InternalError);
      return;
    }
    var key := (req.user.value.id, req.projectId.value);
    if key !in store.members {
      r := Fail(ProjectMembershipNotFound);
      return;
    }
    var givenRole := store.members[key];
    req.role := Some(givenRole);
    if givenRole !in roles {
      r := Fail(PermissionDenied);
      return;
    }
    r := Next;
  }
}
