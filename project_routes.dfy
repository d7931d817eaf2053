/** routes/project.routes.js: which middlewares run, in which order, in front of
    each project handler, and what a request meets on its way through them. */
module ProjectRoutes {
  import opened Common
  import opened Http
  import opened ValidatorsMiddleware

  datatype Route =
    | ListProjects    // GET    /
    | CreateProject   // POST   /
    | GetProject      // GET    /:projectId
    | UpdateProject   // PUT    /:projectId
    | DeleteProject   // DELETE /:projectId
    | ListMembers     // GET    /:projectId/members
    | AddMember       // POST   /:projectId/members
    | UpdateMember    // PUT    /:projectId/members/:userId
    | DeleteMember    // DELETE /:projectId/members/:userId

  datatype Stage =
    | PermissionGate(roles: seq<string>)   // validateProjectPermission(roles)
    | BodyRules(chain: string)             // an express-validator chain
    | ValidateBody                         // validate
    | Handler(name: string)

  /** The middleware chain the router registers for each route. Every chain ends in its
      one handler; a permission gate, when present, comes first and alone; and `validate`
      directly follows the body rules it checks. */
  function Pipeline(r: Route): (p: seq<Stage>)
    ensures |p| >= 1 && p[|p| - 1].Handler?
    ensures forall k :: 0 <= k < |p| - 1 ==> !p[k].Handler?
    ensures forall k :: 1 <= k < |p| ==> !p[k].PermissionGate?
    ensures forall k :: 0 <= k < |p| && p[k].ValidateBody? ==> 0 < k && p[k - 1].BodyRules?
    ensures forall k :: 0 <= k < |p| && p[k].BodyRules? ==> k + 1 < |p| && p[k + 1].ValidateBody?
  {
    match r
    case ListProjects => [Handler("getProjects")]
    case CreateProject => [BodyRules("createProjectValidator"), ValidateBody, Handler("createProjects")]
    case GetProject => [PermissionGate(AvailableUserRole), Handler("getProjectById")]
    case UpdateProject =>
      [PermissionGate([ADMIN]), BodyRules("createProjectValidator"), ValidateBody, Handler("updateProjects")]
    case DeleteProject => [PermissionGate([ADMIN]), Handler("deleteProjects")]
    case ListMembers => [Handler("getProjectMembers")]
    case AddMember =>
      [PermissionGate([ADMIN]), BodyRules("addMembertoProjectValidator"), ValidateBody, Handler("addMembersToProject")]
    case UpdateMember => [PermissionGate([ADMIN]), Handler("updateMemberRole")]
    case DeleteMember => [PermissionGate([ADMIN]), Handler("deleteMember")]
  }

  /** The role set a route is gated with, if any: the roles of its first stage when
      that is the gate, and none exactly when the chain has no gate at all. */
  function RequiredRoles(r: Route): (roles: Option<seq<string>>)
    ensures roles.Some? <==> exists k :: 0 <= k < |Pipeline(r)| && Pipeline(r)[k].PermissionGate?
    ensures roles.Some? ==> Pipeline(r)[0] == PermissionGate(roles.value)
  {
    if Pipeline(r)[0].PermissionGate? then Some(Pipeline(r)[0].roles) else None
  }

  /** The policy table: reading a project is open to every role, changing it or its
      members needs ADMIN, and listing projects, creating one and listing members are
      not gated. */
  lemma RoutePolicy()
    ensures RequiredRoles(GetProject) == Some(AvailableUserRole)
    ensures forall r :: r in {UpdateProject, DeleteProject, AddMember, UpdateMember, DeleteMember} ==>
      RequiredRoles(r) == Some([ADMIN])
    ensures forall r :: r in {ListProjects, CreateProject, ListMembers} ==> RequiredRoles(r) == None
  {
  }

  /** What the router sees of one request. The caller is already authenticated as
      `userId`; `bodyErrors` are the errors the route's body rules would record. */
  datatype Env = Env(projectId: Option<ProjectId>, userId: UserId,
                     members: map<(UserId, ProjectId), string>, bodyErrors: seq<ValidationError>)

  datatype Dispatch = Rejected(error: ApiError) | Reached(handler: string, role: Option<string>)

  /** Run a chain: the gate decides, the body rules record, `validate` rejects recorded
      errors, the handler is reached with the role the gate attached. */
  function Run(p: seq<Stage>, env: Env, role: Option<string>, recorded: seq<ValidationError>): (d: Dispatch)
    decreases |p|
    ensures d.Reached? ==> exists k :: 0 <= k < |p| && p[k] == Handler(d.handler)
    ensures d.Reached? && (forall k :: 0 <= k < |p| ==> !p[k].PermissionGate?) ==> d.role == role
    ensures d.Rejected? && d.error.status == 422 ==> exists k :: 0 <= k < |p| && p[k].ValidateBody?
  {
    if p == [] then Rejected(Error(404, "Not Found"))
    else
      match p[0]
      case PermissionGate(roles) =>
        var d := Decide(roles, env.projectId, env.userId, env.members);
        if d.Granted? then Run(p[1..], env, Some(d.role), recorded) else Rejected(DecisionOutcome(d).error)
      case BodyRules(_) => Run(p[1..], env, role, recorded + env.bodyErrors)
      case ValidateBody =>
        if recorded == [] then Run(p[1..], env, role, recorded)
        else Rejected(ApiError(422, InvalidData, Entries(recorded)))
      case Handler(name) => Reached(name, role)
  }

  /** A request on route `r`, as the router hands it down the chain. The handler it
      reaches, if any, is that route's own; on an ungated route it carries no role. */
  function RouteRequest(r: Route, env: Env): (d: Dispatch)
    ensures d.Reached? ==> Pipeline(r)[|Pipeline(r)| - 1] == Handler(d.handler)
    ensures d.Reached? && RequiredRoles(r).None? ==> d.role == None
  {
    Run(Pipeline(r), env, None, [])
  }

  /** On a gated route a caller the gate refuses is refused with the gate's error,
      whatever the body: the gate runs before validation and before the handler. */
  lemma GateRejectsBeforeValidation(r: Route, env: Env)
    requires RequiredRoles(r).Some?
    requires !Decide(RequiredRoles(r).value, env.projectId, env.userId, env.members).Granted?
    ensures RouteRequest(r, env) ==
      Rejected(DecisionOutcome(Decide(RequiredRoles(r).value, env.projectId, env.userId, env.members)).error)
  {
  }

  /** A handler behind a gate is reached only with the caller's project role attached,
      and only when that role is in the route's role set. */
  lemma ReachedHandlerHoldsAllowedRole(r: Route, env: Env)
    requires RequiredRoles(r).Some? && RouteRequest(r, env).Reached?
    ensures env.projectId.Some? && (env.userId, env.projectId.value) in env.members
    ensures RouteRequest(r, env).role == Some(env.members[(env.userId, env.projectId.value)])
    ensures env.members[(env.userId, env.projectId.value)] in RequiredRoles(r).value
  {
    var roles := RequiredRoles(r).value;
    var d := Decide(roles, env.projectId, env.userId, env.members);
    if !d.Granted? {
      GateRejectsBeforeValidation(r, env);
    }
  }

  /** A member whose project role is not ADMIN never reaches a handler that changes the
      project or its members; they get 403 Forbidden. */
  lemma NonAdminCannotChangeProject(r: Route, env: Env)
    requires r in {UpdateProject, DeleteProject, AddMember, UpdateMember, DeleteMember}
    requires env.projectId.Some? && (env.userId, env.projectId.value) in env.members
    requires env.members[(env.userId, env.projectId.value)] != ADMIN
    ensures RouteRequest(r, env) == Rejected(PermissionDenied)
  {
    GateRejectsBeforeValidation(r, env);
  }

  /** The same request from an ADMIN member with a valid body reaches the handler. */
  lemma AdminReachesHandler(r: Route, env: Env)
    requires r in {UpdateProject, DeleteProject, AddMember, UpdateMember, DeleteMember}
    requires env.projectId.Some? && (env.userId, env.projectId.value) in env.members
    requires env.members[(env.userId, env.projectId.value)] == ADMIN
    requires env.bodyErrors == []
    ensures RouteRequest(r, env).Reached? && RouteRequest(r, env).role == Some(ADMIN)
  {
    var p := Pipeline(r);
    var role := Some(ADMIN);
    assert Decide([ADMIN], env.projectId, env.userId, env.members) == Granted(ADMIN);
    assert RouteRequest(r, env) == Run(p[1..], env, role, []);
    if r in {UpdateProject, AddMember} {
      assert Run(p[1..], env, role, []) == Run(p[2..], env, role, []);
      assert Run(p[2..], env, role, []) == Run(p[3..], env, role, []);
      assert Run(p[3..], env, role, []) == Reached(p[3].name, role);
    } else {
      assert Run(p[1..], env, role, []) == Reached(p[1].name, role);
    }
  }

  /** `validateProjectPermission(roles)` as written: the arrow function's block body
      builds the handler and returns nothing, so the router is handed `undefined`. */
  function ValidateProjectPermissionAsWritten(roles: seq<string>): (h: Option<Stage>)
    ensures h.None?
  {
    None
  }

  /** The chains as the router receives them from the source as written. */
  function AsWritten(p: seq<Stage>): (q: seq<Option<Stage>>)
    ensures |q| == |p|
    ensures forall k :: 0 <= k < |p| ==> (q[k].None? <==> p[k].PermissionGate?)
  {
    if p == [] then []
    else
      var head := if p[0].PermissionGate? then ValidateProjectPermissionAsWritten(p[0].roles) else Some(p[0]);
      [head] + AsWritten(p[1..])
  }

  /** Express refuses to register a route one of whose handlers is `undefined`. */
  predicate RouterAccepts(q: seq<Option<Stage>>)
  {
    forall k :: 0 <= k < |q| ==> q[k].Some?
  }

  /** The divergence: every gated route is refused at start-up as written, while the
      corrected chains (the gate factory returning its handler) are all accepted. */
  lemma GatedRoutesRefusedAsWritten(r: Route)
    ensures RequiredRoles(r).Some? ==> !RouterAccepts(AsWritten(Pipeline(r)))
    ensures RouterAccepts(seq(|Pipeline(r)|, k requires 0 <= k < |Pipeline(r)| => Some(Pipeline(r)[k])))
  {
    if RequiredRoles(r).Some? {
      assert AsWritten(Pipeline(r))[0].None?;
    }
  }
}
