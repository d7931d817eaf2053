/** controllers/project.controllers.js: the `Project` collection and the
    `ProjectMember` table that maps a (user, project) pair to a project-scoped role. */
module ProjectControllers {
  import opened Common
  import opened Users

  datatype Project = Project(id: ProjectId, name: string, description: string, createdBy: UserId)

  /** A `ProjectMember` document. */
  datatype Member = Member(user: UserId, project: ProjectId, role: string)

  /** The `Project` and `ProjectMember` models. Keying the members by the
      (user, project) pair is what makes a pair hold at most one role. */
  class ProjectStore {
    var projects: map<ProjectId, Project>
    var members: map<(UserId, ProjectId), string>
    var nextProjectId: ProjectId

    ghost predicate Valid()
      reads this
    {
      forall p :: p in projects ==> p < nextProjectId && projects[p].id == p
    }

    constructor ()
      ensures Valid() && projects == map[] && members == map[] && nextProjectId == 0
    {
      projects := map[];
      members := map[];
      nextProjectId := 0;
    }
  }

  const ProjectNotFound := Error(404, "Project not found")
  const UpdateProjectNotFound := Error(404, "Update: Project not found")
  const DeleteProjectIdMissing := Error(404, "Delete: Project Id not found")
  const DeleteProjectNotFound := Error(404, "Delete: Project not found")
  const UserDoesNotExist := Error(404, "User does not exist.")
  const InvalidRole := Error(400, "Invalid Role")
  const MemberNotFoundOnUpdate := Error(400, "Project member not found")
  const MemberNotFoundOnDelete := Error(404, "Project member not found")

  /** `createProjects`: a new project created by the caller, who becomes its ADMIN. */
  method CreateProjects(store: ProjectStore, creator: UserId, name: string, description: string)
    returns (r: Result<Project>)
    requires store.Valid()
    modifies store
    ensures store.Valid()
    ensures var id := old(store.nextProjectId);
      && id !in old(store.projects)
      && r == Ok(Project(id, name, description, creator))
      && store.projects == old(store.projects)[id := r.value]
      && store.members == old(store.members)[(creator, id) := ADMIN]
  {
    var project := Project(store.nextProjectId, name, description, creator);
    store.projects := store.projects[project.id := project];
    store.nextProjectId := store.nextProjectId + 1;
    store.members := store.members[(creator, project.id) := ADMIN];
    r := Ok(project);
  }

  /** `createProjects` as written: `new Project.create({...})` applies `new` to the
      asynchronous `create`, which is no constructor, so the handler throws before
      anything is stored. */
  function CreateProjectsAsWritten(): (r: Result<Project>)
    ensures r.Err? && r.error.status == 500
  {
    Err(InternalError)
  }

  /** The divergence: on the same store the corrected handler creates the project and
      the handler as written answers 500. */
  method CreateProjectsDivergence(store: ProjectStore, creator: UserId, name: string, description: string)
    returns (asWritten: Result<Project>, corrected: Result<Project>)
    requires store.Valid()
    modifies store
    ensures asWritten.Err? && asWritten.error.status == 500
    ensures corrected.Ok? && (creator, corrected.value.id) in store.members
    ensures store.members[(creator, corrected.value.id)] == ADMIN
  {
    asWritten := CreateProjectsAsWritten();
    corrected := CreateProjects(store, creator, name, description);
  }

  /** `getProjectById`, reading the `Project` collection. */
  method GetProjectById(store: ProjectStore, projectId: ProjectId) returns (r: Result<Project>)
    ensures r.Ok? <==> projectId in store.projects
    ensures r.Ok? ==> r.value == store.projects[projectId]
    ensures r.Err? ==> r.error == ProjectNotFound
  {
    if projectId !in store.projects {
      r := Err(ProjectNotFound);
      return;
    }
    r := Ok(store.projects[projectId]);
  }

  /** `getProjectById` as written: `ProjectMember.findById(projectId)` looks for a
      membership document whose own id is the project id. Ids are unique across the
      database, so no membership document has it and the answer is always 404. */
  method GetProjectByIdAsWritten(store: ProjectStore, projectId: ProjectId) returns (r: Result<Member>)
    ensures r == Err(ProjectNotFound)
  {
    r := Err(ProjectNotFound);
  }

  /** The divergence: an existing project is found by the corrected handler and
      reported missing by the handler as written. */
  method GetProjectByIdDivergence(store: ProjectStore, projectId: ProjectId)
    returns (asWritten: Result<Member>, corrected: Result<Project>)
    requires projectId in store.projects
    ensures asWritten.Err? && asWritten.error.status == 404
    ensures corrected == Ok(store.projects[projectId])
  {
    asWritten := GetProjectByIdAsWritten(store, projectId);
    corrected := GetProjectById(store, projectId);
  }

  /** `updateProjects`: set the name and description of an existing project. A field
      the body leaves out arrives as `undefined`, which Mongoose drops from the update,
      so the stored value stays. */
  method UpdateProjects(store: ProjectStore, projectId: ProjectId, name: Option<string>, description: Option<string>)
    returns (r: Result<Project>)
    requires store.Valid()
    modifies store
    ensures store.Valid() && store.members == old(store.members) && store.nextProjectId == old(store.nextProjectId)
    ensures projectId !in old(store.projects) ==> r == Err(UpdateProjectNotFound) && store.projects == old(store.projects)
    ensures projectId in old(store.projects) ==>
      var p := old(store.projects)[projectId];
      && r.Ok? && store.projects == old(store.projects)[projectId := r.value]
      && r.value.id == p.id && r.value.createdBy == p.createdBy
      && r.value.name == (if name.Some? then name.value else p.name)
      && r.value.description == (if description.Some? then description.value else p.description)
  {
    if projectId !in store.projects {
      r := Err(UpdateProjectNotFound);
      return;
    }
    var project := store.projects[projectId];
    if name.Some? {
      project := project.(name := name.value);
    }
    if description.Some? {
      project := project.(description := description.value);
    }
    store.projects := store.projects[projectId := project];
    r := Ok(project);
  }

  /** `deleteProjects`: 404 for a missing id or an unknown project; otherwise the project
      document goes and its membership rows stay, as in the source. */
  method DeleteProjects(store: ProjectStore, projectId: Option<ProjectId>) returns (r: Result<Project>)
    requires store.Valid()
    modifies store
    ensures store.Valid() && store.members == old(store.members) && store.nextProjectId == old(store.nextProjectId)
    ensures projectId.None? ==> r == Err(DeleteProjectIdMissing) && store.projects == old(store.projects)
    ensures projectId.Some? && projectId.value !in old(store.projects) ==>
      r == Err(DeleteProjectNotFound) && store.projects == old(store.projects)
    ensures projectId.Some? && projectId.value in old(store.projects) ==>
      r == Ok(old(store.projects)[projectId.value]) && store.projects == old(store.projects) - {projectId.value}
  {
    if projectId.None? {
      r := Err(DeleteProjectIdMissing);
      return;
    }
    if projectId.value !in store.projects {
      r := Err(DeleteProjectNotFound);
      return;
    }
    r := Ok(store.projects[projectId.value]);
    store.projects := store.projects - {projectId.value};
  }

  /** `addMembersToProject`: find the user by email (404 if none), then upsert the
      (user, project) row. A role left out of the body is `undefined` and dropped from
      the update: an existing row keeps its role, and a new row gets the schema's
      default role (`setDefaultsOnInsert`), passed in as `defaultRole`. */
  method AddMembersToProject(store: ProjectStore, users: UserStore, projectId: ProjectId, email: string,
                             role: Option<string>, defaultRole: string)
    returns (r: Result<Member>)
    requires users.Valid()
    modifies store
    ensures store.projects == old(store.projects) && store.nextProjectId == old(store.nextProjectId)
    ensures FindOne(users.users, users.nextId, ByEmail(email)).None? ==>
      r == Err(UserDoesNotExist) && store.members == old(store.members)
    ensures FindOne(users.users, users.nextId, ByEmail(email)).Some? ==>
      var uid := FindOne(users.users, users.nextId, ByEmail(email)).value;
      && users.users[uid].email == email
      && r.Ok? && r.value.user == uid && r.value.project == projectId
      && store.members == old(store.members)[(uid, projectId) := r.value.role]
      && (role.Some? ==> r.value.role == role.value)
      && (role.None? && (uid, projectId) in old(store.members) ==>
            r.value.role == old(store.members)[(uid, projectId)] && store.members == old(store.members))
      && (role.None? && (uid, projectId) !in old(store.members) ==> r.value.role == defaultRole)
  {
    var user := FindOne(users.users, users.nextId, ByEmail(email));
    if user.None? {
      r := Err(UserDoesNotExist);
      return;
    }
    var key := (user.value, projectId);
    var stored: string;
    if role.Some? {
      stored := role.value;
    } else if key in store.members {
      stored := store.members[key];
    } else {
      stored := defaultRole;
    }
    store.members := store.members[key := stored];
    r := Ok(Member(user.value, projectId, stored));
  }

  /** Repeating the upsert with the same body changes nothing more. */
  method AddMembersTwice(store: ProjectStore, users: UserStore, projectId: ProjectId, email: string,
                         role: Option<string>, defaultRole: string)
    returns (first: Result<Member>, second: Result<Member>)
    requires users.Valid()
    modifies store
    ensures first == second
    ensures first.Ok? ==> store.members == old(store.members)[(first.value.user, projectId) := first.value.role]
    ensures first.Err? ==> store.members == old(store.members)
  {
    first := AddMembersToProject(store, users, projectId, email, role, defaultRole);
    ghost var once := store.members;
    second := AddMembersToProject(store, users, projectId, email, role, defaultRole);
    assert store.members == once;
  }

  /** `updateMemberRole`: the new role must be one of `AvailableUserRole` (400) and the
      row must exist (400); only that row's role changes. */
  method UpdateMemberRole(store: ProjectStore, projectId: ProjectId, userId: UserId, newRole: string)
    returns (r: Result<Member>)
    modifies store
    ensures store.projects == old(store.projects) && store.nextProjectId == old(store.nextProjectId)
    ensures newRole !in AvailableUserRole ==> r == Err(InvalidRole) && store.members == old(store.members)
    ensures newRole in AvailableUserRole && (userId, projectId) !in old(store.members) ==>
      r == Err(MemberNotFoundOnUpdate) && store.members == old(store.members)
    ensures newRole in AvailableUserRole && (userId, projectId) in old(store.members) ==>
      r == Ok(Member(userId, projectId, newRole)) &&
      store.members == old(store.members)[(userId, projectId) := newRole]
  {
    if newRole !in AvailableUserRole {
      r := Err(InvalidRole);
      return;
    }
    if (userId, projectId) !in store.members {
      r := Err(MemberNotFoundOnUpdate);
      return;
    }
    store.members := store.members[(userId, projectId) := newRole];
    r := Ok(Member(userId, projectId, newRole));
  }

  /** `deleteMember`: remove exactly the (user, project) row, or 404 when it is absent. */
  method DeleteMember(store: ProjectStore, projectId: ProjectId, userId: UserId) returns (r: Result<Member>)
    modifies store
    ensures store.projects == old(store.projects) && store.nextProjectId == old(store.nextProjectId)
    ensures (userId, projectId) !in old(store.members) ==>
      r == Err(MemberNotFoundOnDelete) && store.members == old(store.members)
    ensures (userId, projectId) in old(store.members) ==>
      r == Ok(Member(userId, projectId, old(store.members)[(userId, projectId)])) &&
      store.members == old(store.members) - {(userId, projectId)}
  {
    if (userId, projectId) !in store.members {
      r := Err(MemberNotFoundOnDelete);
      return;
    }
    r := Ok(Member(userId, projectId, store.members[(userId, projectId)]));
    store.members := store.members - {(userId, projectId)};
  }
}
