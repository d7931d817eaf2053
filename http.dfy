/** The parts of an Express request the middlewares read and write. */
module Http {
  import opened Common
  import opened Users

  /** One error an express-validator chain recorded: the field path and its message. */
  datatype ValidationError = ValidationError(path: string, msg: string)

  class Request {
    /** `req.cookies?.accessToken` */
    const accessTokenCookie: Option<string>
    /** `req.header('Authorization')` */
    const authorization: Option<string>
    /** `req.params.projectId` */
    const projectId: Option<ProjectId>
    /** The errors the validator chains of the route recorded on this request. */
    const errors: seq<ValidationError>
    /** `req.user`, attached by `verifyJwt`. */
    var user: Option<PublicUser>
    /** `req.user.role`, attached by the project-permission gate. */
    var role: Option<string>

    constructor (accessTokenCookie: Option<string>, authorization: Option<string>,
                 projectId: Option<ProjectId>, errors: seq<ValidationError>)
      ensures this.accessTokenCookie == accessTokenCookie && this.authorization == authorization
      ensures this.projectId == projectId && this.errors == errors
      ensures user == None && role == None
    {
      this.accessTokenCookie := accessTokenCookie;
      this.authorization := authorization;
      this.projectId := projectId;
      this.errors := errors;
      user := None;
      role := None;
    }
  }
}
