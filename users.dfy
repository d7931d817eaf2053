/** The `User` collection: the documents, the projection that strips secrets,
    the `findOne` queries the handlers issue, and the store object they mutate. */
module Users {
  import opened Common

  /** A user document with every field the handlers read or write.
      `refreshToken` is "" while no session is stored. */
  datatype User = User(
    id: UserId,
    username: string,
    email: string,
    password: string,
    isEmailVerified: bool,
    emailVerificationToken: Option<string>,
    emailVerificationExpiry: Option<int>,
    refreshToken: string)

  /** What `.select("-password -refreshToken -emailVerificationToken
      -emailVerificationExpiry")` leaves of a user. */
  datatype PublicUser = PublicUser(id: UserId, username: string, email: string, isEmailVerified: bool)

  function Sanitize(u: User): (p: PublicUser)
    ensures p.id == u.id && p.username == u.username && p.email == u.email
    ensures p.isEmailVerified == u.isEmailVerified
  {
    PublicUser(u.id, u.username, u.email, u.isEmailVerified)
  }

  /** Two documents that agree on their public fields project to the same value:
      the projection carries nothing of the password or the tokens. */
  lemma SanitizeHidesSecrets(u: User, v: User)
    requires u.id == v.id && u.username == v.username && u.email == v.email
    requires u.isEmailVerified == v.isEmailVerified
    ensures Sanitize(u) == Sanitize(v)
  {
  }

  /** The filters passed to `User.findOne`. */
  datatype Query =
    | ByUsernameOrEmail(username: string, email: string)   // { $or: [{ username }, { email }] }
    | ByEmail(email: string)
    | ByUsername(username: string)
    | ByVerificationToken(hash: string, now: int)           // token matches and expiry $gt now

  predicate Matches(u: User, q: Query)
  {
    match q
    case ByUsernameOrEmail(n, e) => u.username == n || u.email == e
    case ByEmail(e) => u.email == e
    case ByUsername(n) => u.username == n
    case ByVerificationToken(h, now) =>
      u.emailVerificationToken == Some(h) &&
      u.emailVerificationExpiry.Some? && u.emailVerificationExpiry.value > now
  }

  /** `findOne` over the ids in [from, to): the first matching document in id order. */
  function FindFrom(users: map<UserId, User>, q: Query, from: nat, to: nat): (r: Option<UserId>)
    decreases to - from
    ensures r.Some? ==> from <= r.value < to && r.value in users && Matches(users[r.value], q)
    ensures r.Some? ==> forall id :: from <= id < r.value && id in users ==> !Matches(users[id], q)
    ensures r.None? ==> forall id :: from <= id < to && id in users ==> !Matches(users[id], q)
  {
    if from >= to then None
    else if from in users && Matches(users[from], q) then Some(from)
    else FindFrom(users, q, from + 1, to)
  }

  /** Every document is stored under its own id, below the next id to hand out. */
  ghost predicate WellKeyed(users: map<UserId, User>, nextId: UserId)
  {
    forall id :: id in users ==> id < nextId && users[id].id == id
  }

  /** No two documents share a username or an email. */
  ghost predicate UniqueCredentials(users: map<UserId, User>)
  {
    forall a, b :: a in users && b in users && a != b ==>
      users[a].username != users[b].username && users[a].email != users[b].email
  }

  /** `findOne` over a whole collection. */
  function FindOne(users: map<UserId, User>, nextId: UserId, q: Query): (r: Option<UserId>)
    requires WellKeyed(users, nextId)
    ensures r.Some? ==> r.value in users && Matches(users[r.value], q)
    ensures r.None? <==> forall id :: id in users ==> !Matches(users[id], q)
  {
    FindFrom(users, q, 0, nextId)
  }

  /** With unique credentials, a lookup by username or by email finds the one
      document that carries it. */
  lemma FindOneByCredentialIsExact(users: map<UserId, User>, nextId: UserId, q: Query, id: UserId)
    requires WellKeyed(users, nextId) && UniqueCredentials(users)
    requires q.ByEmail? || q.ByUsername?
    requires id in users && Matches(users[id], q)
    ensures FindOne(users, nextId, q) == Some(id)
  {
  }

  /** The `User` model: the collection and the id generator. */
  class UserStore {
    var users: map<UserId, User>
    var nextId: UserId

    ghost predicate Valid()
      reads this
    {
      WellKeyed(users, nextId) && UniqueCredentials(users)
    }

    constructor ()
      ensures Valid() && users == map[] && nextId == 0
    {
      users := map[];
      nextId := 0;
    }
  }
}
