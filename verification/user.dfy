/** The user API adapter: the translation from the backend's user record to
    the frontend's, and the list call's mapping of the response. */
module User {
  import opened Wrappers

  /** The backend's roles `'admin'` and `'user'`; `Member` is `'user'`. */
  datatype Role = Admin | Member

  /** The backend's user record: the identifier is `_id`, and it carries an
      update time and a revision counter `__v`. */
  datatype BackendUser = BackendUser(
    _id: string, username: string, email: string, role: Role,
    createdAt: string, updatedAt: string, __v: int)

  /** The frontend's user record; `password` is only ever set on writes. */
  datatype User = User(
    id: string, username: string, email: string, role: Role,
    password: Option<string>, createdAt: string)

  datatype Pagination = Pagination(current: int, pageSize: int, total: int, totalPages: int)

  /** The list endpoint's payload, and the body that wraps it. */
  datatype UserListResponse = UserListResponse(data: seq<BackendUser>, pagination: Pagination)
  datatype UserListBody = UserListBody(data: UserListResponse)

  /** `transformUser`: `_id` becomes `id`; the update time and the revision
      are dropped; no password is set. */
  function TransformUser(b: BackendUser): (u: User)
    ensures u.id == b._id
    ensures u.username == b.username && u.email == b.email && u.role == b.role && u.createdAt == b.createdAt
    ensures u.password == None
  {
    User(b._id, b.username, b.email, b.role, None, b.createdAt)
  }

  /** Two backend records translate to the same user exactly when they differ
      at most in the fields the translation drops. */
  lemma TransformUserForgetsOnlyRevision(a: BackendUser, b: BackendUser)
    ensures TransformUser(a) == TransformUser(b) <==>
              a == BackendUser(b._id, b.username, b.email, b.role, b.createdAt, a.updatedAt, a.__v)
  {
  }

  /** `getUserList`: the users of the body's `data.data`, translated one by
      one, in the same order. */
  function GetUserList(body: UserListBody): (users: seq<User>)
    ensures |users| == |body.data.data|
    ensures forall i :: 0 <= i < |users| ==> users[i] == TransformUser(body.data.data[i])
  {
    seq(|body.data.data|, i requires 0 <= i < |body.data.data| => TransformUser(body.data.data[i]))
  }

  /** The list keeps the backend's identifiers in order, so distinct backend
      identifiers stay distinct. */
  lemma {:induction false} UserListKeepsIds(body: UserListBody)
    requires forall i, j :: 0 <= i < j < |body.data.data| ==> body.data.data[i]._id != body.data.data[j]._id
    ensures var users := GetUserList(body);
            forall i, j :: 0 <= i < j < |users| ==> users[i].id != users[j].id
  {
  }
}
