/** `UserResponseDto`: a whitelist projection. Every field of a record is
    excluded unless the class exposes it, and the user listing maps the
    projection over the collection. Records are modelled as maps from field
    names to values, which is how the projection sees them. */
module UserDto {

  import opened UserStore

  datatype Value = Str(s: string) | Date(seconds: int) | Num(n: int)

  type Document = map<string, Value>

  /** The fields marked exposed; `createdAt` and `updatedAt` are not. */
  const ExposedFields: set<string> := {"_id", "userId", "email", "username"}

  /** A saved user as a plain object: its fields, the timestamps and the
      store's version key `__v`, which is 0 after the first save. */
  function ToDocument(u: User): (d: Document)
    ensures "password" in d && d["password"] == Str(u.password)
    ensures d.Keys == ExposedFields + {"password", "createdAt", "updatedAt", "__v"}
  {
    map[
      "_id" := Str(u.objectId),
      "userId" := Str(u.userId),
      "email" := Str(u.email),
      "username" := Str(u.username),
      "password" := Str(u.password),
      "createdAt" := Date(u.createdAt),
      "updatedAt" := Date(u.updatedAt),
      "__v" := Num(0)]
  }

  /** `plainToInstance(UserResponseDto, d, { excludeExtraneousValues: true })`. */
  function Project(d: Document): (v: Document)
    ensures forall k :: k in v <==> k in d && k in ExposedFields
    ensures forall k :: k in v ==> v[k] == d[k]
  {
    map k | k in d && k in ExposedFields :: d[k]
  }

  /** The projection applied to a list, element by element. */
  function ProjectAll(ds: seq<Document>): (vs: seq<Document>)
    ensures |vs| == |ds|
    ensures forall i :: 0 <= i < |ds| ==> vs[i] == Project(ds[i])
  {
    if ds == [] then [] else [Project(ds[0])] + ProjectAll(ds[1..])
  }

  /** `UserController.findAll`: the whole collection, projected. */
  function ListUsers(users: seq<User>): (vs: seq<Document>)
    ensures |vs| == |users|
    ensures forall i :: 0 <= i < |users| ==> vs[i] == Project(ToDocument(users[i]))
  {
    ProjectAll(seq(|users|, i requires 0 <= i < |users| => ToDocument(users[i])))
  }

  /** A projected record holds no password and no timestamps, and nothing
      outside the whitelist. */
  lemma ProjectionHidesSecrets(d: Document)
    ensures "password" !in Project(d)
    ensures "createdAt" !in Project(d) && "updatedAt" !in Project(d)
    ensures Project(d).Keys <= ExposedFields
  {
  }

  /** Projecting twice is projecting once. */
  lemma ProjectIdempotent(d: Document)
    ensures Project(Project(d)) == Project(d)
  {
  }

  /** The view of a stored user: exactly its four exposed fields. */
  lemma UserView(u: User)
    ensures Project(ToDocument(u)) ==
      map["_id" := Str(u.objectId), "userId" := Str(u.userId), "email" := Str(u.email), "username" := Str(u.username)]
  {
  }

  /** The user listing has one entry per stored user, in store order, and
      none of them carries a password. */
  lemma ListingHidesPasswords(users: seq<User>)
    ensures |ListUsers(users)| == |users|
    ensures forall i :: 0 <= i < |users| ==>
      "password" !in ListUsers(users)[i] && ListUsers(users)[i]["username"] == Str(users[i].username)
  {
  }
}
