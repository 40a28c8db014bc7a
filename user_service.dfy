/** The credential store: the `User` schema and the `UserService` that
    creates users (check, hash, insert) and looks them up by exact match. */
module UserStore {

  import opened Wrappers

  /** A persisted user document. `objectId` is the store's own `_id`,
      `userId` the uuid default of the schema; `createdAt`/`updatedAt` are
      the schema's timestamps (seconds). */
  datatype User = User(
    objectId: string,
    userId: string,
    email: string,
    username: string,
    password: string,
    createdAt: int,
    updatedAt: int)

  /** The password-hashing primitive (bcrypt's `hash(data, saltRounds)`),
      passed in and never interpreted. */
  type Hasher = (string, nat) -> string

  /** One recorded invocation of the hashing primitive. */
  datatype HashCall = HashCall(data: string, rounds: nat)

  datatype UserError =
    | Conflict(message: string)
    /** the schema's `required` validator rejected the listed paths on save */
    | ValidationFailed(paths: set<string>)

  /** The work factor `create` passes to the hashing primitive. */
  const SaltRounds: nat := 10

  const ConflictMessage: string := "Username already exists"

  /** The query documents the service hands to the store's `findOne`. */
  datatype Filter =
    | ByUsername(username: string)
    | ByCredentials(username: string, password: string)

  predicate Matches(f: Filter, u: User) {
    match f
    case ByUsername(name) => u.username == name
    case ByCredentials(name, pw) => u.username == name && u.password == pw
  }

  /** The store's `findOne(filter)`: the first record, in collection order,
      that matches every field of the filter, or nothing. */
  function FindFirst(users: seq<User>, f: Filter): (r: Option<User>)
    ensures r.Some? ==>
      exists i :: 0 <= i < |users| && users[i] == r.value && Matches(f, r.value) &&
        forall j :: 0 <= j < i ==> !Matches(f, users[j])
    ensures r.None? <==> forall i :: 0 <= i < |users| ==> !Matches(f, users[i])
  {
    if users == [] then None
    else if Matches(f, users[0]) then Some(users[0])
    else
      var rest := FindFirst(users[1..], f);
      assert forall i :: 1 <= i < |users| ==> users[i] == users[1..][i - 1];
      rest
  }

  ghost predicate UniqueUsernames(users: seq<User>) {
    forall i, j :: 0 <= i < j < |users| ==> users[i].username != users[j].username
  }

  ghost predicate UniqueUserIds(users: seq<User>) {
    forall i, j :: 0 <= i < j < |users| ==> users[i].userId != users[j].userId
  }

  function UserIds(users: seq<User>): (ids: set<string>)
    ensures forall i :: 0 <= i < |users| ==> users[i].userId in ids
  {
    set u | u in users :: u.userId
  }

  function ObjectIds(users: seq<User>): (ids: set<string>)
    ensures forall i :: 0 <= i < |users| ==> users[i].objectId in ids
  {
    set u | u in users :: u.objectId
  }

  /** With unique usernames, looking a username up finds exactly the one
      record that carries it. */
  lemma LookupFindsTheHolder(users: seq<User>, i: nat)
    requires UniqueUsernames(users)
    requires i < |users|
    ensures FindFirst(users, ByUsername(users[i].username)) == Some(users[i])
  {
  }

  /** Longest length among a finite set of strings. */
  ghost function MaxLength(ids: set<string>): (m: nat)
    ensures forall s :: s in ids ==> |s| <= m
    decreases ids
  {
    if ids == {} then 0
    else
      var s :| s in ids;
      var m := MaxLength(ids - {s});
      if |s| > m then |s| else m
  }

  /** A finite set of identifiers never exhausts the strings: a random
      generator can always produce one not yet taken. */
  lemma FreshIdExists(ids: set<string>)
    ensures exists id :: id !in ids
  {
    var id := seq(MaxLength(ids) + 1, _ => 'x');
    assert id !in ids;
  }

  /** The service over the user collection. `users` is the collection in
      insertion order; `hashLog` records every call of the hashing
      primitive, as the unit tests' spy on `bcrypt.hash` does. */
  class UserService {
    var users: seq<User>
    ghost var hashLog: seq<HashCall>

    constructor (initial: seq<User>)
      ensures users == initial && hashLog == []
    {
      users := initial;
      hashLog := [];
    }

    /** `findbyUsername`: exact match on the username. */
    function FindbyUsername(username: string): (r: Option<User>)
      reads this
      ensures r.Some? ==> r.value in users && r.value.username == username
      ensures r.None? <==> forall i :: 0 <= i < |users| ==> users[i].username != username
    {
      FindFirst(users, ByUsername(username))
    }

    /** `findOne(username, password)`: exact match on both fields, the
      password compared with the stored value as it is. */
    function FindOne(username: string, password: string): (r: Option<User>)
      reads this
      ensures r.Some? ==> r.value in users && r.value.username == username && r.value.password == password
      ensures r.None? <==>
        forall i :: 0 <= i < |users| ==> !(users[i].username == username && users[i].password == password)
    {
      FindFirst(users, ByCredentials(username, password))
    }

    /** `findAll`: every record, in collection order. */
    function FindAll(): (r: seq<User>)
      reads this
      ensures |r| == |users| && forall i :: 0 <= i < |r| ==> r[i] == users[i]
    {
      users
    }

    /** `create`: reject a taken username; otherwise hash the password with
      10 salt rounds, build the document (fresh uuid and `_id`, both
      timestamps `now`) and save it, where the schema demands a non-empty
      `email` and `password`. */
    method Create(email: string, username: string, password: string, hash: Hasher, now: int)
      returns (r: Result<User, UserError>)
      modifies this
      ensures old(FindbyUsername(username)).Some? ==>
        r == Failure(Conflict(ConflictMessage)) && hashLog == old(hashLog)
      ensures old(FindbyUsername(username)).None? ==>
        hashLog == old(hashLog) + [HashCall(password, SaltRounds)]
      ensures r.Success? <==>
        old(FindbyUsername(username)).None? && email != "" && hash(password, SaltRounds) != ""
      ensures old(FindbyUsername(username)).None? && !r.Success? ==>
        r == Failure(ValidationFailed(
          (if email == "" then {"email"} else {}) +
          (if hash(password, SaltRounds) == "" then {"password"} else {})))
      ensures r.Failure? ==> users == old(users)
      ensures r.Success? ==>
        && users == old(users) + [r.value]
        && r.value.email == email
        && r.value.username == username
        && r.value.password == hash(password, SaltRounds)
        && r.value.userId !in UserIds(old(users))
        && r.value.objectId !in ObjectIds(old(users))
        && r.value.createdAt == now && r.value.updatedAt == now
      ensures UniqueUsernames(old(users)) ==> UniqueUsernames(users)
      ensures UniqueUserIds(old(users)) ==> UniqueUserIds(users)
    {
      var checkUserName := FindbyUsername(username);
      if checkUserName.Some? {
        return Failure(Conflict(ConflictMessage));
      }

      var hashedPassword := hash(password, SaltRounds);
      hashLog := hashLog + [HashCall(password, SaltRounds)];

      FreshIdExists(UserIds(users));
      var userId: string :| userId !in UserIds(users);
      FreshIdExists(ObjectIds(users));
      var objectId: string :| objectId !in ObjectIds(users);
      var newUser := User(objectId, userId, email, username, hashedPassword, now, now);

      var missing := (if email == "" then {"email"} else {}) +
                     (if hashedPassword == "" then {"password"} else {});
      if missing != {} {
        return Failure(ValidationFailed(missing));
      }
      assert forall i :: 0 <= i < |users| ==> users[i] in users;
      users := users + [newUser];
      r := Success(newUser);
    }
  }
}
