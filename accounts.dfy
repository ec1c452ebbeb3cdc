/**
 * The Teachers and Students collections with `/api/register` (validation,
 * ID allocation, uniqueness check, one insert) and `/api/login` (teachers
 * searched first, students second).
 */
module Accounts {
  import opened Wrappers
  import opened Js

  /** A Teachers or Students document. The text fields hold whatever the
      registration request carried (always truthy for registered users). */
  datatype User = User(id: int, firstName: Value, lastName: Value, username: Value, password: Value, email: Value)

  /** The registered user as the 201 reply shows it: everything but the password. */
  datatype PublicUser = PublicUser(id: int, firstName: Value, lastName: Value, username: Value, email: Value)

  datatype RegisterRequest = RegisterRequest(
    firstName: Value, lastName: Value, username: Value, password: Value, email: Value, isTeacher: Value)

  datatype RegisterBody = Created(user: PublicUser, message: string) | Failure(error: string)

  datatype RegisterReply = RegisterReply(status: int, body: RegisterBody)

  datatype LoginReply = LoginReply(status: int, id: Value, firstName: Value, lastName: Value, email: Value, error: string)

  /** One of the five text fields is missing or falsy. */
  predicate MissingField(req: RegisterRequest) {
    !Truthy(req.firstName) || !Truthy(req.lastName) || !Truthy(req.username)
    || !Truthy(req.password) || !Truthy(req.email)
  }

  /** The largest ID in a non-empty collection. */
  function MaxId(users: seq<User>): (m: int)
    requires users != []
    ensures forall i :: 0 <= i < |users| ==> users[i].id <= m
    ensures exists i :: 0 <= i < |users| && users[i].id == m
  {
    if |users| == 1 then users[0].id
    else
      var rest := MaxId(users[1..]);
      assert forall i :: 1 <= i < |users| ==> users[i] == users[1..][i - 1];
      if users[0].id >= rest then users[0].id else rest
  }

  /** The ID a new user of this collection gets: 1 for an empty collection,
      otherwise one more than the largest existing ID, so it is never taken. */
  function NextId(users: seq<User>): (id: int)
    ensures users == [] ==> id == 1
    ensures forall i :: 0 <= i < |users| ==> users[i].id < id
    ensures users != [] ==> exists i :: 0 <= i < |users| && users[i].id == id - 1
  {
    if users == [] then 1 else MaxId(users) + 1
  }

  /** The filter `{$or: [{username}, {email}]}` finds a document. */
  predicate Taken(users: seq<User>, username: Value, email: Value) {
    exists i :: 0 <= i < |users| && (users[i].username == username || users[i].email == email)
  }

  function UserType(isTeacher: bool): string {
    if isTeacher then "Teacher" else "Student"
  }

  function PublicView(u: User): PublicUser {
    PublicUser(u.id, u.firstName, u.lastName, u.username, u.email)
  }

  /** The filter `{username, password}`. */
  predicate Credentials(u: User, username: Value, password: Value) {
    u.username == username && u.password == password
  }

  /** `find({username, password}).toArray()`: the matching documents in collection order. */
  function Matching(users: seq<User>, username: Value, password: Value): (r: seq<User>)
    ensures |r| <= |users|
    ensures forall u :: u in r <==> u in users && Credentials(u, username, password)
  {
    if users == [] then []
    else if Credentials(users[0], username, password) then [users[0]] + Matching(users[1..], username, password)
      else Matching(users[1..], username, password)
  }

  /** One document in front: kept exactly when it has the credentials. */
  lemma MatchingCons(u: User, rest: seq<User>, username: Value, password: Value)
    ensures Matching([u] + rest, username, password)
         == (if Credentials(u, username, password) then [u] else []) + Matching(rest, username, password)
  {
    assert ([u] + rest)[1..] == rest;
  }

  /** Every matching document is returned as often as the collection holds
      it, and no other document is returned. */
  lemma {:induction false} MatchingCounts(users: seq<User>, username: Value, password: Value)
    ensures var r := Matching(users, username, password);
      forall u :: multiset(r)[u] == if Credentials(u, username, password) then multiset(users)[u] else 0
  {
    if users != [] {
      MatchingCounts(users[1..], username, password);
      assert users == [users[0]] + users[1..];
      MatchingCons(users[0], users[1..], username, password);
    }
  }

  /** The query result of two collections laid end to end is the result of
      the first followed by the result of the second: each document is kept
      or dropped on its own, in collection order. */
  lemma {:induction false} MatchingAppend(a: seq<User>, b: seq<User>, username: Value, password: Value)
    ensures Matching(a + b, username, password) == Matching(a, username, password) + Matching(b, username, password)
  {
    if a != [] {
      var head := if Credentials(a[0], username, password) then [a[0]] else [];
      assert a + b == [a[0]] + (a[1..] + b);
      MatchingCons(a[0], a[1..] + b, username, password);
      MatchingAppend(a[1..], b, username, password);
      assert a == [a[0]] + a[1..];
      MatchingCons(a[0], a[1..], username, password);
      assert head + (Matching(a[1..], username, password) + Matching(b, username, password))
          == (head + Matching(a[1..], username, password)) + Matching(b, username, password);
    } else {
      assert a + b == b;
    }
  }

  /** So the k-th document of the result is the k-th matching document:
      the one at position i, where i is preceded by exactly k matches. */
  lemma MatchingAt(users: seq<User>, username: Value, password: Value, i: nat)
    requires i < |users| && Credentials(users[i], username, password)
    ensures var k := |Matching(users[..i], username, password)|;
      k < |Matching(users, username, password)| && Matching(users, username, password)[k] == users[i]
  {
    assert users == users[..i] + ([users[i]] + users[i + 1..]);
    MatchingAppend(users[..i], [users[i]] + users[i + 1..], username, password);
    assert Matching([users[i]] + users[i + 1..], username, password)
        == [users[i]] + Matching(users[i + 1..], username, password) by {
      assert ([users[i]] + users[i + 1..])[1..] == users[i + 1..];
    }
  }

  /** The position of the first document the login filter matches. */
  function FirstWithCredentials(users: seq<User>, username: Value, password: Value): (k: Option<nat>)
    ensures k.Some? ==> k.value < |users| && Credentials(users[k.value], username, password)
    ensures k.Some? ==> forall j :: 0 <= j < k.value ==> !Credentials(users[j], username, password)
    ensures k.None? ==> NoCredentials(users, username, password)
  {
    if users == [] then None
    else if Credentials(users[0], username, password) then Some(0)
    else match FirstWithCredentials(users[1..], username, password)
      case None => None
      case Some(k) => Some(k + 1)
  }

  predicate NoCredentials(users: seq<User>, username: Value, password: Value) {
    forall i :: 0 <= i < |users| ==> !Credentials(users[i], username, password)
  }

  /** The result list is empty exactly when nothing matches, and its head is
      the first matching document of the collection. */
  lemma {:induction false} MatchingHead(users: seq<User>, username: Value, password: Value)
    ensures var r := Matching(users, username, password);
      && (r == [] <==> FirstWithCredentials(users, username, password).None?)
      && (r != [] ==> r[0] == users[FirstWithCredentials(users, username, password).value])
  {
    if users != [] && !Credentials(users[0], username, password) {
      MatchingHead(users[1..], username, password);
    }
  }

  /** A user document as JSON. */
  function UserDoc(u: User): Value {
    Obj(map["ID" := Num(u.id as real), "firstName" := u.firstName, "lastName" := u.lastName,
            "username" := u.username, "password" := u.password, "email" := u.email])
  }

  /** `results[k]` of the login handler's result list, as JSON. */
  function Element(results: seq<User>, k: nat): Value {
    if k < |results| then UserDoc(results[k]) else Undefined
  }

  /**
   * `/api/login` as written: the reply's id, firstName, lastName and email
   * are the 1st, 2nd, 3rd and 6th MATCHING DOCUMENTS, not fields of the
   * first one.
   */
  function LoginAsWritten(teachers: seq<User>, students: seq<User>, username: Value, password: Value): (reply: LoginReply)
    ensures reply.status == 200 && reply.error == ""
    ensures NoCredentials(teachers, username, password) && NoCredentials(students, username, password) ==>
      reply == LoginReply(200, Num(-1.0), Str(""), Str(""), Str(""), "")
  {
    MatchingHead(teachers, username, password);
    MatchingHead(students, username, password);
    var fromTeachers := Matching(teachers, username, password);
    var results := if |fromTeachers| == 0 then Matching(students, username, password) else fromTeachers;
    if |results| > 0 then
      LoginReply(200, Element(results, 0), Element(results, 1), Element(results, 2), Element(results, 5), "")
    else
      LoginReply(200, Num(-1.0), Str(""), Str(""), Str(""), "")
  }

  /** The discrepancy: a teacher with unique credentials gets back the whole
      document, password included, as `id`, and no first name, last name or email. */
  lemma LoginAsWrittenReturnsDocument(t: User, students: seq<User>)
    ensures var reply := LoginAsWritten([t], students, t.username, t.password);
      && reply.id.Obj? && "password" in reply.id.fields && reply.id.fields["password"] == t.password
      && reply.firstName == Undefined && reply.lastName == Undefined && reply.email == Undefined
  {
    assert Matching([t], t.username, t.password) == [t];
  }

  /** The Teachers and Students collections. */
  class UserStore {
    var teachers: seq<User>
    var students: seq<User>

    constructor (teachers0: seq<User>, students0: seq<User>)
      ensures teachers == teachers0 && students == students0
    {
      teachers, students := teachers0, students0;
    }

    /** The collection a registration for `isTeacher` goes to. */
    function Collection(isTeacher: bool): seq<User>
      reads this
    {
      if isTeacher then teachers else students
    }

    /**
     * `/api/register`. `storeFails` says whether the store is unreachable,
     * so that its first call throws. The type of `isTeacher` is checked
     * before anything else and before the store is touched; the ID is
     * allocated in the chosen collection; a username or email already in
     * that collection refuses the request.
     */
    method Register(req: RegisterRequest, storeFails: bool) returns (reply: RegisterReply)
      modifies this
      ensures !req.isTeacher.Bool? ==>
        reply == RegisterReply(400, Failure("isTeacher boolean field is required.")) && unchanged(this)
      ensures req.isTeacher.Bool? && MissingField(req) ==>
        reply == RegisterReply(400, Failure("Missing required fields (firstName, lastName, username, password, email)."))
        && unchanged(this)
      ensures req.isTeacher.Bool? && !MissingField(req) && storeFails ==>
        reply == RegisterReply(500, Failure("An internal server error occurred during registration."))
        && unchanged(this)
      ensures req.isTeacher.Bool? && !MissingField(req) && !storeFails
              && Taken(old(Collection(req.isTeacher.b)), req.username, req.email) ==>
        reply == RegisterReply(400, Failure(UserType(req.isTeacher.b) + " username or email already exists."))
        && unchanged(this)
      ensures reply.status == 201 <==>
        req.isTeacher.Bool? && !MissingField(req) && !storeFails
        && !Taken(old(Collection(req.isTeacher.b)), req.username, req.email)
      ensures reply.status == 201 ==>
        var isTeacher := req.isTeacher.b;
        var u := User(NextId(old(Collection(isTeacher))), req.firstName, req.lastName, req.username, req.password, req.email);
        && Collection(isTeacher) == old(Collection(isTeacher)) + [u]
        && Collection(!isTeacher) == old(Collection(!isTeacher))
        && reply.body == Created(PublicView(u), UserType(isTeacher) + " created successfully.")
    {
      if !req.isTeacher.Bool? {
        return RegisterReply(400, Failure("isTeacher boolean field is required."));
      }
      if MissingField(req) {
        return RegisterReply(400, Failure("Missing required fields (firstName, lastName, username, password, email)."));
      }
      if storeFails {
        return RegisterReply(500, Failure("An internal server error occurred during registration."));
      }
      var isTeacher := req.isTeacher.b;
      var users := Collection(isTeacher);
      var nextId := NextId(users);
      if Taken(users, req.username, req.email) {
        return RegisterReply(400, Failure(UserType(isTeacher) + " username or email already exists."));
      }
      var u := User(nextId, req.firstName, req.lastName, req.username, req.password, req.email);
      if isTeacher {
        teachers := teachers + [u];
      } else {
        students := students + [u];
      }
      reply := RegisterReply(201, Created(PublicView(u), UserType(isTeacher) + " created successfully."));
    }

    /**
     * `/api/login`, reading the fields of the first matching document:
     * teachers are searched first and students only when no teacher
     * matches; with no match the id is -1 and the names are empty. The
     * status is always 200.
     */
    method Login(username: Value, password: Value) returns (reply: LoginReply)
      ensures reply.status == 200 && reply.error == ""
      ensures FirstWithCredentials(teachers, username, password).Some? ==>
        var t := teachers[FirstWithCredentials(teachers, username, password).value];
        reply == LoginReply(200, Num(t.id as real), t.firstName, t.lastName, t.email, "")
      ensures NoCredentials(teachers, username, password) && FirstWithCredentials(students, username, password).Some? ==>
        var s := students[FirstWithCredentials(students, username, password).value];
        reply == LoginReply(200, Num(s.id as real), s.firstName, s.lastName, s.email, "")
      ensures NoCredentials(teachers, username, password) && NoCredentials(students, username, password) ==>
        reply == LoginReply(200, Num(-1.0), Str(""), Str(""), Str(""), "")
    {
      MatchingHead(teachers, username, password);
      MatchingHead(students, username, password);
      var results := Matching(teachers, username, password);
      if |results| == 0 {
        results := Matching(students, username, password);
      }
      if |results| > 0 {
        var u := results[0];
        reply := LoginReply(200, Num(u.id as real), u.firstName, u.lastName, u.email, "");
      } else {
        reply := LoginReply(200, Num(-1.0), Str(""), Str(""), Str(""), "");
      }
    }
  }
}
