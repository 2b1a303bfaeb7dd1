/** The user service: the effect of each operation on the user table as a
    function of the table before it, and the `UserService` class whose methods
    carry the operations out on the table it owns. */
module Service {
  import opened Wrappers
  import opened Users
  import opened Search

  /** The body of a create request. */
  datatype CreateRequest = CreateRequest(name: string, email: string, password: string, cellphone: Option<string>)

  /** What `createUser` reports. */
  datatype CreateMessage = NameNotLetters | EmailExists | Created(id: Id) {
    function Text(): string {
      match this
      case NameNotLetters => "Name must contain only letters"
      case EmailExists => "Email already exists"
      case Created(id) => "User created successfully with ID: " + NatToString(id)
    }
  }

  /** The decimal rendering of an id, as string concatenation prints it. */
  function NatToString(n: nat): string {
    var digit := ["0", "1", "2", "3", "4", "5", "6", "7", "8", "9"][n % 10];
    if n < 10 then digit else NatToString(n / 10) + digit
  }

  /** An id renders as a non-empty string of decimal digits. */
  lemma {:induction false} NatToStringDigits(n: nat)
    ensures |NatToString(n)| > 0
    ensures forall i :: 0 <= i < |NatToString(n)| ==> '0' <= NatToString(n)[i] <= '9'
  {
    if n >= 10 {
      NatToStringDigits(n / 10);
    }
  }

  /** The three texts `createUser` answers with. */
  lemma CreateMessageTexts()
    ensures NameNotLetters.Text() == "Name must contain only letters"
    ensures EmailExists.Text() == "Email already exists"
    ensures Created(12).Text() == "User created successfully with ID: 12"
    ensures Created(105).Text() == "User created successfully with ID: 105"
  {
    assert NatToString(1) == "1";
    assert NatToString(12) == "12";
    assert NatToString(10) == "10";
    assert NatToString(105) == "105";
  }

  /** An update request: the id from the route and the optional body fields. */
  datatype UpdateRequest = UpdateRequest(id: Id, name: Option<string>, password: Option<string>, cellphone: Option<string>)

  /** The message of `bulkCreateUsers`. */
  datatype Tally = Tally(successfulCount: nat, failedCount: nat)

  /** The message of `findUsers`: the matching rows, or the generic error. */
  datatype FindMessage = Found(users: Table) | InternalServerError

  const UserNotFound := "User not found"
  const UserUpdated := "User updated successfully"
  const UserDeleted := "User deleted successfully"

  /** The row `createUser` inserts. */
  function NewUser(req: CreateRequest, hash: string -> string, now: int): User {
    User(req.name, req.email, hash(req.password), req.cellphone, true, now)
  }

  /** `createUser` on table `t` whose next store id is `nextId`: the response,
      the new table and the new next id. */
  function Create(t: Table, nextId: Id, req: CreateRequest, hash: string -> string, now: int)
    : (out: (Response<CreateMessage>, Table, Id))
    requires Fresh(t, nextId)
    ensures Fresh(out.1, out.2)
    ensures out.0.code == 200 <==> NameMatches(req.name) && !EmailInUse(t, req.email)
    ensures !NameMatches(req.name) ==> out.0 == Response(400, NameNotLetters)
    ensures NameMatches(req.name) && EmailInUse(t, req.email) ==> out.0 == Response(400, EmailExists)
    ensures out.0.code != 200 ==> out.0.code == 400 && out.1 == t && out.2 == nextId
    ensures out.0.code == 200 ==>
      && out.0.message == Created(nextId)
      && nextId !in t
      && out.1.Keys == t.Keys + {nextId}
      && (forall k :: k in t ==> out.1[k] == t[k])
      && out.1[nextId] == NewUser(req, hash, now)
  {
    if !NameMatches(req.name) then (Response(400, NameNotLetters), t, nextId)
    else if EmailInUse(t, req.email) then (Response(400, EmailExists), t, nextId)
    else (Response(200, Created(nextId)), t[nextId := NewUser(req, hash, now)], nextId + 1)
  }

  /** The row after an update: `name` and `cellphone` take the request value
      unless it is absent (`??`), the password is rehashed only when the
      request carries a non-empty one (a truthy test), and email, status and
      creation time never change. */
  function Merge(u: User, req: UpdateRequest, hash: string -> string): (v: User)
    ensures v.email == u.email && v.status == u.status && v.createdAt == u.createdAt
    ensures v.name == if req.name.Some? then req.name.value else u.name
    ensures v.cellphone == if req.cellphone.Some? then req.cellphone else u.cellphone
    ensures v.passwordHash == if Truthy(req.password) then hash(req.password.value) else u.passwordHash
    ensures req.name.None? && !Truthy(req.password) && req.cellphone.None? ==> v == u
  {
    u.(name := req.name.GetOr(u.name),
       passwordHash := if Truthy(req.password) then hash(req.password.value) else u.passwordHash,
       cellphone := if req.cellphone.Some? then req.cellphone else u.cellphone)
  }

  /** `updateUser` on table `t`. */
  function Update(t: Table, req: UpdateRequest, hash: string -> string): (out: (Response<string>, Table))
    ensures out.0.code == 200 <==> ActiveById(t, req.id).Some?
    ensures out.0.code != 200 ==> out.0 == Response(404, UserNotFound) && out.1 == t
    ensures out.0.code == 200 ==>
      && out.0.message == UserUpdated
      && out.1.Keys == t.Keys
      && (forall k :: k in t && k != req.id ==> out.1[k] == t[k])
      && out.1[req.id] == Merge(t[req.id], req, hash)
  {
    match ActiveById(t, req.id)
    case None => (Response(404, UserNotFound), t)
    case Some(u) => (Response(200, UserUpdated), t[req.id := Merge(u, req, hash)])
  }

  /** `deleteUser` on table `t`: a soft delete. */
  function Delete(t: Table, id: Id): (out: (Response<string>, Table))
    ensures out.0.code == 200 <==> ActiveById(t, id).Some?
    ensures out.0.code != 200 ==> out.0 == Response(404, UserNotFound) && out.1 == t
    ensures out.0.code == 200 ==>
      && out.0.message == UserDeleted
      && out.1.Keys == t.Keys
      && (forall k :: k in t && k != id ==> out.1[k] == t[k])
      && out.1[id] == t[id].(status := false)
  {
    match ActiveById(t, id)
    case None => (Response(404, UserNotFound), t)
    case Some(u) => (Response(200, UserDeleted), t[id := u.(status := false)])
  }

  /** `createUser` applied to each request in input order, each on the table the
      previous ones left: the per-entry responses, the final table and next id. */
  function BulkCreate(t: Table, nextId: Id, reqs: seq<CreateRequest>, hash: string -> string, now: int)
    : (out: (seq<Response<CreateMessage>>, Table, Id))
    requires Fresh(t, nextId)
    ensures |out.0| == |reqs|
    ensures Fresh(out.1, out.2)
    decreases |reqs|
  {
    if reqs == [] then ([], t, nextId)
    else
      var (rs, t1, n1) := BulkCreate(t, nextId, reqs[..|reqs| - 1], hash, now);
      var (r, t2, n2) := Create(t1, n1, reqs[|reqs| - 1], hash, now);
      (rs + [r], t2, n2)
  }

  /** The number of responses with code 200. */
  function CountSucceeded(rs: seq<Response<CreateMessage>>): nat {
    if rs == [] then 0
    else CountSucceeded(rs[..|rs| - 1]) + (if rs[|rs| - 1].code == 200 then 1 else 0)
  }

  /** The number of responses with any other code. */
  function CountFailed(rs: seq<Response<CreateMessage>>): nat {
    if rs == [] then 0
    else CountFailed(rs[..|rs| - 1]) + (if rs[|rs| - 1].code == 200 then 0 else 1)
  }

  /** Every response is counted exactly once. */
  lemma {:induction false} TallyAddsUp(rs: seq<Response<CreateMessage>>)
    ensures CountSucceeded(rs) + CountFailed(rs) == |rs|
  {
    if rs != [] {
      TallyAddsUp(rs[..|rs| - 1]);
    }
  }

  /** The service object: the user table it owns (standing for the store),
      the store's next id, and the injected hash and date parser. */
  class UserService {
    var users: Table
    var nextId: Id
    const hash: string -> string
    const parseDate: string -> int

    ghost predicate Valid()
      reads this
    {
      Fresh(users, nextId) && EmailsUnique(users)
    }

    constructor (hash: string -> string, parseDate: string -> int)
      ensures Valid()
      ensures users == map[] && nextId == 1
      ensures this.hash == hash && this.parseDate == parseDate
    {
      users := map[];
      nextId := 1;
      this.hash := hash;
      this.parseDate := parseDate;
    }

    method CreateUser(req: CreateRequest, now: int) returns (r: Response<CreateMessage>)
      requires Valid()
      modifies this
      ensures Valid()
      ensures (r, users, nextId) == Create(old(users), old(nextId), req, hash, now)
      ensures NoRevival(old(users), users)
    {
      if !NameMatches(req.name) {
        return Response(400, NameNotLetters);
      }
      if EmailInUse(users, req.email) {
        return Response(400, EmailExists);
      }
      var encryptedPassword := hash(req.password);
      var id := nextId;
      users := users[id := User(req.name, req.email, encryptedPassword, req.cellphone, true, now)];
      nextId := nextId + 1;
      r := Response(200, Created(id));
    }

    function GetAllUsers(): (r: Response<Table>)
      reads this
      ensures r.code == 200
      ensures forall k :: k in r.message <==> k in users && users[k].status
      ensures forall k :: k in r.message ==> r.message[k] == users[k]
    {
      Response(200, ActiveUsers(users))
    }

    /** `storageFails` stands for an exception thrown by the store, which the
        search alone catches. */
    method FindUsers(q: Query, storageFails: bool) returns (r: Response<FindMessage>)
      ensures storageFails ==> r == Response(500, InternalServerError)
      ensures !storageFails ==> r == Response(200, Found(Select(users, FilterFor(q, parseDate))))
    {
      var filters := BuildFilter(q, parseDate);
      if storageFails {
        return Response(500, InternalServerError);
      }
      r := Response(200, Found(Select(users, filters)));
    }

    method BulkCreateUsers(reqs: seq<CreateRequest>, now: int) returns (r: Response<Tally>)
      requires Valid()
      modifies this
      ensures Valid()
      ensures var (rs, t, n) := BulkCreate(old(users), old(nextId), reqs, hash, now);
        && users == t && nextId == n
        && r == Response(200, Tally(CountSucceeded(rs), CountFailed(rs)))
      ensures r.message.successfulCount + r.message.failedCount == |reqs|
      ensures NoRevival(old(users), users)
    {
      var successfulCount, failedCount := 0, 0;
      ghost var rs: seq<Response<CreateMessage>> := [];
      for i := 0 to |reqs|
        invariant Valid()
        invariant NoRevival(old(users), users)
        invariant (rs, users, nextId) == BulkCreate(old(users), old(nextId), reqs[..i], hash, now)
        invariant successfulCount == CountSucceeded(rs) && failedCount == CountFailed(rs)
      {
        var result := CreateUser(reqs[i], now);
        assert reqs[..i + 1][..i] == reqs[..i];
        rs := rs + [result];
        assert rs[..|rs| - 1] == rs[..i];
        if result.code == 200 {
          successfulCount := successfulCount + 1;
        } else {
          failedCount := failedCount + 1;
        }
      }
      assert reqs[..|reqs|] == reqs;
      TallyAddsUp(rs);
      r := Response(200, Tally(successfulCount, failedCount));
    }

    function GetUserById(id: Id): (r: Response<Option<User>>)
      reads this
      ensures r.code == 200
      ensures r.message.Some? <==> id in users && users[id].status
      ensures r.message.Some? ==> r.message.value == users[id]
    {
      Response(200, ActiveById(users, id))
    }

    method UpdateUser(req: UpdateRequest) returns (r: Response<string>)
      requires Valid()
      modifies this
      ensures Valid() && nextId == old(nextId)
      ensures (r, users) == Update(old(users), req, hash)
      ensures NoRevival(old(users), users)
    {
      var user := ActiveById(users, req.id);
      if user.None? {
        return Response(404, UserNotFound);
      }
      var payloadName := if req.name.Some? then req.name.value else user.value.name;
      var payloadPassword := if Truthy(req.password) then hash(req.password.value) else user.value.passwordHash;
      var payloadCellphone := if req.cellphone.Some? then req.cellphone else user.value.cellphone;
      users := users[req.id := users[req.id].(name := payloadName, passwordHash := payloadPassword, cellphone := payloadCellphone)];
      r := Response(200, UserUpdated);
    }

    method DeleteUser(id: Id) returns (r: Response<string>)
      requires Valid()
      modifies this
      ensures Valid() && nextId == old(nextId)
      ensures (r, users) == Delete(old(users), id)
      ensures NoRevival(old(users), users)
    {
      var user := ActiveById(users, id);
      if user.None? {
        return Response(404, UserNotFound);
      }
      users := users[id := users[id].(status := false)];
      r := Response(200, UserDeleted);
    }
  }
}
