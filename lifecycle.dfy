/** Properties that relate several operations of the user service: what a
    create adds, the soft-delete lifecycle, and the effect of a bulk create. */
module Lifecycle {
  import opened Wrappers
  import opened Users
  import opened Search
  import opened Service

  /** A successful create adds exactly one row, which is active and is what
      `getUserById` and `getAllUsers` then see under the reported id. */
  lemma CreatedUserIsVisible(t: Table, nextId: Id, req: CreateRequest, hash: string -> string, now: int)
    requires Fresh(t, nextId)
    ensures var (r, t2, _) := Create(t, nextId, req, hash, now);
      r.code == 200 ==>
        && |t2| == |t| + 1
        && ActiveById(t2, r.message.id) == Some(NewUser(req, hash, now))
        && r.message.id in ActiveUsers(t2)
        && t2[r.message.id].passwordHash == hash(req.password)
  {

  }

  /** A create never breaks email uniqueness and never revives or removes a row. */
  lemma CreatePreserves(t: Table, nextId: Id, req: CreateRequest, hash: string -> string, now: int)
    requires Fresh(t, nextId)
    ensures var (_, t2, _) := Create(t, nextId, req, hash, now);
      NoRevival(t, t2) && (EmailsUnique(t) ==> EmailsUnique(t2))
  {
  }

  /** An update never touches email or status, so it keeps email uniqueness
      and the lifecycle; an update with no body fields changes nothing. */
  lemma UpdatePreserves(t: Table, req: UpdateRequest, hash: string -> string)
    ensures var (_, t2) := Update(t, req, hash);
      && NoRevival(t, t2)
      && (EmailsUnique(t) ==> EmailsUnique(t2))
      && (req.name.None? && !Truthy(req.password) && req.cellphone.None? ==> t2 == t)
  {
  }

  /** A delete keeps email uniqueness and the lifecycle. After it the row is
      gone from `getUserById` and `getAllUsers` but still stored, and
      `eliminados = "true"` finds it. */
  lemma DeleteHides(t: Table, id: Id, parseDate: string -> int)
    ensures var (r, t2) := Delete(t, id);
      && NoRevival(t, t2)
      && (EmailsUnique(t) ==> EmailsUnique(t2))
      && (r.code == 200 ==>
        && id in t2
        && ActiveById(t2, id) == None
        && id !in ActiveUsers(t2)
        && id in Select(t2, FilterFor(Query(Some("true"), None, None, None, None), parseDate)))
  {
  }

  /** Once deleted, a row cannot be deleted or updated again: both return 404
      and leave the table as it is. */
  lemma DeleteIsFinal(t: Table, id: Id, req: UpdateRequest, hash: string -> string)
    requires req.id == id
    ensures var (r, t2) := Delete(t, id);
      r.code == 200 ==>
        && Delete(t2, id) == (Response(404, UserNotFound), t2)
        && Update(t2, req, hash) == (Response(404, UserNotFound), t2)
  {
  }

  /** The email of a soft-deleted user stays taken: creating it again fails. */
  lemma DeletedEmailStaysTaken(t: Table, nextId: Id, req: CreateRequest, hash: string -> string, now: int)
    requires Fresh(t, nextId)
    ensures var (r1, t1, n1) := Create(t, nextId, req, hash, now);
      r1.code == 200 ==>
        var (_, t2) := Delete(t1, r1.message.id);
        Create(t2, n1, req, hash, now) == (Response(400, EmailExists), t2, n1)
  {

  }

  lemma NoRevivalTransitive(t1: Table, t2: Table, t3: Table)
    requires NoRevival(t1, t2) && NoRevival(t2, t3)
    ensures NoRevival(t1, t3)
  {
  }

  /** A bulk create only adds rows: it keeps email uniqueness and the
      lifecycle, and the number of rows grows by exactly the success count. */
  lemma {:induction false} BulkCreateAdds(t: Table, nextId: Id, reqs: seq<CreateRequest>, hash: string -> string, now: int)
    requires Fresh(t, nextId)
    ensures var (rs, t2, _) := BulkCreate(t, nextId, reqs, hash, now);
      && NoRevival(t, t2)
      && (forall k :: k in t ==> k in t2 && t2[k] == t[k])
      && (EmailsUnique(t) ==> EmailsUnique(t2))
      && |t2| == |t| + CountSucceeded(rs)
  {
    if reqs != [] {
      var init := reqs[..|reqs| - 1];
      var (rs, t1, n1) := BulkCreate(t, nextId, init, hash, now);
      BulkCreateAdds(t, nextId, init, hash, now);
      var (r, t2, n2) := Create(t1, n1, reqs[|reqs| - 1], hash, now);
      CreatePreserves(t1, n1, reqs[|reqs| - 1], hash, now);
      CreatedUserIsVisible(t1, n1, reqs[|reqs| - 1], hash, now);
      NoRevivalTransitive(t, t1, t2);
      assert (rs + [r])[..|rs + [r]| - 1] == rs;
    }
  }

  /** A bulk create of two requests is two creates in a row. */
  lemma {:induction false} BulkCreatePair(t: Table, n: Id, a: CreateRequest, b: CreateRequest, hash: string -> string, now: int)
    requires Fresh(t, n)
    ensures var (r1, t1, n1) := Create(t, n, a, hash, now);
      var (r2, t2, n2) := Create(t1, n1, b, hash, now);
      BulkCreate(t, n, [a, b], hash, now) == ([r1, r2], t2, n2)
  {
    assert [a, b][..|[a, b]| - 1] == [a] && [a, b][|[a, b]| - 1] == b;
    assert [a][..|[a]| - 1] == [] && [a][|[a]| - 1] == a;
    var (r1, t1, n1) := Create(t, n, a, hash, now);
    assert BulkCreate(t, n, [], hash, now) == ([], t, n);
    assert [] + [r1] == [r1];
    assert BulkCreate(t, n, [a], hash, now) == ([r1], t1, n1);
    var (r2, t2, n2) := Create(t1, n1, b, hash, now);
    assert [r1] + [r2] == [r1, r2];
  }

  lemma {:induction false} CountPair(r1: Response<CreateMessage>, r2: Response<CreateMessage>)
    requires r1.code == 200 && r2.code != 200
    ensures CountSucceeded([r1, r2]) == 1 && CountFailed([r1, r2]) == 1
  {
    assert [r1, r2][..|[r1, r2]| - 1] == [r1] && [r1, r2][|[r1, r2]| - 1] == r2;
    assert [r1][..|[r1]| - 1] == [] && [r1][|[r1]| - 1] == r1;
    assert CountSucceeded([r1]) == 1 && CountFailed([r1]) == 0;
  }

  /** On any table: a valid user whose email is free, followed by a request
      with the same email. The first is created under the next id, the second
      is rejected with 400 (for the email, when its name passes), and the
      tally is one and one. */
  lemma BulkDuplicateEmail(t: Table, n: Id, first: CreateRequest, second: CreateRequest, hash: string -> string, now: int)
    requires Fresh(t, n) && NameMatches(first.name) && !EmailInUse(t, first.email)
    requires second.email == first.email
    ensures var (rs, t2, _) := BulkCreate(t, n, [first, second], hash, now);
      && |rs| == 2
      && rs[0] == Response(200, Created(n))
      && rs[1].code == 400
      && (NameMatches(second.name) ==> rs[1] == Response(400, EmailExists))
      && CountSucceeded(rs) == 1 && CountFailed(rs) == 1
      && t2 == t[n := NewUser(first, hash, now)]
  {
    BulkCreatePair(t, n, first, second, hash, now);
    var (r1, t1, n1) := Create(t, n, first, hash, now);
    assert EmailInUse(t1, second.email) by {
      assert t1[n].email == second.email;
    }
    var (r2, t2, n2) := Create(t1, n1, second, hash, now);
    CountPair(r1, r2);
  }

  /** The same on an empty store, with concrete requests: ids start at 1. */
  lemma BulkDuplicateEmailExample(hash: string -> string, now: int)
    ensures var first := CreateRequest("Ana", "ana@example.com", "secret", None);
      var second := CreateRequest("Berta", "ana@example.com", "other", Some("555"));
      var (rs, t, _) := BulkCreate(map[], 1, [first, second], hash, now);
      && rs == [Response(200, Created(1)), Response(400, EmailExists)]
      && CountSucceeded(rs) == 1 && CountFailed(rs) == 1
      && t == map[1 := NewUser(first, hash, now)]
  {
    var first := CreateRequest("Ana", "ana@example.com", "secret", None);
    var second := CreateRequest("Berta", "ana@example.com", "other", Some("555"));
    assert NameMatches("Ana") by {
      assert forall i :: 0 <= i < |"Ana"| ==> IsAsciiLetter("Ana"[i]);
    }
    assert NameMatches("Berta") by {
      assert forall i :: 0 <= i < |"Berta"| ==> IsAsciiLetter("Berta"[i]);
    }
    BulkDuplicateEmail(map[], 1, first, second, hash, now);
  }
}
