/** The user entity, the in-memory user table that stands for the relational
    store, and the read-only selections the service runs over it. */
module Users {
  import opened Wrappers

  /** Store-generated primary key. */
  type Id = nat

  /** One row of the user table; its id is the key under which it is stored.
      `passwordHash` is the output of the injected one-way hash; the plaintext
      password is never stored. `status` is true for an active user and false
      for a soft-deleted one. */
  datatype User = User(
    name: string,
    email: string,
    passwordHash: string,
    cellphone: Option<string>,
    status: bool,
    createdAt: int)

  type Table = map<Id, User>

  /** The `{code, message}` pair every service operation returns. */
  datatype Response<T> = Response(code: int, message: T)

  predicate IsAsciiLetter(c: char) {
    'a' <= c <= 'z' || 'A' <= c <= 'Z'
  }

  /** The test `/^[a-zA-Z]+$/.test(name)`: one or more ASCII letters and nothing else. */
  function NameMatches(s: string): (b: bool)
    ensures b <==> |s| > 0 && forall i :: 0 <= i < |s| ==> IsAsciiLetter(s[i])
  {
    if |s| == 0 then false
    else if !IsAsciiLetter(s[0]) then false
    else if |s| == 1 then true
    else
      var rest := NameMatches(s[1..]);
      assert forall i :: 1 <= i < |s| ==> s[i] == s[1..][i - 1];
      rest
  }

  /** `findOne({ where: { email } })` finds a row: some record, active or
      soft-deleted, has this email. */
  predicate EmailInUse(t: Table, email: string) {
    exists k :: k in t && t[k].email == email
  }

  /** No two rows share an email. */
  ghost predicate EmailsUnique(t: Table) {
    forall j, k :: j in t && k in t && t[j].email == t[k].email ==> j == k
  }

  /** Every key in use is below the next id the store will hand out. */
  predicate Fresh(t: Table, nextId: Id) {
    forall k :: k in t ==> k < nextId
  }

  /** From `t` to `t2` no row was removed and no soft-deleted row became active
      again: the only status change any operation makes is true to false. */
  ghost predicate NoRevival(t: Table, t2: Table) {
    forall k :: k in t ==> k in t2 && (!t[k].status ==> !t2[k].status)
  }

  /** `findAll({ where: { status: true } })`: exactly the active rows, unchanged. */
  function ActiveUsers(t: Table): (r: Table)
    ensures forall k :: k in r <==> k in t && t[k].status
    ensures forall k :: k in r ==> r[k] == t[k]
  {
    map k | k in t && t[k].status :: t[k]
  }

  /** `findOne({ where: { id, status: true } })`: the row with this id if it is
      active, and nothing for a missing or soft-deleted id. */
  function ActiveById(t: Table, id: Id): (r: Option<User>)
    ensures r.Some? <==> id in t && t[id].status
    ensures r.Some? ==> r.value == t[id]
    ensures r.Some? <==> id in ActiveUsers(t)
  {
    if id in t && t[id].status then Some(t[id]) else None
  }
}
