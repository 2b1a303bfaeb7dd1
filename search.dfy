/** The filtered search `findUsers`: the query parameters, the filter record the
    service assembles from them, and the rows a filter selects. */
module Search {
  import opened Wrappers
  import opened Users

  /** The five query-string parameters; `None` is a parameter that is absent. */
  datatype Query = Query(
    eliminados: Option<string>,
    nombre: Option<string>,
    fechaInicioAntes: Option<string>,
    fechaInicioDespues: Option<string>,
    status: Option<string>)

  /** JavaScript truthiness of an optional string: present and not empty. */
  predicate Truthy(p: Option<string>) {
    p.Some? && p.value != ""
  }

  /** The `createdAt` entry of the filter: `Op.between` (inclusive), `Op.lt`,
      `Op.gt`, or no entry at all. */
  datatype DateFilter = AnyDate | Between(low: int, high: int) | Before(bound: int) | After(bound: int)

  /** The `filters` object: one typed entry per column that may be constrained;
      `None`/`AnyDate` is a key that was never assigned. */
  datatype Filter = Filter(status: Option<bool>, nameLike: Option<string>, createdAt: DateFilter)

  /** `sub` occurs contiguously in `s`: the `%sub%` pattern of `Op.like`, with
      `%` and `_` inside `sub` read literally. */
  predicate IsSubstring(sub: string, s: string)
    decreases |s|
  {
    if |sub| > |s| then false
    else if sub == s[..|sub|] then true
    else |s| > 0 && IsSubstring(sub, s[1..])
  }

  predicate DateHolds(d: DateFilter, c: int) {
    match d
    case AnyDate => true
    case Between(low, high) => low <= c <= high
    case Before(bound) => c < bound
    case After(bound) => c > bound
  }

  /** A row satisfies the conjunction of every entry of the filter. */
  predicate Matches(u: User, f: Filter) {
    && (f.status.None? || u.status == f.status.value)
    && (f.nameLike.None? || IsSubstring(f.nameLike.value, u.name))
    && DateHolds(f.createdAt, u.createdAt)
  }

  /** `findAll({ where: f })`: the rows that match, unchanged. */
  function Select(t: Table, f: Filter): (r: Table)
    ensures forall k :: k in r <==> k in t && Matches(t[k], f)
    ensures forall k :: k in r ==> r[k] == t[k]
  {
    map k | k in t && Matches(t[k], f) :: t[k]
  }

  /** Which status, if any, a query asks for: a present `status` decides
      (`"true"` means active, anything else deleted); otherwise a present
      `eliminados` decides (`"true"` means deleted, anything else active). */
  function RequestedStatus(q: Query): Option<bool> {
    if q.status.Some? then Some(q.status.value == "true")
    else if q.eliminados.Some? then Some(q.eliminados.value != "true")
    else None
  }

  /** The date window a query asks for; `parseDate` stands for `new Date(s)`. */
  function RequestedDates(q: Query, parseDate: string -> int): DateFilter {
    if Truthy(q.fechaInicioAntes) && Truthy(q.fechaInicioDespues) then
      Between(parseDate(q.fechaInicioAntes.value), parseDate(q.fechaInicioDespues.value))
    else if Truthy(q.fechaInicioAntes) then Before(parseDate(q.fechaInicioAntes.value))
    else if Truthy(q.fechaInicioDespues) then After(parseDate(q.fechaInicioDespues.value))
    else AnyDate
  }

  /** The filter a query denotes, one column at a time. */
  function FilterFor(q: Query, parseDate: string -> int): Filter {
    Filter(
      RequestedStatus(q),
      if Truthy(q.nombre) then Some(q.nombre.value) else None,
      RequestedDates(q, parseDate))
  }

  /** Assembles the filter as `findUsers` does: start empty and assign the
      entries in turn, `status` last, so that it overwrites the entry
      `eliminados` may have set. */
  method BuildFilter(q: Query, parseDate: string -> int) returns (f: Filter)
    ensures f == FilterFor(q, parseDate)
  {
    f := Filter(None, None, AnyDate);
    if q.eliminados.Some? {
      f := f.(status := Some(if q.eliminados.value == "true" then false else true));
    }
    if Truthy(q.nombre) {
      f := f.(nameLike := Some(q.nombre.value));
    }
    if Truthy(q.fechaInicioAntes) && Truthy(q.fechaInicioDespues) {
      f := f.(createdAt := Between(parseDate(q.fechaInicioAntes.value), parseDate(q.fechaInicioDespues.value)));
    } else if Truthy(q.fechaInicioAntes) {
      f := f.(createdAt := Before(parseDate(q.fechaInicioAntes.value)));
    } else if Truthy(q.fechaInicioDespues) {
      f := f.(createdAt := After(parseDate(q.fechaInicioDespues.value)));
    }
    if q.status.Some? {
      f := f.(status := Some(if q.status.value == "true" then true else false));
    }
  }

  /** A query that constrains nothing but the status column. */
  predicate OnlyStatusConstrained(q: Query) {
    !Truthy(q.nombre) && !Truthy(q.fechaInicioAntes) && !Truthy(q.fechaInicioDespues)
  }

  /** With no other constraint, `eliminados` alone selects exactly the
      soft-deleted rows when it is `"true"` and exactly the active rows otherwise. */
  lemma EliminadosSelects(t: Table, q: Query, parseDate: string -> int)
    requires q.status.None? && q.eliminados.Some? && OnlyStatusConstrained(q)
    ensures q.eliminados.value == "true" ==>
      Select(t, FilterFor(q, parseDate)) == map k | k in t && !t[k].status :: t[k]
    ensures q.eliminados.value != "true" ==>
      Select(t, FilterFor(q, parseDate)) == ActiveUsers(t)
  {

  }

  /** With no other constraint, a present `status` parameter selects the
      active rows for `"true"` and the soft-deleted ones for anything else,
      whatever `eliminados` says. */
  lemma StatusParameterWins(t: Table, q: Query, parseDate: string -> int)
    requires q.status.Some? && OnlyStatusConstrained(q)
    ensures q.status.value == "true" ==> Select(t, FilterFor(q, parseDate)) == ActiveUsers(t)
    ensures q.status.value != "true" ==>
      Select(t, FilterFor(q, parseDate)) == map k | k in t && !t[k].status :: t[k]
  {
  }

  /** Whatever the other parameters, once `status` is present the search
      result does not depend on `eliminados`: the later assignment wins. */
  lemma StatusOverridesEliminados(t: Table, q: Query, parseDate: string -> int)
    requires q.status.Some?
    ensures Select(t, FilterFor(q, parseDate)) == Select(t, FilterFor(q.(eliminados := None), parseDate))
  {

  }

  /** `getAllUsers` is the search with `status = "true"` and nothing else. */
  lemma AllActiveIsStatusSearch(t: Table, parseDate: string -> int)
    ensures ActiveUsers(t) == Select(t, FilterFor(Query(None, None, None, None, Some("true")), parseDate))
  {

  }

  /** With no parameter at all the search returns every row, soft-deleted ones included. */
  lemma EmptyQuerySelectsAll(t: Table, parseDate: string -> int)
    ensures Select(t, FilterFor(Query(None, None, None, None, None), parseDate)) == t
  {

  }

  /** An empty or absent `nombre` adds no name constraint; a non-empty one
      keeps exactly the rows whose name contains it. */
  lemma NombreConstraint(q: Query, parseDate: string -> int, u: User)
    ensures !Truthy(q.nombre) ==>
      (Matches(u, FilterFor(q, parseDate)) <==> Matches(u, FilterFor(q.(nombre := None), parseDate)))
    ensures Truthy(q.nombre) ==>
      (Matches(u, FilterFor(q, parseDate)) <==>
        Matches(u, FilterFor(q.(nombre := None), parseDate)) && IsSubstring(q.nombre.value, u.name))
  {
  }

  /** The date window, stated on the creation time `c` of a row. */
  lemma DateWindow(q: Query, parseDate: string -> int, c: int)
    ensures Truthy(q.fechaInicioAntes) && Truthy(q.fechaInicioDespues) ==>
      (DateHolds(FilterFor(q, parseDate).createdAt, c) <==>
        parseDate(q.fechaInicioAntes.value) <= c <= parseDate(q.fechaInicioDespues.value))
    ensures Truthy(q.fechaInicioAntes) && !Truthy(q.fechaInicioDespues) ==>
      (DateHolds(FilterFor(q, parseDate).createdAt, c) <==> c < parseDate(q.fechaInicioAntes.value))
    ensures !Truthy(q.fechaInicioAntes) && Truthy(q.fechaInicioDespues) ==>
      (DateHolds(FilterFor(q, parseDate).createdAt, c) <==> c > parseDate(q.fechaInicioDespues.value))
    ensures !Truthy(q.fechaInicioAntes) && !Truthy(q.fechaInicioDespues) ==>
      DateHolds(FilterFor(q, parseDate).createdAt, c)
  {
  }

  /** With both bounds the window is `[antes, despues]`, not the intersection of
      the two one-sided windows: a row created at 7 passes `antes = 10` alone
      (`< 10`) and `despues = 5` alone (`> 5`), but not both together (`[10, 5]`
      is empty). */
  lemma BothBoundsAreNotIntersection()
    ensures var parseDate := (s: string) => if s == "10" then 10 else 5;
      && DateHolds(FilterFor(Query(None, None, Some("10"), None, None), parseDate).createdAt, 7)
      && DateHolds(FilterFor(Query(None, None, None, Some("5"), None), parseDate).createdAt, 7)
      && !DateHolds(FilterFor(Query(None, None, Some("10"), Some("5"), None), parseDate).createdAt, 7)
  {

  }
}
