/** The state record of the employee store and what each store mutation
    does to it (src/services/store/index.js).

    Every mutator of the store replaces one or more slices of `this.state`
    and then notifies; this module gives the new state as a function of the
    old one, so that the invariants the store keeps can be stated and proved
    as lemmas. The class that holds the state is in module Store. */
module StoreState {

  import opened Values
  import opened PageMath

  /** The modal dialogs the application opens through the store. */
  datatype ModalKind = DeleteModal | AddEditModal

  /** The list layout and the table layout; any other stored value shows neither. */
  datatype ViewMode = ListMode | TableMode | OtherMode(name: string)

  datatype Pagination = Pagination(currentPage: int, itemsPerPage: int, totalItems: int)

  /** A partial pagination object: only the `Some` fields are spread over the old one. */
  datatype PaginationPatch = PaginationPatch(currentPage: Option<int>, itemsPerPage: Option<int>, totalItems: Option<int>)

  datatype State = State(
    employees: seq<Record>,
    currentEmployee: Option<Record>,
    filters: map<string, string>,
    pagination: Pagination,
    view: ViewMode,
    modals: map<ModalKind, bool>,
    language: string)

  /** `defaultModalsState`: only the delete dialog has an entry, and it is closed. */
  const DefaultModals: map<ModalKind, bool> := map[DeleteModal := false]

  const DefaultFilters: map<string, string> := map["search" := "", "department" := "", "position" := ""]

  const DefaultPagination: Pagination := Pagination(1, 10, 0)

  predicate AllClosed(modals: map<ModalKind, bool>) {
    forall k :: k in modals ==> !modals[k]
  }

  predicate AtMostOneOpen(modals: map<ModalKind, bool>) {
    forall j, k :: j in modals && k in modals && modals[j] && modals[k] ==> j == k
  }

  /** The pagination invariant: `totalItems` counts the list, pages are
      non-empty in size and the current page is one of `1..max(1, ceil(n / size))`. */
  predicate Consistent(s: State) {
    && s.pagination.totalItems == |s.employees|
    && s.pagination.itemsPerPage > 0
    && 1 <= s.pagination.currentPage <= PagesOrOne(|s.employees|, s.pagination.itemsPerPage)
  }

  /** The constructor's state; `documentLang` is `document.documentElement.lang`. */
  function Initial(documentLang: string): (s: State)
    ensures Consistent(s) && AllClosed(s.modals) && AtMostOneOpen(s.modals)
    ensures s.employees == [] && s.currentEmployee == None
    ensures s.pagination == Pagination(1, 10, 0)
    ensures s.language == (if documentLang == "" then "en" else documentLang)
  {
    State([], None, DefaultFilters, DefaultPagination, TableMode, DefaultModals,
          if documentLang != "" then documentLang else "en")
  }

  /** `loadFromStorage`: a stored snapshot (already decoded; `None` when the
      slot is empty or does not parse) replaces the state, except that the
      modals are always reset to the closed default. */
  function Loaded(documentLang: string, stored: Option<State>): (s: State)
    ensures s.modals == DefaultModals && AllClosed(s.modals)
    ensures stored.None? ==> s == Initial(documentLang)
    ensures stored.Some? ==> s.employees == stored.value.employees && s.pagination == stored.value.pagination
  {
    match stored
    case None => Initial(documentLang)
    case Some(snapshot) => snapshot.(modals := DefaultModals)
  }

  /** Saving a state and loading it back reproduces every slice but `modals`,
      and reproduces the state exactly when no dialog entry differs from the default. */
  lemma SnapshotRoundTrip(documentLang: string, s: State)
    ensures Loaded(documentLang, Some(s)).(modals := s.modals) == s
    ensures Loaded(documentLang, Some(s)) == s <==> s.modals == DefaultModals
  {
  }

  /** The record `addEmployee` stores: the caller's fields, with `id` and
      `createdAt` assigned by the store and overriding any supplied ones. */
  function Stamped(employee: Record, id: string, createdAt: string): (r: Record)
    ensures r.Keys == employee.Keys + {"id", "createdAt"}
    ensures IdOf(r) == Str(id) && r["createdAt"] == Str(createdAt)
    ensures forall k :: k in employee && k != "id" && k != "createdAt" ==> r[k] == employee[k]
  {
    employee["id" := Str(id)]["createdAt" := Str(createdAt)]
  }

  /** `addEmployee`: append, recount, and move to the last page so the new record is visible. */
  function AddEmployee(s: State, employee: Record, id: string, createdAt: string): (r: State)
    requires s.pagination.itemsPerPage > 0
    ensures |r.employees| == |s.employees| + 1
    ensures r.employees[..|s.employees|] == s.employees
    ensures r.employees[|s.employees|] == Stamped(employee, id, createdAt)
    ensures r.pagination.totalItems == |r.employees|
    ensures r.pagination.itemsPerPage == s.pagination.itemsPerPage
    ensures r.pagination.currentPage == PagesOrOne(|r.employees|, s.pagination.itemsPerPage)
    ensures Consistent(r)
    ensures r.(employees := s.employees, pagination := s.pagination) == s
  {
    var employees := s.employees + [Stamped(employee, id, createdAt)];
    var pages := PagesOrOne(|employees|, s.pagination.itemsPerPage);
    s.(employees := employees,
       pagination := s.pagination.(totalItems := |employees|, currentPage := pages))
  }

  /** `employees.filter(emp => emp.id !== id)`. */
  function WithoutId(employees: seq<Record>, id: Field): (r: seq<Record>)
    ensures forall i :: 0 <= i < |r| ==> IdOf(r[i]) != id
    ensures |r| <= |employees|
  {
    if employees == [] then []
    else
      var rest := WithoutId(employees[1..], id);
      if IdOf(employees[0]) == id then rest else [employees[0]] + rest
  }

  /** Filtering drops exactly the records with the id: every other record
      keeps its number of occurrences. */
  lemma {:induction false} WithoutIdCounts(employees: seq<Record>, id: Field)
    ensures forall e :: multiset(WithoutId(employees, id))[e] == if IdOf(e) == id then 0 else multiset(employees)[e]
  {
    if employees != [] {
      WithoutIdCounts(employees[1..], id);
      assert employees == [employees[0]] + employees[1..];
    }
  }

  /** When no record has the id, filtering changes nothing. */
  lemma {:induction false} WithoutIdUnknown(employees: seq<Record>, id: Field)
    requires forall i :: 0 <= i < |employees| ==> IdOf(employees[i]) != id
    ensures WithoutId(employees, id) == employees
  {
    if employees != [] {
      WithoutIdUnknown(employees[1..], id);
      assert employees == [employees[0]] + employees[1..];
    }
  }

  /** Filtering keeps the relative order: it distributes over concatenation. */
  lemma {:induction false} WithoutIdAppend(a: seq<Record>, b: seq<Record>, id: Field)
    ensures WithoutId(a + b, id) == WithoutId(a, id) + WithoutId(b, id)
  {
    if a == [] {
      assert a + b == b;
    } else {
      var ab := a + b;
      assert ab[0] == a[0] && ab[1..] == a[1..] + b;
      WithoutIdAppend(a[1..], b, id);
      var head: seq<Record> := if IdOf(a[0]) == id then [] else [a[0]];
      assert WithoutId(ab, id) == head + WithoutId(a[1..] + b, id);
      assert WithoutId(a, id) == head + WithoutId(a[1..], id);
    }
  }

  /** `deleteEmployee`: remove every record with the id, recount, and clamp the
      current page down to the new last page; the page is never raised. */
  function DeleteEmployee(s: State, id: Field): (r: State)
    requires s.pagination.itemsPerPage > 0
    ensures r.employees == WithoutId(s.employees, id)
    ensures r.pagination.totalItems == |r.employees|
    ensures r.pagination.itemsPerPage == s.pagination.itemsPerPage
    ensures r.pagination.currentPage <= s.pagination.currentPage
    ensures r.pagination.currentPage <= PagesOrOne(|r.employees|, s.pagination.itemsPerPage)
    ensures r.pagination.currentPage == s.pagination.currentPage
         || r.pagination.currentPage == PagesOrOne(|r.employees|, s.pagination.itemsPerPage)
    ensures s.pagination.currentPage >= 1 ==> Consistent(r)
    ensures r.(employees := s.employees, pagination := s.pagination) == s
  {
    var employees := WithoutId(s.employees, id);
    var pages := PagesOrOne(|employees|, s.pagination.itemsPerPage);
    s.(employees := employees,
       pagination := s.pagination.(
         totalItems := |employees|,
         currentPage := if pages < s.pagination.currentPage then pages else s.pagination.currentPage))
  }

  /** `employees.map(emp => emp.id === id ? {...emp, ...updates} : emp)`. */
  function MergedById(employees: seq<Record>, id: Field, updates: Record): (r: seq<Record>)
    ensures |r| == |employees|
    ensures forall i :: 0 <= i < |r| && IdOf(employees[i]) != id ==> r[i] == employees[i]
    ensures forall i :: 0 <= i < |r| && IdOf(employees[i]) == id ==>
      && r[i].Keys == employees[i].Keys + updates.Keys
      && (forall k :: k in updates ==> r[i][k] == updates[k])
      && (forall k :: k in employees[i] && k !in updates ==> r[i][k] == employees[i][k])
  {
    seq(|employees|, i requires 0 <= i < |employees| =>
      if IdOf(employees[i]) == id then employees[i] + updates else employees[i])
  }

  /** `updateEmployee`: merge the updates into every record with the id;
      with an unknown id the list stays as it is. */
  function UpdateEmployee(s: State, id: Field, updates: Record): (r: State)
    ensures r.employees == MergedById(s.employees, id, updates)
    ensures (forall i :: 0 <= i < |s.employees| ==> IdOf(s.employees[i]) != id) ==> r == s
    ensures r.(employees := s.employees) == s
  {
    var employees := MergedById(s.employees, id, updates);
    assert (forall i :: 0 <= i < |s.employees| ==> IdOf(s.employees[i]) != id) ==> employees == s.employees;
    s.(employees := employees)
  }

  /** `openModal`: select a copy of the employee (or nothing) and reset every
      dialog to closed except `kind`, which is open exactly when an employee was given. */
  function OpenModal(s: State, kind: ModalKind, employee: Option<Record>): (r: State)
    ensures r.currentEmployee == employee
    ensures kind in r.modals && r.modals[kind] == employee.Some?
    ensures forall k :: k in r.modals && k != kind ==> !r.modals[k]
    ensures AtMostOneOpen(r.modals)
    ensures employee.None? ==> AllClosed(r.modals)
    ensures r.(currentEmployee := s.currentEmployee, modals := s.modals) == s
  {
    s.(currentEmployee := employee, modals := DefaultModals[kind := employee.Some?])
  }

  /** `closeModal`: clear the selection and close `kind`; other dialogs keep their flag. */
  function CloseModal(s: State, kind: ModalKind): (r: State)
    ensures r.currentEmployee == None
    ensures kind in r.modals && !r.modals[kind]
    ensures forall k :: k != kind ==> (k in r.modals <==> k in s.modals)
    ensures forall k :: k in s.modals && k != kind ==> r.modals[k] == s.modals[k]
    ensures AtMostOneOpen(s.modals) ==> AtMostOneOpen(r.modals)
    ensures r.(currentEmployee := s.currentEmployee, modals := s.modals) == s
  {
    s.(currentEmployee := None, modals := s.modals[kind := false])
  }

  /** `updateFilters`: shallow merge of the filter slice. */
  function UpdateFilters(s: State, patch: map<string, string>): (r: State)
    ensures r.filters.Keys == s.filters.Keys + patch.Keys
    ensures forall k :: k in patch ==> r.filters[k] == patch[k]
    ensures forall k :: k in s.filters && k !in patch ==> r.filters[k] == s.filters[k]
    ensures r.(filters := s.filters) == s
  {
    s.(filters := s.filters + patch)
  }

  /** `{...pagination, ...patch}`. */
  function Patched(p: Pagination, patch: PaginationPatch): (r: Pagination)
    ensures r.currentPage == (if patch.currentPage.Some? then patch.currentPage.value else p.currentPage)
    ensures r.itemsPerPage == (if patch.itemsPerPage.Some? then patch.itemsPerPage.value else p.itemsPerPage)
    ensures r.totalItems == (if patch.totalItems.Some? then patch.totalItems.value else p.totalItems)
  {
    Pagination(
      match patch.currentPage case Some(v) => v case None => p.currentPage,
      match patch.itemsPerPage case Some(v) => v case None => p.itemsPerPage,
      match patch.totalItems case Some(v) => v case None => p.totalItems)
  }

  /** `updatePagination`: shallow merge, with no clamping of any field. */
  function UpdatePagination(s: State, patch: PaginationPatch): (r: State)
    ensures r.pagination == Patched(s.pagination, patch)
    ensures r.(pagination := s.pagination) == s
  {
    s.(pagination := Patched(s.pagination, patch))
  }

  /** `setView`: replaces the view slice. */
  function SetView(s: State, view: ViewMode): (r: State)
    ensures r.view == view && r.(view := s.view) == s
  {
    s.(view := view)
  }

  /** `setLanguage`: replaces the language slice, supported or not. */
  function SetLanguage(s: State, language: string): (r: State)
    ensures r.language == language && r.(language := s.language) == s
  {
    s.(language := language)
  }

  /** One call of a store mutator. */
  datatype Mutation =
    | AddOp(employee: Record, id: string, createdAt: string)
    | UpdateOp(targetId: Field, updates: Record)
    | DeleteOp(deleteId: Field)
    | OpenModalOp(openKind: ModalKind, selected: Option<Record>)
    | CloseModalOp(closeKind: ModalKind)
    | FiltersOp(filterPatch: map<string, string>)
    | PaginationOp(paginationPatch: PaginationPatch)
    | ViewOp(view: ViewMode)
    | LanguageOp(language: string)

  function Apply(s: State, m: Mutation): (r: State)
    requires m.AddOp? || m.DeleteOp? ==> s.pagination.itemsPerPage > 0
    ensures !m.PaginationOp? ==> r.pagination.itemsPerPage == s.pagination.itemsPerPage
    ensures IsRosterOp(m) ==> r.pagination.totalItems == |r.employees|
    ensures IsRosterOp(m) && s.pagination.currentPage >= 1 ==> Consistent(r)
  {
    match m
    case AddOp(e, id, createdAt) => AddEmployee(s, e, id, createdAt)
    case UpdateOp(id, updates) => UpdateEmployee(s, id, updates)
    case DeleteOp(id) => DeleteEmployee(s, id)
    case OpenModalOp(kind, e) => OpenModal(s, kind, e)
    case CloseModalOp(kind) => CloseModal(s, kind)
    case FiltersOp(patch) => UpdateFilters(s, patch)
    case PaginationOp(patch) => UpdatePagination(s, patch)
    case ViewOp(v) => SetView(s, v)
    case LanguageOp(l) => SetLanguage(s, l)
  }

  /** Every mutator but `updatePagination` keeps the pagination invariant. */
  lemma ApplyKeepsConsistent(s: State, m: Mutation)
    requires Consistent(s) && !m.PaginationOp?
    ensures Consistent(Apply(s, m))
  {
  }

  /** No mutator can leave two dialogs open. */
  lemma ApplyKeepsOneModal(s: State, m: Mutation)
    requires m.AddOp? || m.DeleteOp? ==> s.pagination.itemsPerPage > 0
    requires AtMostOneOpen(s.modals)
    ensures AtMostOneOpen(Apply(s, m).modals)
  {
  }

  /** Opening one dialog after another leaves only the second open. */
  lemma OpenTwice(s: State, k: ModalKind, j: ModalKind, e1: Record, e2: Record)
    requires j != k
    ensures var r := OpenModal(OpenModal(s, k, Some(e1)), j, Some(e2));
      r.modals[j] && (k in r.modals ==> !r.modals[k]) && r.currentEmployee == Some(e2)
  {
  }

  predicate IsRosterOp(m: Mutation) {
    m.AddOp? || m.DeleteOp?
  }

  /** The state after a sequence of `addEmployee` / `deleteEmployee` calls. */
  function Replay(s: State, ops: seq<Mutation>): (r: State)
    requires s.pagination.itemsPerPage > 0
    requires forall i :: 0 <= i < |ops| ==> IsRosterOp(ops[i])
    ensures r.pagination.itemsPerPage == s.pagination.itemsPerPage
    ensures ops != [] ==> r.pagination.totalItems == |r.employees|
    ensures ops != [] && s.pagination.currentPage >= 1 ==> Consistent(r)
    ensures Consistent(s) ==> Consistent(r)
    decreases |ops|
  {
    if ops == [] then s
    else
      assert IsRosterOp(ops[0]);
      var next := Apply(s, ops[0]);
      Replay(next, ops[1..])
  }

  /** Replaying one more call applies it to the state the earlier calls left. */
  lemma {:induction false} ReplaySnoc(s: State, ops: seq<Mutation>, m: Mutation)
    requires s.pagination.itemsPerPage > 0
    requires forall i :: 0 <= i < |ops| ==> IsRosterOp(ops[i])
    requires IsRosterOp(m)
    ensures Replay(s, ops + [m]) == Apply(Replay(s, ops), m)
    decreases |ops|
  {
    if ops == [] {
      assert [] + [m] == [m];
    } else {
      assert (ops + [m])[0] == ops[0] && (ops + [m])[1..] == ops[1..] + [m];
      ReplaySnoc(Apply(s, ops[0]), ops[1..], m);
    }
  }

  /** Every `addEmployee` call lengthens the list by one. */
  lemma {:induction false} ReplayAddsCount(s: State, ops: seq<Mutation>)
    requires s.pagination.itemsPerPage > 0
    requires forall i :: 0 <= i < |ops| ==> ops[i].AddOp?
    ensures |Replay(s, ops).employees| == |s.employees| + |ops|
    decreases |ops|
  {
    if ops != [] {
      ReplayAddsCount(Apply(s, ops[0]), ops[1..]);
    }
  }

  /** Three employees on one page, all deleted again: the list is empty,
      `totalItems` is 0 and the current page is back to 1. */
  lemma DeleteAllScenario(documentLang: string, a: Record, b: Record, c: Record)
    ensures var s3 := AddEmployee(AddEmployee(AddEmployee(Initial(documentLang), a, "1", "t1"), b, "2", "t2"), c, "3", "t3");
      var s0 := DeleteEmployee(DeleteEmployee(DeleteEmployee(s3, Str("1")), Str("2")), Str("3"));
      && s3.pagination.currentPage == 1
      && s0.employees == [] && s0.pagination.totalItems == 0 && s0.pagination.currentPage == 1
  {
    var s1 := AddEmployee(Initial(documentLang), a, "1", "t1");
    var s2 := AddEmployee(s1, b, "2", "t2");
    var s3 := AddEmployee(s2, c, "3", "t3");
    var ra, rb, rc := Stamped(a, "1", "t1"), Stamped(b, "2", "t2"), Stamped(c, "3", "t3");
    assert s3.employees == [ra, rb, rc];
    assert CeilDiv(3, 10) == 1;
    var d1 := DeleteEmployee(s3, Str("1"));
    assert d1.employees == [rb, rc] by {
      assert WithoutId([ra, rb, rc], Str("1")) == WithoutId([rb, rc], Str("1"));
      WithoutIdUnknown([rb, rc], Str("1"));
    }
    var d2 := DeleteEmployee(d1, Str("2"));
    assert d2.employees == [rc] by {
      assert WithoutId([rb, rc], Str("2")) == WithoutId([rc], Str("2"));
      WithoutIdUnknown([rc], Str("2"));
    }
    var d3 := DeleteEmployee(d2, Str("3"));
    assert d3.employees == [] by {
      assert WithoutId([rc], Str("3")) == WithoutId([], Str("3"));
    }
  }
}
