/** The employee list page (src/components/employee-list/index.js): which
    slice of the roster the current page shows, and whether the empty state,
    the list layout or the table layout is rendered. */
module EmployeeList {

  import opened Values
  import opened PageMath
  import opened StoreState
  import opened Listeners
  import Store

  function Min(a: int, b: int): (r: int)
    ensures r <= a && r <= b && (r == a || r == b)
  {
    if a <= b then a else b
  }

  /** The page slice for a present list and pagination object. */
  function Page(employees: seq<Record>, p: Pagination): seq<Record> {
    var start := (p.currentPage - 1) * p.itemsPerPage;
    Slice(employees, start, start + p.itemsPerPage)
  }

  /** `_getEmployeesToBeListed`: nothing when the list or the pagination is missing. */
  function PageOf(employees: Option<seq<Record>>, pagination: Option<Pagination>): (page: seq<Record>)
    ensures employees.None? || pagination.None? ==> page == []
  {
    if employees.None? || pagination.None? then []
    else Page(employees.value, pagination.value)
  }

  /** For a page number of at least one, the page is the run of the list
      from `(currentPage - 1) * itemsPerPage` to `currentPage * itemsPerPage`,
      both cut off at the end of the list: at most `itemsPerPage` records, and
      none once the start is past the end. */
  lemma PageIsRun(employees: seq<Record>, p: Pagination)
    requires p.currentPage >= 1 && p.itemsPerPage >= 0
    ensures var start := (p.currentPage - 1) * p.itemsPerPage;
      var n := |employees|;
      Page(employees, p) == employees[Min(start, n)..Min(start + p.itemsPerPage, n)]
    ensures |Page(employees, p)| <= p.itemsPerPage
    ensures (p.currentPage - 1) * p.itemsPerPage >= |employees| ==> Page(employees, p) == []
  {
    var start := (p.currentPage - 1) * p.itemsPerPage;
    MulMonotone(0, p.currentPage - 1, p.itemsPerPage);
    SliceRun(employees, start, start + p.itemsPerPage);
  }

  /** `slice` with bounds `0 <= start <= end` is the run between the bounds
      cut off at the end of the sequence. */
  lemma SliceRun(s: seq<Record>, start: int, end: int)
    requires 0 <= start <= end
    ensures Slice(s, start, end) == s[Min(start, |s|)..Min(end, |s|)]
  {
  }

  /** Every record is on a page the store can select: the record at
      `m * itemsPerPage + r` (with `r < itemsPerPage`) is entry `r` of page
      `m + 1`, and that page number is at most the page count. */
  lemma RecordOnItsPage(employees: seq<Record>, itemsPerPage: int, m: nat, r: nat)
    requires itemsPerPage > 0 && r < itemsPerPage && m * itemsPerPage + r < |employees|
    ensures m + 1 <= CeilDiv(|employees|, itemsPerPage)
    ensures var page := Page(employees, Pagination(m + 1, itemsPerPage, |employees|));
      r < |page| && page[r] == employees[m * itemsPerPage + r]
  {
    var d, n := itemsPerPage, |employees|;
    assert m + 1 <= CeilDiv(n, d) by {
      if CeilDiv(n, d) <= m {
        MulMonotone(CeilDiv(n, d), m, d);
      }
    }
    assert Page(employees, Pagination(m + 1, d, n)) == employees[m * d..Min(m * d + d, n)] by {
      MulMonotone(0, m, d);
      PageIsRun(employees, Pagination(m + 1, d, n));
      assert (m + 1 - 1) * d == m * d;
    }
  }

  /** No record is on two pages: two pages whose runs both cover index `i`
      are the same page. */
  lemma RecordOnOnePage(itemsPerPage: int, i: int, q1: int, q2: int)
    requires itemsPerPage > 0
    requires (q1 - 1) * itemsPerPage <= i < (q1 - 1) * itemsPerPage + itemsPerPage
    requires (q2 - 1) * itemsPerPage <= i < (q2 - 1) * itemsPerPage + itemsPerPage
    ensures q1 == q2
  {
    var d := itemsPerPage;
    if q1 < q2 {
      assert (q1 - 1) * d + d == q1 * d;
      MulMonotone(q1, q2 - 1, d);
      assert false;
    } else if q2 < q1 {
      assert (q2 - 1) * d + d == q2 * d;
      MulMonotone(q2, q1 - 1, d);
      assert false;
    }
  }

  /** After `addEmployee` the page shown ends with the new record. */
  lemma AddedIsOnCurrentPage(s: State, employee: Record, id: string, createdAt: string)
    requires s.pagination.itemsPerPage > 0
    ensures var r := AddEmployee(s, employee, id, createdAt);
      var page := Page(r.employees, r.pagination);
      page != [] && page[|page| - 1] == Stamped(employee, id, createdAt)
  {
    var r := AddEmployee(s, employee, id, createdAt);
    var n := |s.employees|;
    var start := (r.pagination.currentPage - 1) * r.pagination.itemsPerPage;
    assert 0 <= start <= n < start + r.pagination.itemsPerPage by {
      LastPageStart(n, s.pagination.itemsPerPage);
    }
    assert Page(r.employees, r.pagination) == r.employees[start..n + 1] by {
      PageIsRun(r.employees, r.pagination);
    }
  }

  /** When the list filled `m` whole pages, the added record is alone on the
      new last page `m + 1`. */
  lemma AddedOpensPage(s: State, employee: Record, id: string, createdAt: string, m: nat)
    requires s.pagination.itemsPerPage > 0 && |s.employees| == m * s.pagination.itemsPerPage
    ensures var r := AddEmployee(s, employee, id, createdAt);
      r.pagination.currentPage == m + 1 && Page(r.employees, r.pagination) == [Stamped(employee, id, createdAt)]
  {
    var r := AddEmployee(s, employee, id, createdAt);
    var n := |s.employees|;
    assert r.pagination.currentPage == m + 1 by {
      FullPagesStart(m, s.pagination.itemsPerPage);
    }
    assert Page(r.employees, r.pagination) == r.employees[n..n + 1] by {
      PageIsRun(r.employees, r.pagination);
    }
  }

  /** The last page of `n + 1` records starts at or before the last record
      and ends after it. */
  lemma LastPageStart(n: nat, d: nat)
    requires d > 0
    ensures var q := CeilDiv(n + 1, d);
      q >= 1 && 0 <= (q - 1) * d <= n < (q - 1) * d + d
  {
    var q := CeilDiv(n + 1, d);
    assert (q - 1) * d == q * d - d;
  }

  /** After `m` full pages, record number `m * d + 1` opens page `m + 1`. */
  lemma FullPagesStart(m: nat, d: nat)
    requires d > 0
    ensures CeilDiv(m * d + 1, d) == m + 1
  {
    var q := CeilDiv(m * d + 1, d);
    if q <= m {
      MulMonotone(q, m, d);
      assert false;
    } else if q > m + 1 {
      assert (m + 2) * d == m * d + d + d;
      MulMonotone(m + 2, q, d);
      assert false;
    }
  }

  lemma MulMonotone(a: int, b: int, d: nat)
    requires a <= b
    ensures a * d <= b * d
  {
  }

  /** Eleven `addEmployee` calls on a fresh store (ten per page) move to page 2,
      which holds exactly the eleventh employee. */
  lemma ElevenAdds(documentLang: string, ops: seq<Mutation>)
    requires |ops| == 11 && forall i :: 0 <= i < |ops| ==> ops[i].AddOp?
    ensures var r := Replay(Initial(documentLang), ops);
      && r.pagination.currentPage == 2
      && Page(r.employees, r.pagination) == [Stamped(ops[10].employee, ops[10].id, ops[10].createdAt)]
  {
    var s0 := Initial(documentLang);
    var first := ops[..10];
    assert ops == first + [ops[10]];
    ReplaySnoc(s0, first, ops[10]);
    var s10 := Replay(s0, first);
    ReplayAddsCount(s0, first);
    assert |s10.employees| == 10 && s10.pagination.itemsPerPage == 10;
    AddedOpensPage(s10, ops[10].employee, ops[10].id, ops[10].createdAt, 1);
  }

  /** Which of the three bodies `render` produces. */
  datatype Rendered = Rendered(emptyState: bool, listView: bool, tableView: bool)

  /** The render choice: the empty state for a missing or empty list,
      otherwise the layout the view names (none for any other view value). */
  function Shown(employees: Option<seq<Record>>, view: ViewMode): Rendered {
    var hasRows := employees.Some? && |employees.value| > 0;
    Rendered(!hasRows, hasRows && view == ListMode, hasRows && view == TableMode)
  }

  /** At most one body is rendered; the empty state follows the whole list,
      not the page, and each layout appears exactly when the list has rows
      and the view names it. */
  lemma ShownExclusive(employees: Option<seq<Record>>, view: ViewMode)
    ensures var r := Shown(employees, view);
      && (r.emptyState <==> employees.None? || employees.value == [])
      && (r.listView <==> !r.emptyState && view == ListMode)
      && (r.tableView <==> !r.emptyState && view == TableMode)
      && (r.emptyState ==> !r.listView && !r.tableView)
      && !(r.listView && r.tableView)
      && (!r.emptyState && (view == ListMode || view == TableMode) ==> r.listView || r.tableView)
  {
  }

  /** The page component's copy of the store's slices. */
  class EmployeeListView {
    var employees: Option<seq<Record>>
    var pagination: Option<Pagination>
    var view: ViewMode
    /** Empty until the first notification. */
    var language: string
    /** The store subscription this component holds. */
    const subscription: ListenerId

    /** Copies the store's slices and subscribes `callback`, which the store
        invokes as `OnStoreState`. */
    constructor (store: Store.EmployeeStore, callback: ListenerId)
      requires store.Valid()
      modifies store`listeners
      ensures employees == Some(store.state.employees) && pagination == Some(store.state.pagination)
      ensures view == store.state.view && language == "" && subscription == callback
      ensures store.Valid() && store.listeners == Added(old(store.listeners), callback)
    {
      var initialState := store.state;
      employees := Some(initialState.employees);
      pagination := Some(initialState.pagination);
      view := initialState.view;
      language := "";
      subscription := callback;
      new;
      var _ := store.Subscribe(callback);
    }

    /** The store listener: take over every slice that changed. */
    method OnStoreState(state: State)
      modifies this`employees, this`pagination, this`view, this`language
      ensures employees == Some(state.employees) && pagination == Some(state.pagination)
      ensures view == state.view && language == state.language
    {
      if employees != Some(state.employees) {
        employees := Some(state.employees);
      }
      if language != state.language {
        language := state.language;
      }
      if pagination != Some(state.pagination) {
        pagination := Some(state.pagination);
      }
      if view != state.view {
        view := state.view;
      }
    }

    /** `disconnectedCallback`: drop the store subscription. */
    method Disconnect(store: Store.EmployeeStore)
      requires store.Valid()
      modifies store`listeners
      ensures store.Valid() && subscription !in store.listeners
      ensures store.listeners == Removed(old(store.listeners), subscription)
    {
      var _ := store.Unsubscribe(subscription);
    }

    /** `_getEmployeesToBeListed`. */
    method EmployeesToBeListed() returns (page: seq<Record>)
      ensures page == PageOf(employees, pagination)
      ensures pagination.Some? && pagination.value.currentPage >= 1 && pagination.value.itemsPerPage >= 0
        ==> |page| <= pagination.value.itemsPerPage
    {
      if employees.None? || pagination.None? {
        return [];
      }
      var currentPage, itemsPerPage := pagination.value.currentPage, pagination.value.itemsPerPage;
      var startIndex := (currentPage - 1) * itemsPerPage;
      var endIndex := startIndex + itemsPerPage;
      page := Slice(employees.value, startIndex, endIndex);
      if currentPage >= 1 && itemsPerPage >= 0 {
        PageIsRun(employees.value, pagination.value);
      }
    }

    /** `render`: the body chosen and the rows handed to the layout. */
    method Render() returns (shown: Rendered, rows: seq<Record>)
      ensures shown == Shown(employees, view) && rows == PageOf(employees, pagination)
      ensures shown.emptyState <==> employees.None? || employees.value == []
    {
      rows := EmployeesToBeListed();
      var hasRows := employees.Some? && |employees.value| > 0;
      shown := Rendered(!hasRows, hasRows && view == ListMode, hasRows && view == TableMode);
    }
  }
}
