/** The employee store object (src/services/store/index.js): one mutable
    state record, a set of listeners, and mutators that change the state,
    then hand the new state to every listener and to the storage slot. */
module Store {

  import opened Values
  import opened StoreState
  import opened Listeners

  /** What a notification hands out, in order: the state to each listener,
      then the state written to the storage slot. */
  datatype Event = Delivered(listener: ListenerId, state: State) | Saved(saved: State)

  /** The deliveries of one `forEach` over the listeners, in insertion order. */
  function Deliveries(ls: seq<ListenerId>, s: State): (r: seq<Event>)
    ensures |r| == |ls|
    ensures forall i :: 0 <= i < |ls| ==> r[i] == Delivered(ls[i], s)
  {
    seq(|ls|, i requires 0 <= i < |ls| => Delivered(ls[i], s))
  }

  class EmployeeStore {
    var state: State
    var listeners: seq<ListenerId>
    /** Everything notifications have delivered so far. */
    var events: seq<Event>
    /** The persisted slot: the last state saved, if any. */
    var storage: Option<State>

    ghost predicate Valid()
      reads this
    {
      NoDuplicates(listeners)
    }

    /** The log and the slot after a notification of the current state that
        started from the log `before`. */
    ghost predicate Published(before: seq<Event>)
      reads this
    {
      && events == before + Deliveries(listeners, state) + [Saved(state)]
      && storage == Some(state)
    }

    /** Builds the default state, then loads the stored snapshot over it. */
    constructor (documentLang: string, stored: Option<State>)
      ensures Valid()
      ensures state == Loaded(documentLang, stored) && AllClosed(state.modals)
      ensures listeners == [] && events == [] && storage == stored
    {
      state := Initial(documentLang);
      listeners := [];
      events := [];
      storage := stored;
      new;
      LoadFromStorage();
    }

    /** `loadFromStorage`: replace the state by the stored snapshot with all dialogs closed. */
    method LoadFromStorage()
      modifies this`state
      ensures state == (if storage.Some? then storage.value.(modals := DefaultModals) else old(state))
      ensures storage.Some? ==> AllClosed(state.modals)
    {
      if storage.Some? {
        state := storage.value.(modals := DefaultModals);
      }
    }

    /** `subscribe`: add the listener at most once; the handle unsubscribes it. */
    method Subscribe(listener: ListenerId) returns (handle: ListenerId)
      requires Valid()
      modifies this`listeners
      ensures Valid()
      ensures listeners == Added(old(listeners), listener) && handle == listener
    {
      listeners := Added(listeners, listener);
      handle := listener;
    }

    /** The unsubscribe closure: `listeners.delete(listener)`, which reports
        whether it was a member and is harmless to call again. */
    method Unsubscribe(handle: ListenerId) returns (removed: bool)
      requires Valid()
      modifies this`listeners
      ensures Valid()
      ensures listeners == Removed(old(listeners), handle)
      ensures removed == (handle in old(listeners))
    {
      removed := handle in listeners;
      listeners := Removed(listeners, handle);
    }

    /** `notify`: deliver the state to every listener in insertion order, then save it. */
    method Notify()
      modifies this`events, this`storage
      ensures Published(old(events))
    {
      var i := 0;
      while i < |listeners|
        invariant 0 <= i <= |listeners|
        invariant events == old(events) + Deliveries(listeners[..i], state)
      {
        events := events + [Delivered(listeners[i], state)];
        i := i + 1;
      }
      assert listeners[..i] == listeners;
      events := events + [Saved(state)];
      storage := Some(state);
    }

    /** `getState`: a copy that later mutations cannot affect. */
    method GetState() returns (snapshot: State)
      ensures snapshot == state
    {
      snapshot := state;
    }

    /** `getEmployees`. */
    method GetEmployees() returns (employees: seq<Record>)
      ensures employees == state.employees
    {
      employees := state.employees;
    }

    /** `getCurrentEmployee`. */
    method GetCurrentEmployee() returns (employee: Option<Record>)
      ensures employee == state.currentEmployee
    {
      employee := state.currentEmployee;
    }

    method AddEmployee(employee: Record, id: string, createdAt: string) returns (added: Record)
      requires state.pagination.itemsPerPage > 0
      modifies this`state, this`events, this`storage
      ensures state == StoreState.AddEmployee(old(state), employee, id, createdAt)
      ensures added == Stamped(employee, id, createdAt)
      ensures Published(old(events))
    {
      var newEmployee := employee["id" := Str(id)]["createdAt" := Str(createdAt)];
      state := state.(employees := state.employees + [newEmployee]);
      var newTotalItemsCount := |state.employees|;
      var newTotalPagesCount := PageMath.PagesOrOne(newTotalItemsCount, state.pagination.itemsPerPage);
      state := state.(pagination := state.pagination.(
        totalItems := newTotalItemsCount,
        currentPage := newTotalPagesCount));
      Notify();
      added := newEmployee;
    }

    method UpdateEmployee(id: Field, updates: Record)
      modifies this`state, this`events, this`storage
      ensures state == StoreState.UpdateEmployee(old(state), id, updates)
      ensures Published(old(events))
    {
      state := state.(employees := MergedById(state.employees, id, updates));
      Notify();
    }

    method DeleteEmployee(id: Field)
      requires state.pagination.itemsPerPage > 0
      modifies this`state, this`events, this`storage
      ensures state == StoreState.DeleteEmployee(old(state), id)
      ensures Published(old(events))
    {
      state := state.(employees := WithoutId(state.employees, id));
      var newTotalItemsCount := |state.employees|;
      var newTotalPagesCount := PageMath.PagesOrOne(newTotalItemsCount, state.pagination.itemsPerPage);
      state := state.(pagination := state.pagination.(
        totalItems := newTotalItemsCount,
        currentPage :=
          if newTotalPagesCount < state.pagination.currentPage
          then newTotalPagesCount
          else state.pagination.currentPage));
      Notify();
    }

    method OpenModal(kind: ModalKind, employee: Option<Record>)
      modifies this`state, this`events, this`storage
      ensures state == StoreState.OpenModal(old(state), kind, employee)
      ensures Published(old(events))
    {
      state := state.(currentEmployee := employee);
      state := state.(modals := DefaultModals[kind := employee.Some?]);
      Notify();
    }

    method CloseModal(kind: ModalKind)
      modifies this`state, this`events, this`storage
      ensures state == StoreState.CloseModal(old(state), kind)
      ensures Published(old(events))
    {
      state := state.(currentEmployee := None);
      state := state.(modals := state.modals[kind := false]);
      Notify();
    }

    method UpdateFilters(filters: map<string, string>)
      modifies this`state, this`events, this`storage
      ensures state == StoreState.UpdateFilters(old(state), filters)
      ensures Published(old(events))
    {
      state := state.(filters := state.filters + filters);
      Notify();
    }

    method UpdatePagination(pagination: PaginationPatch)
      modifies this`state, this`events, this`storage
      ensures state == StoreState.UpdatePagination(old(state), pagination)
      ensures Published(old(events))
    {
      state := state.(pagination := Patched(state.pagination, pagination));
      Notify();
    }

    method SetView(view: ViewMode)
      modifies this`state, this`events, this`storage
      ensures state == StoreState.SetView(old(state), view)
      ensures Published(old(events))
    {
      state := state.(view := view);
      Notify();
    }

    method SetLanguage(language: string)
      modifies this`state, this`events, this`storage
      ensures state == StoreState.SetLanguage(old(state), language)
      ensures Published(old(events))
    {
      state := state.(language := language);
      Notify();
    }
  }
}
