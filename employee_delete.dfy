/** The delete confirmation dialog (src/components/employee-delete/index.js):
    the name it asks about, and the two buttons, which either delete the
    selected employee and close the dialog or only close it. */
module EmployeeDelete {

  import opened Values
  import opened Strings
  import opened StoreState
  import opened Listeners
  import Store
  import I18n

  /** `[firstName, lastName].join(' ')` after destructuring with `''` defaults:
      a missing, `undefined` or `null` name part contributes nothing. */
  function FullName(current: Option<Record>): string {
    TextOr(Lookup(current, "firstName")) + " " + TextOr(Lookup(current, "lastName"))
  }

  /** The name always holds the separating space; without a selection it is
      just that space, and when neither part holds a space splitting the name
      at spaces gives the two parts back. */
  lemma FullNameParts(current: Option<Record>)
    ensures ' ' in FullName(current)
    ensures current.None? ==> FullName(current) == " "
    ensures var first, last := TextOr(Lookup(current, "firstName")), TextOr(Lookup(current, "lastName"));
      ' ' !in first && ' ' !in last ==> Split(FullName(current), ' ') == [first, last]
  {
    var first, last := TextOr(Lookup(current, "firstName")), TextOr(Lookup(current, "lastName"));
    assert FullName(current)[|first|] == ' ';
    SplitAtSeparator(first, last, ' ');
  }

  /** The translation variables of the confirmation text. */
  function ConfirmationVariables(current: Option<Record>): seq<(string, string)> {
    [("fullName", FullName(current))]
  }

  /** The store state after a confirmed delete of `id`: no record with the id
      remains, every other record keeps its number of occurrences, the
      pagination invariant holds again, and the selection and the delete
      dialog are cleared. */
  lemma DeleteConfirmed(s: State, id: Field)
    requires Consistent(s)
    ensures var r := StoreState.CloseModal(StoreState.DeleteEmployee(s, id), DeleteModal);
      && (forall i :: 0 <= i < |r.employees| ==> IdOf(r.employees[i]) != id)
      && (forall e :: multiset(r.employees)[e] == if IdOf(e) == id then 0 else multiset(s.employees)[e])
      && Consistent(r)
      && r.currentEmployee == None && DeleteModal in r.modals && !r.modals[DeleteModal]
      && (AtMostOneOpen(s.modals) ==> AtMostOneOpen(r.modals))
      && r.filters == s.filters && r.view == s.view && r.language == s.language
  {
    WithoutIdCounts(s.employees, id);
  }

  class EmployeeDeleteModal {
    var currentEmployee: Option<Record>
    /** Empty until the first notification. */
    var language: string
    /** Empty until the first notification. */
    var modals: map<ModalKind, bool>
    const subscription: ListenerId

    /** Copies the selection and subscribes `callback`, which the store invokes
        as `OnStoreState`. */
    constructor (store: Store.EmployeeStore, callback: ListenerId)
      requires store.Valid()
      modifies store`listeners
      ensures currentEmployee == store.state.currentEmployee && language == "" && modals == map[]
      ensures subscription == callback
      ensures store.Valid() && store.listeners == Added(old(store.listeners), callback)
    {
      currentEmployee := store.state.currentEmployee;
      language := "";
      modals := map[];
      subscription := callback;
      new;
      var _ := store.Subscribe(callback);
    }

    /** The store listener: take over the selection, the language and the dialog flags. */
    method OnStoreState(state: State)
      modifies this`currentEmployee, this`language, this`modals
      ensures currentEmployee == state.currentEmployee && language == state.language && modals == state.modals
    {
      if currentEmployee != state.currentEmployee {
        currentEmployee := state.currentEmployee;
      }
      if language != state.language {
        language := state.language;
      }
      if modals != state.modals {
        modals := state.modals;
      }
    }

    /** `disconnectedCallback`. */
    method Disconnect(store: Store.EmployeeStore)
      requires store.Valid()
      modifies store`listeners
      ensures store.Valid() && store.listeners == Removed(old(store.listeners), subscription)
    {
      var _ := store.Unsubscribe(subscription);
    }

    /** `_handleDelete`: delete every record with the selected employee's id,
        then close the dialog. Without a selection reading `.id` throws before
        the store is touched; `threw` reports that. */
    method HandleDelete(store: Store.EmployeeStore) returns (threw: bool)
      requires currentEmployee.Some? ==> store.state.pagination.itemsPerPage > 0
      modifies store`state, store`events, store`storage
      ensures threw <==> currentEmployee.None?
      ensures threw ==> store.state == old(store.state) && store.events == old(store.events) && store.storage == old(store.storage)
      ensures !threw ==>
        var deleted := StoreState.DeleteEmployee(old(store.state), IdOf(currentEmployee.value));
        && store.state == StoreState.CloseModal(deleted, DeleteModal)
        && store.events == old(store.events)
             + Store.Deliveries(store.listeners, deleted) + [Store.Saved(deleted)]
             + Store.Deliveries(store.listeners, store.state) + [Store.Saved(store.state)]
        && store.storage == Some(store.state)
    {
      if currentEmployee.None? {
        return true;
      }
      threw := false;
      store.DeleteEmployee(IdOf(currentEmployee.value));
      store.CloseModal(DeleteModal);
    }

    /** `_handleCancel`: only the dialog closes; the roster and its pages stay. */
    method HandleCancel(store: Store.EmployeeStore)
      modifies store`state, store`events, store`storage
      ensures store.state == StoreState.CloseModal(old(store.state), DeleteModal)
      ensures store.state.employees == old(store.state.employees) && store.state.pagination == old(store.state.pagination)
      ensures store.Published(old(store.events))
    {
      store.CloseModal(DeleteModal);
    }

    /** The confirmation text `render` shows: the delete message with the
        full name substituted. */
    method ConfirmationText(i18n: I18n.I18nService) returns (text: Option<I18n.Node>)
      ensures text == I18n.Formatted(
        I18n.Translated(i18n.translations, i18n.currentLanguage, "employees.confirmations.delete"),
        ConfirmationVariables(currentEmployee))
    {
      var fullName := TextOr(Lookup(currentEmployee, "firstName")) + " " + TextOr(Lookup(currentEmployee, "lastName"));
      text := i18n.TFormat("employees.confirmations.delete", [("fullName", fullName)]);
    }
  }
}
