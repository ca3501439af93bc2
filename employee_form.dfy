/** The add / edit dialog (src/components/employee-form/index.js): the
    form's data, the record built from it on submit, and the decision to
    reject, update or add. */
module EmployeeForm {

  import opened Values
  import opened Strings
  import opened StoreState
  import opened Listeners
  import opened Validators
  import Store

  /** Typed in free text and trimmed on submit. */
  const TextFields: set<string> := {"firstName", "lastName", "phoneNumber", "email"}
  /** Edited as `yyyy-mm-dd` and stored as ISO timestamps. */
  const DateFields: set<string> := {"dateOfEmployment", "dateOfBirth"}
  /** Picked from a list and passed on as they are. */
  const ChoiceFields: set<string> := {"department", "position"}

  const FormFields: set<string> := TextFields + DateFields + ChoiceFields

  /** No field is of two kinds. */
  lemma KindsDisjoint()
    ensures TextFields !! DateFields && TextFields !! ChoiceFields && DateFields !! ChoiceFields
  {
  }

  /** `v ? v.split('T')[0] : ''`: the date part of a stored timestamp,
      written as the text before the first `T` (see `DatePartIsSplitHead`). */
  function DatePart(v: Field): string {
    if Truthy(v) then v.s[..FirstIndexOf(v.s, 'T')] else ""
  }

  /** The date part is the first piece of splitting at `T`: a prefix of the
      timestamp without a `T`, followed by a `T` or by nothing. */
  lemma DatePartIsSplitHead(v: Field)
    ensures !Truthy(v) ==> DatePart(v) == ""
    ensures Truthy(v) ==> DatePart(v) == Split(v.s, 'T')[0]
    ensures Truthy(v) ==> StartsWith(v.s, DatePart(v)) && 'T' !in DatePart(v)
    ensures Truthy(v) && |DatePart(v)| < |v.s| ==> v.s[|DatePart(v)|] == 'T'
  {
    if Truthy(v) {
      SplitHead(v.s, 'T');
    }
  }

  /** What `setFormData` puts in one field of the form. */
  function FormValue(current: Option<Record>, key: string): Field {
    if key in DateFields then Str(DatePart(Lookup(current, key))) else Str(TextOr(Lookup(current, key)))
  }

  /** The form data `setFormData` builds for a selection (or for none). */
  function FormDataFor(current: Option<Record>): Record {
    map k | k in FormFields :: FormValue(current, k)
  }

  /** Every field of the form is a string: without a selection the empty
      string; for a date field the part of the stored timestamp before its
      first `T`; for the others the stored value, or the empty string when
      that is falsy. */
  lemma FormValueShape(current: Option<Record>, key: string)
    ensures current.None? ==> FormValue(current, key) == Str("")
    ensures key !in DateFields ==>
      FormValue(current, key) == Str(if Truthy(Lookup(current, key)) then Lookup(current, key).s else "")
    ensures key in DateFields ==>
      && FormValue(current, key).Str?
      && StartsWith(TextOr(Lookup(current, key)), FormValue(current, key).s)
      && 'T' !in FormValue(current, key).s
  {
    DatePartIsSplitHead(Lookup(current, key));
  }

  /** `value?.trim()`: `undefined` for a missing or null value. */
  function Trimmed(v: Field): Field {
    if v.Str? then Str(Trim(v.s)) else Undefined
  }

  /** `value ? new Date(value).toISOString() : null`; the conversion is the
      parameter `isoDate`. */
  function IsoOrNull(v: Field, isoDate: string -> string): Field {
    if Truthy(v) then Str(isoDate(v.s)) else Null
  }

  /** What `_handleSubmit` puts under one key of the record. */
  function SubmittedValue(form: Record, key: string, isoDate: string -> string): Field {
    if key in TextFields then Trimmed(Get(form, key))
    else if key in DateFields then IsoOrNull(Get(form, key), isoDate)
    else Get(form, key)
  }

  /** The record `_handleSubmit` validates and stores: one value per form field. */
  function SubmittedRecord(form: Record, isoDate: string -> string): Record {
    map k | k in FormFields :: SubmittedValue(form, k, isoDate)
  }

  /** A string is tidy when it is non-empty and neither starts nor ends with white space. */
  predicate Tidy(v: Field) {
    Truthy(v) && !IsJsWhitespace(v.s[0]) && !IsJsWhitespace(v.s[|v.s| - 1])
  }

  /** Text fields are trimmed (`undefined` when they were missing), date
      fields become `null` exactly when empty, and the choices pass as they are. */
  lemma SubmittedValueShape(form: Record, key: string, isoDate: string -> string)
    ensures var v := SubmittedValue(form, key, isoDate);
      key in TextFields ==>
        && (v == Undefined <==> !Get(form, key).Str?)
        && (v.Str? ==> v.s == "" || (!IsJsWhitespace(v.s[0]) && !IsJsWhitespace(v.s[|v.s| - 1])))
        && (Tidy(Get(form, key)) ==> v == Get(form, key))
    ensures key in DateFields ==> (SubmittedValue(form, key, isoDate) == Null <==> !Truthy(Get(form, key)))
    ensures key in ChoiceFields ==> SubmittedValue(form, key, isoDate) == Get(form, key)
  {
    if key in TextFields && Tidy(Get(form, key)) {
      TrimUnchanged(Get(form, key).s);
    }
  }

  /** What an unedited form needs of a stored value to give it back on
      submit: a tidy string for a text or choice field; for a date field a
      timestamp with a non-empty date part that the date conversion maps
      back to the timestamp. */
  predicate SurvivesEdit(employee: Record, key: string, isoDate: string -> string) {
    && key in employee
    && (key in DateFields ==>
          Truthy(employee[key]) && DatePart(employee[key]) != "" && isoDate(DatePart(employee[key])) == employee[key].s)
    && (key !in DateFields ==> Tidy(employee[key]))
  }

  /** Submitting the unedited form of an employee gives back every stored
      value that survives the edit. */
  lemma EditUnchanged(employee: Record, key: string, isoDate: string -> string)
    requires key in FormFields && SurvivesEdit(employee, key, isoDate)
    ensures SubmittedRecord(FormDataFor(Some(employee)), isoDate)[key] == employee[key]
  {
    var form := FormDataFor(Some(employee));
    var shown := FormValue(Some(employee), key);
    assert Get(form, key) == shown;
    assert SubmittedRecord(form, isoDate)[key] == SubmittedValue(form, key, isoDate);
    var v := employee[key];
    if key in DateFields {
      assert key !in TextFields by {
        KindsDisjoint();
      }
      assert SubmittedValue(form, key, isoDate) == IsoOrNull(Str(DatePart(v)), isoDate);
    } else {
      assert shown == v;
      if key in TextFields {
        assert SubmittedValue(form, key, isoDate) == Trimmed(v) == v by {
          TrimUnchanged(v.s);
        }
      }
    }
  }

  /** Submitting an empty form fails with a "required" error on every field. */
  lemma EmptyFormRejected(isoDate: string -> string, messages: Messages)
    ensures ExpectedErrors(SubmittedRecord(FormDataFor(None), isoDate), messages)
      == map k | k in FormFields :: messages.required
  {
    var r := SubmittedRecord(FormDataFor(None), isoDate);
    assert Trim("") == "";
    forall k | k in r
      ensures !Truthy(r[k])
    {
      assert Get(FormDataFor(None), k) == Str("");
    }
    AllFalsyRequired(r, messages);
  }

  /** The store state after the accepted record is saved: an update of the
      selected employee's id, or an addition. */
  function SubmittedState(s: State, current: Option<Record>, record: Record, id: string, createdAt: string): (r: State)
    requires current.None? ==> s.pagination.itemsPerPage > 0
    ensures current.Some? ==> r.employees == MergedById(s.employees, IdOf(current.value), record)
    ensures current.None? ==> r.employees == s.employees + [Stamped(record, id, createdAt)]
  {
    match current
    case Some(e) => UpdateEmployee(s, IdOf(e), record)
    case None => AddEmployee(s, record, id, createdAt)
  }

  class EmployeeFormModal {
    var currentEmployee: Option<Record>
    var language: string
    var errors: map<string, string>
    var formData: Record
    const subscription: ListenerId

    /** Starts without a selection, errors or data, and subscribes `callback`,
        which the store invokes as `OnStoreState`. */
    constructor (store: Store.EmployeeStore, callback: ListenerId)
      requires store.Valid()
      modifies store`listeners
      ensures currentEmployee == None && errors == map[] && formData == FormDataFor(None)
      ensures subscription == callback
      ensures store.Valid() && store.listeners == Added(old(store.listeners), callback)
    {
      currentEmployee := None;
      language := "";
      errors := map[];
      formData := map[];
      subscription := callback;
      new;
      var _ := store.Subscribe(callback);
      SetFormData(currentEmployee);
    }

    /** `setFormData`. */
    method SetFormData(current: Option<Record>)
      modifies this`formData
      ensures formData == FormDataFor(current)
    {
      formData := FormDataFor(current);
    }

    /** The store listener together with `updated`: take over the selection and
        the language, and refill the form when the selection changed. */
    method OnStoreState(state: State)
      modifies this`currentEmployee, this`language, this`formData
      ensures currentEmployee == state.currentEmployee && language == state.language
      ensures formData == if old(currentEmployee) != state.currentEmployee then FormDataFor(state.currentEmployee) else old(formData)
    {
      var changed := currentEmployee != state.currentEmployee;
      if changed {
        currentEmployee := state.currentEmployee;
      }
      if language != state.language {
        language := state.language;
      }
      if changed {
        SetFormData(currentEmployee);
      }
    }

    /** `disconnectedCallback`. */
    method Disconnect(store: Store.EmployeeStore)
      requires store.Valid()
      modifies store`listeners
      ensures store.Valid() && store.listeners == Removed(old(store.listeners), subscription)
    {
      var _ := store.Unsubscribe(subscription);
    }

    /** `_handleInputChange`: only the named field takes the typed value. */
    method HandleInputChange(field: string, value: string)
      modifies this`formData
      ensures Get(formData, field) == Str(value)
      ensures forall k :: k != field ==> Get(formData, k) == Get(old(formData), k)
      ensures formData.Keys == old(formData).Keys + {field}
    {
      formData := formData[field := Str(value)];
    }

    /** `_closeModal`: close the dialog in the store, then empty the form. */
    method CloseModal(store: Store.EmployeeStore)
      modifies this`formData, store`state, store`events, store`storage
      ensures store.state == StoreState.CloseModal(old(store.state), AddEditModal)
      ensures store.Published(old(store.events))
      ensures formData == FormDataFor(None)
    {
      store.CloseModal(AddEditModal);
      SetFormData(None);
    }

    /** `_handleCancel`. */
    method HandleCancel(store: Store.EmployeeStore)
      modifies this`formData, store`state, store`events, store`storage
      ensures store.state == StoreState.CloseModal(old(store.state), AddEditModal)
      ensures store.state.employees == old(store.state.employees) && store.state.pagination == old(store.state.pagination)
      ensures store.Published(old(store.events))
      ensures formData == FormDataFor(None)
    {
      CloseModal(store);
    }

    /** The accepting half of `_handleSubmit`: exactly one store call (update
        the selected employee or add a new one), then close the dialog. */
    method Save(store: Store.EmployeeStore, record: Record, id: string, createdAt: string)
      requires currentEmployee.None? ==> store.state.pagination.itemsPerPage > 0
      modifies this`formData, store`state, store`events, store`storage
      ensures var saved := SubmittedState(old(store.state), currentEmployee, record, id, createdAt);
        && formData == FormDataFor(None)
        && store.state == StoreState.CloseModal(saved, AddEditModal)
        && store.events == old(store.events)
             + Store.Deliveries(store.listeners, saved) + [Store.Saved(saved)]
             + Store.Deliveries(store.listeners, store.state) + [Store.Saved(store.state)]
    {
      if currentEmployee.Some? {
        store.UpdateEmployee(IdOf(currentEmployee.value), record);
      } else {
        var _ := store.AddEmployee(record, id, createdAt);
      }
      CloseModal(store);
    }

    /** `_handleSubmit`: build the record, validate it, and either show the
        errors without touching the store, or save the record and close the
        dialog. The messages are the translations of the three validation
        keys; `id` and `createdAt` are what the store assigns to a new record. */
    method HandleSubmit(store: Store.EmployeeStore, messages: Messages, isoDate: string -> string, id: string, createdAt: string)
      requires currentEmployee.None? ==> store.state.pagination.itemsPerPage > 0
      modifies this`errors, this`formData, store`state, store`events, store`storage
      ensures var found := ExpectedErrors(SubmittedRecord(old(formData), isoDate), messages);
        found != map[] ==>
          && errors == found && formData == old(formData)
          && store.state == old(store.state) && store.events == old(store.events) && store.storage == old(store.storage)
      ensures var record := SubmittedRecord(old(formData), isoDate);
        var saved := SubmittedState(old(store.state), currentEmployee, record, id, createdAt);
        ExpectedErrors(record, messages) == map[] ==>
          && errors == old(errors) && formData == FormDataFor(None)
          && store.state == StoreState.CloseModal(saved, AddEditModal)
          && store.events == old(store.events)
               + Store.Deliveries(store.listeners, saved) + [Store.Saved(saved)]
               + Store.Deliveries(store.listeners, store.state) + [Store.Saved(store.state)]
    {
      var employee := SubmittedRecord(formData, isoDate);
      var found := ValidateEmployeeForm(employee, messages);
      if |found| > 0 {
        errors := found;
        return;
      }
      assert found == map[];
      Save(store, employee, id, createdAt);
    }
  }
}
