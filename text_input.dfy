/** The shared text input (src/components/shared/text-input.js): a `type`
    property restricted to a whitelist of HTML input types, and an input
    handler that keeps the typed value and announces it to the parent. */
module TextInput {

  import opened Values
  import opened StoreState
  import opened Listeners
  import Store

  /** The input types the `type` setter accepts. */
  const ValidTypes: seq<string> := [
    "text", "password", "email", "number", "tel", "url", "search",
    "date", "time", "datetime-local", "month", "week", "color"]

  /** What the `type` setter stores: the value itself when it is on the
      whitelist, otherwise `'text'`. */
  function Normalized(value: string): (r: string)
    ensures r in ValidTypes
    ensures value in ValidTypes ==> r == value
    ensures value !in ValidTypes ==> r == "text"
  {
    if value in ValidTypes then value else "text"
  }

  /** Setting a type that was read back, or setting the same type twice,
      changes nothing; and no whitelisted type is empty. */
  lemma NormalizedIdempotent(value: string)
    ensures Normalized(Normalized(value)) == Normalized(value)
    ensures forall t :: t in ValidTypes ==> t != ""
  {
  }

  /** The `type` getter: `this._type || 'text'`. */
  function TypeOf(stored: Option<string>): (r: string)
    ensures stored.None? ==> r == "text"
    ensures stored.Some? && stored.value != "" ==> r == stored.value
  {
    if stored.Some? && stored.value != "" then stored.value else "text"
  }

  /** Whatever was assigned to `type`, and whether or not anything was, the
      getter returns a whitelisted type; an assigned whitelisted type is
      returned as it is. */
  lemma TypeAfterSet(stored: Option<string>, value: string)
    requires stored.None? || stored.value in ValidTypes
    ensures TypeOf(stored) in ValidTypes
    ensures TypeOf(Some(Normalized(value))) == Normalized(value)
    ensures value in ValidTypes ==> TypeOf(Some(Normalized(value))) == value
  {
  }

  /** The `value-changed` event: the typed value and the input's name. */
  datatype ValueChanged = ValueChanged(value: string, field: string)

  /** The attributes `render` writes onto the `<input>`. */
  datatype RenderedInput = RenderedInput(id: string, name: string, required: bool, inputType: string, value: Option<string>)

  class TextInputView {
    /** The backing field `_type`; absent until the setter runs. */
    var storedType: Option<string>
    var value: Option<string>
    var required: bool
    /** The `input-name` the parent form gives the input. */
    const inputName: string
    var language: string
    /** Every `value-changed` event dispatched so far. */
    var dispatched: seq<ValueChanged>
    const subscription: ListenerId

    ghost predicate Valid()
      reads this
    {
      storedType.None? || storedType.value in ValidTypes
    }

    /** Not required, no type and no value yet; subscribes `callback`, which
        the store invokes as `OnStoreState`. */
    constructor (store: Store.EmployeeStore, callback: ListenerId, inputName: string)
      requires store.Valid()
      modifies store`listeners
      ensures Valid() && storedType == None && value == None && !required
      ensures this.inputName == inputName && dispatched == [] && subscription == callback
      ensures store.Valid() && store.listeners == Added(old(store.listeners), callback)
    {
      storedType := None;
      value := None;
      required := false;
      this.inputName := inputName;
      language := "";
      dispatched := [];
      subscription := callback;
      new;
      var _ := store.Subscribe(callback);
    }

    /** The `type` setter. */
    method SetType(newType: string)
      requires Valid()
      modifies this`storedType
      ensures Valid() && storedType == Some(Normalized(newType))
    {
      var accepted := newType;
      if accepted !in ValidTypes {
        accepted := "text";
      }
      storedType := Some(accepted);
    }

    /** The `type` getter. */
    method GetType() returns (r: string)
      requires Valid()
      ensures r == TypeOf(storedType) && r in ValidTypes
    {
      if storedType.Some? && storedType.value != "" {
        r := storedType.value;
      } else {
        r := "text";
      }
    }

    /** The store listener: take over the language. */
    method OnStoreState(state: State)
      modifies this`language
      ensures language == state.language
    {
      if language != state.language {
        language := state.language;
      }
    }

    /** `disconnectedCallback`. */
    method Disconnect(store: Store.EmployeeStore)
      requires store.Valid()
      modifies store`listeners
      ensures store.Valid() && store.listeners == Removed(old(store.listeners), subscription)
    {
      var _ := store.Unsubscribe(subscription);
    }

    /** `_handleInput`: keep the typed value and dispatch exactly one
        `value-changed` event carrying it and the input's name. */
    method HandleInput(typed: string)
      modifies this`value, this`dispatched
      ensures value == Some(typed)
      ensures dispatched == old(dispatched) + [ValueChanged(typed, inputName)]
    {
      value := Some(typed);
      dispatched := dispatched + [ValueChanged(typed, inputName)];
    }

    /** `render`: id and name are the input's name and the type is the getter's. */
    method Render() returns (r: RenderedInput)
      requires Valid()
      ensures r == RenderedInput(inputName, inputName, required, TypeOf(storedType), value)
      ensures r.inputType in ValidTypes
    {
      var inputType := GetType();
      r := RenderedInput(inputName, inputName, required, inputType, value);
    }
  }
}
