/** JavaScript values as the roster application uses them.

    Every record the application handles (an employee, an update patch, the
    object built by the form) is a plain JavaScript object whose properties
    hold a string, `null` or `undefined`. Such an object is a map from
    property names to `Field`s; a property that is absent reads as
    `undefined`, and `{...a, ...b}` is the map union `a + b`.
 */
module Values {

  datatype Option<+T> = None | Some(value: T)

  /** One property value of a record. */
  datatype Field = Str(s: string) | Null | Undefined

  type Record = map<string, Field>

  /** JavaScript truthiness of a property value: only a non-empty string is truthy. */
  predicate Truthy(v: Field) {
    v.Str? && v.s != ""
  }

  /** Reading `obj[key]`: an absent property is `undefined`. */
  function Get(obj: Record, key: string): (v: Field)
    ensures key !in obj ==> v == Undefined
    ensures key in obj ==> v == obj[key]
  {
    if key in obj then obj[key] else Undefined
  }

  /** `selected?.[key]`: `undefined` when nothing is selected. */
  function Lookup(selected: Option<Record>, key: string): Field {
    if selected.Some? then Get(selected.value, key) else Undefined
  }

  /** The `id` property of a record, as `emp.id` reads it. */
  function IdOf(emp: Record): Field {
    Get(emp, "id")
  }

  /** `value || ''`: the string itself when it is truthy, otherwise the empty string. */
  function TextOr(v: Field): (r: string)
    ensures Truthy(v) ==> r == v.s
    ensures !Truthy(v) ==> r == ""
  {
    if v.Str? then v.s else ""
  }
}
