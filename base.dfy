/** Vocabulary shared by every part of the model: optional values, record ids and time. */
module Base {

  /** A value that may be absent: JavaScript's `undefined` / `null` on one side, a value on the other. */
  datatype Option<+T> = None | Some(value: T)

  /** A store-assigned record id (a MongoDB ObjectId). Ids are handed out in insertion order. */
  type Id = nat

  /** A point in time in milliseconds since the epoch, as `Date.now()` gives it. */
  type Ms = int

  /** A calendar day; stands for the string `new Date().toDateString()`. */
  type Day = int

  /** JavaScript truthiness of an optional form field: absent and empty are both falsy. */
  predicate Present(field: Option<string>)
  {
    field.Some? && field.value != ""
  }
}
