/** Values held by a react-hook-form form state, shared by the appointment
    form and the date picker that writes into it. */
module Values {

  /** A JavaScript `Date`: either a millisecond timestamp since the Unix
      epoch, or an invalid date whose `getTime()` is NaN. */
  datatype DateValue = At(ms: int) | InvalidDate

  /** What a form field can hold: `undefined`, a string typed into an input
      or chosen in a select, or a `Date` chosen in the calendar. */
  datatype FieldValue = Unset | Text(s: string) | When(date: DateValue)

  /** JavaScript truthiness of a field value: `undefined` and `""` are
      falsy; a non-empty string and every `Date` object (valid or not) are
      truthy. */
  predicate Truthy(v: FieldValue)
  {
    match v
    case Unset => false
    case Text(s) => |s| > 0
    case When(_) => true
  }
}
