/** The date picker of components/picker.tsx: which calendar days it
    disables, what its trigger button shows, and how a chosen day is written
    into the owning form's state under the bound field name. */
module Picker {
  import opened Wrappers
  import opened Values

  // ---------------------------------------------------------------------
  // Timestamps

  const MsPerDay: int := 86400000

  /** Days from 1970-01-01 to the given proleptic Gregorian date (the
      civil-to-days conversion behind `Date.UTC`). */
  function DaysFromCivil(year: int, month: int, day: int): int
    requires 1 <= month <= 12
  {
    var y := if month <= 2 then year - 1 else year;
    var era := y / 400;
    var yoe := y - era * 400;
    var doy := (153 * (if month > 2 then month - 3 else month + 9) + 2) / 5 + day - 1;
    var doe := yoe * 365 + yoe / 4 - yoe / 100 + doy;
    era * 146097 + doe - 719468
  }

  /** `new Date("yyyy-mm-dd")`: a date-only ISO string is read as UTC
      midnight of that day. */
  function UtcMidnight(year: int, month: int, day: int): int
    requires 1 <= month <= 12
  {
    DaysFromCivil(year, month, day) * MsPerDay
  }

  /** `new Date("1900-01-01")`. */
  const Year1900: int := UtcMidnight(1900, 1, 1)

  /** The lower bound is 25567 days, that is 2208988800000 ms, before the
      Unix epoch. */
  lemma Year1900Value()
    ensures UtcMidnight(1970, 1, 1) == 0
    ensures Year1900 == -25567 * MsPerDay == -2208988800000
  {
  }

  // ---------------------------------------------------------------------
  // The disablement policy

  /** The `disabled` callback given to the calendar. JavaScript compares
      two `Date`s with `<` by their millisecond timestamps; `now` is the
      timestamp of `new Date()` at the time of the call. */
  predicate Disabled(disablePast: bool, now: int, day: int)
    ensures disablePast ==> (Disabled(disablePast, now, day) <==> day < now)
    ensures !disablePast ==> (Disabled(disablePast, now, day) <==> day < -2208988800000)
  {
    if disablePast then day < now else day < Year1900
  }

  /** The disabled days are everything before one cut-off: `now` under the
      past policy, 1900-01-01 otherwise. The cut-off itself is enabled. */
  lemma CutOff(disablePast: bool, now: int)
    ensures var cut := if disablePast then now else Year1900;
      && !Disabled(disablePast, now, cut)
      && forall day :: Disabled(disablePast, now, day) <==> day < cut
  {
  }

  /** A day before a disabled day is disabled too. */
  lemma DisabledDownwardClosed(disablePast: bool, now: int, day: int, earlier: int)
    requires Disabled(disablePast, now, day) && earlier <= day
    ensures Disabled(disablePast, now, earlier)
  {
  }

  /** Once `now` is on or after 1900-01-01, every day disabled under the
      default policy is disabled under the past policy too. */
  lemma DefaultPolicyWithinPastPolicy(now: int, day: int)
    requires now >= Year1900
    requires Disabled(false, now, day)
    ensures Disabled(true, now, day)
  {
  }

  /** Before 1900 the two policies differ: with `now` earlier than the
      bound, a day between `now` and the bound is disabled only by the
      default policy. */
  lemma PoliciesDifferBefore1900(now: int)
    requires now < Year1900
    ensures Disabled(false, now, now) && !Disabled(true, now, now)
  {
  }

  // ---------------------------------------------------------------------
  // The trigger button

  const PlaceholderText := "Pick a date"

  /** What the trigger shows: the formatted field value, or the
      placeholder. */
  datatype Label = Formatted(value: FieldValue) | Placeholder

  /** `fieldValue ? format(fieldValue, "PPP") : "Pick a date"`. The
      placeholder appears exactly for the falsy values a field can hold:
      `undefined` and the empty string. */
  function Trigger(v: FieldValue): (r: Label)
    ensures r == Placeholder <==> (v == Unset || v == Text(""))
    ensures r.Formatted? ==> r.value == v
  {
    if Truthy(v) then Formatted(v) else Placeholder
  }

  /** The trigger's text; `format` stands for date-fns `format(_, "PPP")`,
      whose output depends on the locale. */
  function LabelText(l: Label, format: FieldValue -> string): (text: string)
    ensures l == Placeholder ==> text == "Pick a date"
    ensures l.Formatted? ==> text == format(l.value)
  {
    match l
    case Formatted(v) => format(v)
    case Placeholder => PlaceholderText
  }

  /** The text on the trigger button for the field value `v`: the
      placeholder exactly for the falsy values, otherwise the formatted
      value itself. */
  function TriggerText(v: FieldValue, format: FieldValue -> string): (text: string)
    ensures (v == Unset || v == Text("")) ==> text == "Pick a date"
    ensures !(v == Unset || v == Text("")) ==> text == format(v)
  {
    LabelText(Trigger(v), format)
  }

  /** The day the calendar marks as selected:
      `fieldValue ? new Date(fieldValue) : undefined`. The mark is always a
      `Date`: a copy of the same instant for a `Date` value, the parsed date
      for a string; `parse` stands for the string form of `new Date`. */
  function SelectedDay(v: FieldValue, parse: string -> DateValue): (r: Option<DateValue>)
    ensures r.None? <==> Trigger(v) == Placeholder
    ensures v.When? ==> r == Some(v.date)
    ensures v.Text? && v.s != "" ==> r == Some(parse(v.s))
  {
    match v
    case Unset => None
    case Text(s) => if s == "" then None else Some(parse(s))
    case When(d) => Some(d)
  }

  // ---------------------------------------------------------------------
  // Reading and writing the bound field

  /** `form.getValues(name)`: a name the form has never been given reads
      as `undefined`. */
  function Read(values: map<string, FieldValue>, name: string): (v: FieldValue)
    ensures name !in values ==> v == Unset
    ensures name in values ==> v == values[name]
  {
    if name in values then values[name] else Unset
  }

  /** The value `onSelect` receives: the chosen day, or `undefined` when
      the selected day is clicked again and deselected. */
  function Chosen(day: Option<int>): (v: FieldValue)
    ensures Truthy(v) <==> day.Some?
  {
    match day
    case Some(ms) => When(At(ms))
    case None => Unset
  }

  /** After `form.setValue(name, v)`, reading `name` gives `v`, reading any
      other name gives what it gave before, and the trigger follows the new
      value. */
  lemma ReadAfterWrite(values: map<string, FieldValue>, name: string, v: FieldValue, other: string)
    ensures Read(values[name := v], name) == v
    ensures other != name ==> Read(values[name := v], other) == Read(values, other)
    ensures Trigger(Read(values[name := v], name)) == Trigger(v)
  {
  }

  /** Choosing a day shows that day on the trigger; deselecting shows the
      placeholder. */
  lemma TriggerAfterSelect(values: map<string, FieldValue>, name: string, day: Option<int>)
    ensures day.Some? ==> Trigger(Read(values[name := Chosen(day)], name)) == Formatted(When(At(day.value)))
    ensures day.None? ==> Trigger(Read(values[name := Chosen(day)], name)) == Placeholder
  {
  }

  /** After choosing a day the trigger reads that day, formatted; after
      deselecting it reads "Pick a date". */
  lemma TriggerTextAfterSelect(values: map<string, FieldValue>, name: string, day: Option<int>, format: FieldValue -> string)
    ensures day.Some? ==> TriggerText(Read(values[name := Chosen(day)], name), format) == format(When(At(day.value)))
    ensures day.None? ==> TriggerText(Read(values[name := Chosen(day)], name), format) == "Pick a date"
  {
  }

  /** After choosing a day, the calendar marks that very day; after
      deselecting, it marks none. */
  lemma SelectedAfterSelect(values: map<string, FieldValue>, name: string, day: Option<int>, parse: string -> DateValue)
    ensures day.Some? ==> SelectedDay(Read(values[name := Chosen(day)], name), parse) == Some(At(day.value))
    ensures day.None? ==> SelectedDay(Read(values[name := Chosen(day)], name), parse) == None
  {
  }

  /** The owning form's state as the picker sees it: the field values by
      name. The picker keeps no copy; every read goes to `values`. */
  class BoundForm {
    var values: map<string, FieldValue>

    constructor (values: map<string, FieldValue>)
      ensures this.values == values
    {
      this.values := values;
    }

    /** The value shown for the field `name`, read afresh on each render. */
    function Value(name: string): (v: FieldValue)
      reads this
      ensures name !in values ==> v == Unset
      ensures name in values ==> v == values[name]
    {
      Read(values, name)
    }

    /** `onSelect`: `form.setValue(name, date)`. Exactly the bound field
        changes, and the day is written as chosen, without any check. */
    method Select(name: string, day: Option<int>)
      modifies this
      ensures values == old(values)[name := Chosen(day)]
      ensures Value(name) == Chosen(day)
      ensures forall other :: other != name ==> Value(other) == old(Value(other))
    {
      values := values[name := Chosen(day)];
    }
  }
}
