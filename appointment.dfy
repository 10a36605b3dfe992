/** The appointment form of app/appointment/page.tsx: the zod schema's six
    field rules, the whole-record validation that react-hook-form runs on
    submit, the confirmation text built by `onSubmit`, and the form state
    that inputs update field by field. */
module Appointment {
  import opened Wrappers
  import opened Values
  import Picker

  /** The six fields of the appointment record. */
  datatype Field =
    | HospitalName
    | ModeOfAppointment
    | PatientName
    | ContactNumber
    | Date
    | Time

  const AllFields: set<Field> :=
    {HospitalName, ModeOfAppointment, PatientName, ContactNumber, Date, Time}

  /** The key under which the form state stores each field. */
  function FieldName(f: Field): (name: string)
    ensures name in FieldNames
  {
    match f
    case HospitalName => "hospitalName"
    case ModeOfAppointment => "modeOfAppointment"
    case PatientName => "patientName"
    case ContactNumber => "contactNumber"
    case Date => "date"
    case Time => "time"
  }

  const FieldNames: set<string> :=
    {"hospitalName", "modeOfAppointment", "patientName", "contactNumber", "date", "time"}

  /** Distinct fields are stored under distinct names. */
  lemma FieldNameInjective(f: Field, g: Field)
    ensures FieldName(f) == FieldName(g) ==> f == g
  {
  }

  /** The two members of the `modeOfAppointment` enumeration. */
  datatype Mode = InPerson | Online

  function ModeToken(m: Mode): (token: string)
    ensures ParseMode(token) == Some(m)
  {
    match m
    case InPerson => "in-person"
    case Online => "online"
  }

  /** Enumeration membership as zod's `z.enum` checks it: only the two exact
      tokens are members; nothing is trimmed, re-cased or defaulted. */
  function ParseMode(s: string): (r: Option<Mode>)
    ensures r.Some? <==> (s == "in-person" || s == "online")
    ensures r.Some? ==> s == match r.value case InPerson => "in-person" case Online => "online"
  {
    if s == "in-person" then Some(InPerson)
    else if s == "online" then Some(Online)
    else None
  }

  /** One validation issue. `Declared` carries a message written in the
      schema; the other three stand for zod's built-in messages (a missing
      value, a value of the wrong type, a string outside the enumeration). */
  datatype Issue =
    | Declared(message: string)
    | Required
    | WrongType
    | InvalidOption

  const HospitalNameRequired := "Hospital name is required"
  const SelectModeMessage := "Please select a mode of appointment."
  const PatientNameRequired := "Patient name is required"
  const ContactNumberRequired := "Contact number is required"
  const ContactNumberDigits := "Contact number must be 10 digits"
  const DateRequired := "Date is required"
  const TimeRequired := "Time is required"

  /** The draft held by the form: every field may hold anything a JavaScript
      form value can, including `undefined`. */
  datatype Draft = Draft(
    hospitalName: FieldValue,
    modeOfAppointment: FieldValue,
    patientName: FieldValue,
    contactNumber: FieldValue,
    date: FieldValue,
    time: FieldValue)

  /** The `defaultValues` given to `useForm`: empty strings for the text
      inputs, `undefined` for the mode and the date. */
  function DefaultDraft(): (d: Draft)
    ensures forall f :: !Truthy(Get(d, f))
  {
    Draft(Text(""), Unset, Text(""), Text(""), Unset, Text(""))
  }

  function Get(d: Draft, f: Field): FieldValue
  {
    match f
    case HospitalName => d.hospitalName
    case ModeOfAppointment => d.modeOfAppointment
    case PatientName => d.patientName
    case ContactNumber => d.contactNumber
    case Date => d.date
    case Time => d.time
  }

  /** The draft after one field's `onChange`: that field holds `v`, every
      other field keeps its value. */
  function With(d: Draft, f: Field, v: FieldValue): (r: Draft)
    ensures Get(r, f) == v
    ensures forall g :: g != f ==> Get(r, g) == Get(d, g)
  {
    match f
    case HospitalName => d.(hospitalName := v)
    case ModeOfAppointment => d.(modeOfAppointment := v)
    case PatientName => d.(patientName := v)
    case ContactNumber => d.(contactNumber := v)
    case Date => d.(date := v)
    case Time => d.(time := v)
  }

  /** The draft as the name-keyed map that the form state exposes to
      `getValues` and `setValue`. */
  function AsMap(d: Draft): (m: map<string, FieldValue>)
    ensures forall f :: FieldName(f) in m && m[FieldName(f)] == Get(d, f)
    ensures m.Keys == FieldNames
  {
    map[FieldName(HospitalName) := d.hospitalName,
        FieldName(ModeOfAppointment) := d.modeOfAppointment,
        FieldName(PatientName) := d.patientName,
        FieldName(ContactNumber) := d.contactNumber,
        FieldName(Date) := d.date,
        FieldName(Time) := d.time]
  }

  // ---------------------------------------------------------------------
  // The schema's rules, one per field

  /** JavaScript's `\d` without the `u` flag: an ASCII decimal digit. */
  predicate IsDigit(c: char)
  {
    '0' <= c <= '9'
  }

  /** Matching `^\d{n}$` from left to right: `n` digits, then the end of
      the input (without the `m` flag `$` matches only at the very end). */
  predicate MatchesDigits(s: string, n: nat)
    decreases n
  {
    if n == 0 then s == []
    else s != [] && IsDigit(s[0]) && MatchesDigits(s[1..], n - 1)
  }

  /** The contact-number pattern `^\d{10}$`. */
  predicate ContactPattern(s: string)
  {
    MatchesDigits(s, 10)
  }

  /** `z.string().nonempty(...)`: a string of length at least one; nothing
      is trimmed. */
  predicate NonEmptyText(v: FieldValue)
  {
    v.Text? && |v.s| >= 1
  }

  /** `z.enum(["in-person", "online"])`. */
  predicate ModeSelected(v: FieldValue)
  {
    v.Text? && ParseMode(v.s).Some?
  }

  /** `z.string().nonempty(...).regex(/^\d{10}$/, ...)`. */
  predicate ContactValid(v: FieldValue)
  {
    v.Text? && |v.s| >= 1 && ContactPattern(v.s)
  }

  /** `z.date().refine(date => !isNaN(date.getTime()))`. */
  predicate DateResolvable(v: FieldValue)
  {
    v.When? && v.date.At?
  }

  /** The rule the schema declares for field `f`. */
  predicate Accepts(f: Field, v: FieldValue)
    ensures Accepts(f, v) ==> Truthy(v)
  {
    match f
    case HospitalName => NonEmptyText(v)
    case ModeOfAppointment => ModeSelected(v)
    case PatientName => NonEmptyText(v)
    case ContactNumber => ContactValid(v)
    case Date => DateResolvable(v)
    case Time => NonEmptyText(v)
  }

  /** The issues of a required non-empty string field. */
  function TextIssues(v: FieldValue, requiredMessage: string): (r: seq<Issue>)
    ensures r == [] <==> NonEmptyText(v)
    ensures v == Text("") ==> r == [Declared(requiredMessage)]
  {
    match v
    case Unset => [Required]
    case When(_) => [WrongType]
    case Text(s) => if |s| == 0 then [Declared(requiredMessage)] else []
  }

  /** The issues zod reports for field `f` holding `v`. String checks all
      run, so an empty contact number gets both of its declared messages;
      which one the page shows is up to react-hook-form. */
  function Issues(f: Field, v: FieldValue): (r: seq<Issue>)
    ensures r == [] <==> Accepts(f, v)
    ensures f == ContactNumber && v.Text? && |v.s| >= 1 && !ContactPattern(v.s) ==>
              r == [Declared(ContactNumberDigits)]
    ensures f == ModeOfAppointment && v == Unset ==> r == [Declared(SelectModeMessage)]
    ensures f == Date && v == When(InvalidDate) ==> r == [Declared(DateRequired)]
  {
    match f
    case HospitalName => TextIssues(v, HospitalNameRequired)
    case PatientName => TextIssues(v, PatientNameRequired)
    case Time => TextIssues(v, TimeRequired)
    case ModeOfAppointment =>
      (match v
       case Unset => [Declared(SelectModeMessage)]
       case When(_) => [WrongType]
       case Text(s) => if ParseMode(s).Some? then [] else [InvalidOption])
    case ContactNumber =>
      (match v
       case Unset => [Required]
       case When(_) => [WrongType]
       case Text(s) =>
         (if |s| == 0 then [Declared(ContactNumberRequired)] else [])
         + (if ContactPattern(s) then [] else [Declared(ContactNumberDigits)]))
    case Date =>
      (match v
       case Unset => [Required]
       case Text(_) => [WrongType]
       case When(d) => if d.At? then [] else [Declared(DateRequired)])
  }

  /** The per-field error map of a draft: exactly the failing fields, each
      with its issues. */
  function Errors(d: Draft): (r: map<Field, seq<Issue>>)
    ensures forall f :: f in r <==> !Accepts(f, Get(d, f))
    ensures forall f :: f in r ==> r[f] == Issues(f, Get(d, f))
  {
    map f | f in AllFields && Issues(f, Get(d, f)) != [] :: Issues(f, Get(d, f))
  }

  // ---------------------------------------------------------------------
  // The validated record

  /** The typed record that validation hands to `onSubmit`; `date` is the
      millisecond timestamp of a valid `Date`. */
  datatype Appointment = Appointment(
    hospitalName: string,
    mode: Mode,
    patientName: string,
    contactNumber: string,
    date: int,
    time: string)

  /** The draft that holds exactly the values of a record. */
  function ToDraft(a: Appointment): Draft
  {
    Draft(Text(a.hospitalName), Text(ModeToken(a.mode)), Text(a.patientName),
          Text(a.contactNumber), When(At(a.date)), Text(a.time))
  }

  /** The records the schema can produce. */
  predicate WellFormed(a: Appointment)
  {
    |a.hospitalName| >= 1 && |a.patientName| >= 1 &&
    ContactPattern(a.contactNumber) && |a.time| >= 1
  }

  /** The six rules of `Accepts` written out field by field. `Validate`
      tests this form rather than `forall f :: Accepts(f, Get(d, f))` so
      that building the record can read each field's payload
      (`d.modeOfAppointment.s`, `d.date.date.ms`) without a quantifier to
      instantiate; `RejectedFieldExists` links the two forms. */
  predicate AllAccepted(d: Draft)
  {
    NonEmptyText(d.hospitalName) && ModeSelected(d.modeOfAppointment) &&
    NonEmptyText(d.patientName) && ContactValid(d.contactNumber) &&
    DateResolvable(d.date) && NonEmptyText(d.time)
  }

  /** A draft that fails the conjunction fails some field's rule. */
  lemma RejectedFieldExists(d: Draft)
    requires !AllAccepted(d)
    ensures exists f :: !Accepts(f, Get(d, f))
  {
    if !NonEmptyText(d.hospitalName) {
      assert !Accepts(HospitalName, Get(d, HospitalName));
    } else if !ModeSelected(d.modeOfAppointment) {
      assert !Accepts(ModeOfAppointment, Get(d, ModeOfAppointment));
    } else if !NonEmptyText(d.patientName) {
      assert !Accepts(PatientName, Get(d, PatientName));
    } else if !ContactValid(d.contactNumber) {
      assert !Accepts(ContactNumber, Get(d, ContactNumber));
    } else if !DateResolvable(d.date) {
      assert !Accepts(Date, Get(d, Date));
    } else {
      assert !Accepts(Time, Get(d, Time));
    }
  }

  /** Whole-record validation (`zodResolver(appointmentSchema)`): the typed
      record when all six rules hold, otherwise the non-empty error map. */
  function Validate(d: Draft): (r: Result<Appointment, map<Field, seq<Issue>>>)
    ensures r.Ok? <==> forall f :: Accepts(f, Get(d, f))
    ensures r.Ok? ==> ToDraft(r.value) == d && WellFormed(r.value)
    ensures r.Err? ==> r.error == Errors(d) && r.error != map[]
  {
    if AllAccepted(d) then
      Ok(Appointment(d.hospitalName.s, ParseMode(d.modeOfAppointment.s).value,
                     d.patientName.s, d.contactNumber.s, d.date.date.ms, d.time.s))
    else
      RejectedFieldExists(d);
      Err(Errors(d))
  }

  /** The `description` of the confirmation toast. `dateString` stands for
      `Date.prototype.toDateString`, whose text depends on the time zone. */
  function Description(a: Appointment, dateString: int -> string): (text: string)
    ensures "Hospital: " + a.hospitalName + ", Mode: " <= text
    ensures |text| >= |a.time| && text[|text| - |a.time|..] == a.time
  {
    "Hospital: " + a.hospitalName + ", Mode: " + ModeToken(a.mode)
    + ", Date: " + dateString(a.date) + ", Time: " + a.time
  }

  // ---------------------------------------------------------------------
  // The form state

  /** The form state that `useForm` owns: the draft, the per-field errors
      of the last submission attempt, and the records handed to `onSubmit`. */
  class Form {
    var draft: Draft
    var errors: map<Field, seq<Issue>>
    var submitted: seq<Appointment>

    constructor ()
      ensures draft == DefaultDraft() && errors == map[] && submitted == []
    {
      draft := DefaultDraft();
      errors := map[];
      submitted := [];
    }

    /** An input's `onChange`: replaces one field of the draft. */
    method SetField(f: Field, v: FieldValue)
      modifies this`draft
      ensures draft == With(old(draft), f, v)
    {
      draft := With(draft, f, v);
    }

    /** `form.handleSubmit(onSubmit)`: validates the whole draft; on success
        clears the errors, hands the record to `onSubmit` once and returns
        the confirmation text; on failure stores the error map and runs
        nothing else. The draft is never changed. */
    method Submit(dateString: int -> string) returns (outcome: Result<string, map<Field, seq<Issue>>>)
      modifies this`errors, this`submitted
      ensures outcome.Ok? <==> Validate(draft).Ok?
      ensures Validate(draft).Ok? ==>
        && outcome == Ok(Description(Validate(draft).value, dateString))
        && errors == map[]
        && submitted == old(submitted) + [Validate(draft).value]
      ensures Validate(draft).Err? ==>
        && outcome == Err(Errors(draft))
        && errors == Errors(draft)
        && submitted == old(submitted)
    {
      var result := Validate(draft);
      match result
      case Ok(record) =>
        errors := map[];
        submitted := submitted + [record];
        outcome := Ok(Description(record, dateString));
      case Err(e) =>
        errors := e;
        outcome := Err(e);
    }
  }

  // ---------------------------------------------------------------------
  // Properties of the schema

  /** `^\d{n}$` holds exactly of the strings of `n` ASCII digits. */
  lemma {:induction false} MatchesDigitsIff(s: string, n: nat)
    ensures MatchesDigits(s, n) <==> |s| == n && forall i :: 0 <= i < |s| ==> IsDigit(s[i])
    decreases n
  {
    if n > 0 && s != [] {
      MatchesDigitsIff(s[1..], n - 1);
      assert forall i :: 1 <= i < |s| ==> s[i] == s[1..][i - 1];
    }
  }

  /** Every string the pattern accepts is non-empty, so the contact number's
      `nonempty` check adds nothing once the pattern holds. */
  lemma PatternImpliesNonEmpty(s: string)
    ensures ContactValid(Text(s)) <==> ContactPattern(s)
    ensures ContactPattern(s) ==> |s| == 10
  {
    MatchesDigitsIff(s, 10);
  }

  /** Sample contact numbers: ten digits pass;
      too few, too many, or a separator are rejected. */
  lemma ContactNumberExamples()
    ensures Accepts(ContactNumber, Text("9876543210"))
    ensures !Accepts(ContactNumber, Text("12345"))
    ensures !Accepts(ContactNumber, Text("12345678901"))
    ensures !Accepts(ContactNumber, Text("123-456-7890"))
  {
    var ok := "9876543210";
    assert |ok| == 10 && forall i :: 0 <= i < |ok| ==> IsDigit(ok[i]);
    MatchesDigitsIff(ok, 10);
    WrongLengthRejected("12345");
    WrongLengthRejected("12345678901");
    WrongLengthRejected("123-456-7890");
  }

  /** A contact number whose length is not ten is rejected. */
  lemma WrongLengthRejected(s: string)
    requires |s| != 10
    ensures !Accepts(ContactNumber, Text(s))
  {
    MatchesDigitsIff(s, 10);
  }

  /** "Non-empty" is a length check: a value made only of spaces passes the
      hospital name, patient name and time rules. */
  lemma BlankTextAccepted(s: string)
    requires |s| >= 1 && forall i :: 0 <= i < |s| ==> s[i] == ' '
    ensures Issues(HospitalName, Text(s)) == []
    ensures Issues(PatientName, Text(s)) == []
    ensures Issues(Time, Text(s)) == []
  {
  }

  /** An unset mode is rejected with its declared message, and validation
      never picks either enumeration member for it. */
  lemma UnsetModeRejected(d: Draft)
    requires d.modeOfAppointment == Unset
    ensures Validate(d).Err?
    ensures Validate(d).error[ModeOfAppointment] == [Declared(SelectModeMessage)]
  {
    assert !Accepts(ModeOfAppointment, Get(d, ModeOfAppointment));
  }

  /** The form's default values fail all six rules; the empty contact
      number fails both of its checks. */
  lemma DefaultDraftFailsEveryRule()
    ensures Validate(DefaultDraft()).Err?
    ensures Errors(DefaultDraft()).Keys == AllFields
    ensures Errors(DefaultDraft())[ContactNumber] ==
            [Declared(ContactNumberRequired), Declared(ContactNumberDigits)]
    ensures Errors(DefaultDraft())[ModeOfAppointment] == [Declared(SelectModeMessage)]
    ensures Errors(DefaultDraft())[Date] == [Required]
  {
    var d := DefaultDraft();
    forall f ensures f in Errors(d) {
      assert !Accepts(f, Get(d, f));
    }
    assert Errors(d).Keys == AllFields;
  }

  /** Each field's verdict depends on that field alone: changing one field
      leaves every other field's entry in the error map as it was. */
  lemma ErrorsOfOtherFieldsUnchanged(d: Draft, f: Field, v: FieldValue)
    ensures Errors(With(d, f, v)) - {f} == Errors(d) - {f}
  {
    ErrorsAgreeOffField(With(d, f, v), d, f);
  }

  /** Two drafts that agree on every field but `f` have the same error
      entries for every field but `f`. */
  lemma ErrorsAgreeOffField(d1: Draft, d2: Draft, f: Field)
    requires forall g :: g != f ==> Get(d1, g) == Get(d2, g)
    ensures Errors(d1) - {f} == Errors(d2) - {f}
  {
    var e1, e2 := Errors(d1) - {f}, Errors(d2) - {f};
    forall g ensures (g in e1 <==> g in e2) && (g in e1 ==> e1[g] == e2[g]) {
      if g != f {
        assert Get(d1, g) == Get(d2, g);
      }
    }
  }

  /** Setting a field twice to the same value is the same as setting it
      once. */
  lemma SetFieldIdempotent(d: Draft, f: Field, v: FieldValue)
    ensures With(With(d, f, v), f, v) == With(d, f, v)
  {
  }

  /** Every record the schema can produce is accepted back unchanged from
      the draft that holds its values. */
  lemma ValidateRoundTrip(a: Appointment)
    requires WellFormed(a)
    ensures Validate(ToDraft(a)) == Ok(a)
  {
    PatternImpliesNonEmpty(a.contactNumber);
    assert AllAccepted(ToDraft(a));
  }

  /** A draft that validates is exactly the draft of the record it yields. */
  lemma ValidateOnlyDraftsOfRecords(d: Draft, a: Appointment)
    requires Validate(d) == Ok(a)
    ensures d == ToDraft(a) && Validate(ToDraft(a)) == Ok(a)
  {
    ValidateRoundTrip(a);
  }

  /** Writing a field through the name-keyed form state and writing it
      through the typed draft agree. */
  lemma SetValueMatchesWith(d: Draft, f: Field, v: FieldValue)
    ensures AsMap(With(d, f, v)) == AsMap(d)[FieldName(f) := v]
  {
    var lhs, rhs := AsMap(With(d, f, v)), AsMap(d)[FieldName(f) := v];
    forall name | name in lhs ensures name in rhs && lhs[name] == rhs[name] {
      var g :| g in AllFields && FieldName(g) == name;
      FieldNameInjective(f, g);
    }
    assert lhs.Keys == rhs.Keys;
  }

  /** The date picker bound to `date` writes through the same field, and a
      day it writes always satisfies the date rule; deselecting the day
      leaves the field unset, which the rule rejects as missing. */
  lemma PickedDateValidity(d: Draft, day: Option<int>)
    ensures AsMap(With(d, Date, Picker.Chosen(day))) == AsMap(d)[FieldName(Date) := Picker.Chosen(day)]
    ensures Accepts(Date, Get(With(d, Date, Picker.Chosen(day)), Date)) <==> day.Some?
    ensures day.None? ==> Errors(With(d, Date, Picker.Chosen(day)))[Date] == [Required]
  {
    SetValueMatchesWith(d, Date, Picker.Chosen(day));
  }

  // ---------------------------------------------------------------------
  // Properties of the confirmation text

  /** The patient's name and contact number do not appear in the text. */
  lemma DescriptionOmitsPatient(a: Appointment, patientName: string, contactNumber: string, dateString: int -> string)
    ensures Description(a.(patientName := patientName, contactNumber := contactNumber), dateString)
            == Description(a, dateString)
  {
  }

  /** For one hospital, the two modes give different texts: the text tells
      which mode was booked. */
  lemma DescriptionDistinguishesMode(a: Appointment, b: Appointment, dateString: int -> string)
    requires a.hospitalName == b.hospitalName && a.mode != b.mode
    ensures Description(a, dateString) != Description(b, dateString)
  {
    var k := |"Hospital: " + a.hospitalName + ", Mode: "|;
    assert Description(a, dateString)[k] == ModeToken(a.mode)[0];
    assert Description(b, dateString)[k] == ModeToken(b.mode)[0];
  }

  /** The record of a complete booking, dated 2025-04-05 (UTC midnight). */
  function ExampleRecord(): Appointment
  {
    Appointment("City Clinic", Online, "Jane Doe", "9876543210", 1743811200000, "14:30")
  }

  lemma ExampleValidates()
    ensures Validate(ToDraft(ExampleRecord())) == Ok(ExampleRecord())
  {
    ContactNumberExamples();
    ValidateRoundTrip(ExampleRecord());
  }

  lemma ExampleDescription(dateString: int -> string)
    requires dateString(1743811200000) == "Sat Apr 05 2025"
    ensures Description(ExampleRecord(), dateString)
            == "Hospital: City Clinic, Mode: online, Date: Sat Apr 05 2025, Time: 14:30"
  {
    var a := ExampleRecord();
    assert ModeToken(a.mode) == "online";
    calc {
      Description(a, dateString);
      "Hospital: " + "City Clinic" + ", Mode: " + "online" + ", Date: " + "Sat Apr 05 2025" + ", Time: " + "14:30";
      { assert "Hospital: " + "City Clinic" == "Hospital: City Clinic"; }
      "Hospital: City Clinic" + ", Mode: " + "online" + ", Date: " + "Sat Apr 05 2025" + ", Time: " + "14:30";
      { assert "Hospital: City Clinic" + ", Mode: " == "Hospital: City Clinic, Mode: "; }
      "Hospital: City Clinic, Mode: " + "online" + ", Date: " + "Sat Apr 05 2025" + ", Time: " + "14:30";
      { assert "Hospital: City Clinic, Mode: " + "online" == "Hospital: City Clinic, Mode: online"; }
      "Hospital: City Clinic, Mode: online" + ", Date: " + "Sat Apr 05 2025" + ", Time: " + "14:30";
      { assert "Hospital: City Clinic, Mode: online" + ", Date: " == "Hospital: City Clinic, Mode: online, Date: "; }
      "Hospital: City Clinic, Mode: online, Date: " + "Sat Apr 05 2025" + ", Time: " + "14:30";
      { assert "Hospital: City Clinic, Mode: online, Date: " + "Sat Apr 05 2025"
               == "Hospital: City Clinic, Mode: online, Date: Sat Apr 05 2025"; }
      "Hospital: City Clinic, Mode: online, Date: Sat Apr 05 2025" + ", Time: " + "14:30";
      { assert "Hospital: City Clinic, Mode: online, Date: Sat Apr 05 2025" + ", Time: "
               == "Hospital: City Clinic, Mode: online, Date: Sat Apr 05 2025, Time: "; }
      "Hospital: City Clinic, Mode: online, Date: Sat Apr 05 2025, Time: " + "14:30";
      "Hospital: City Clinic, Mode: online, Date: Sat Apr 05 2025, Time: 14:30";
    }
  }

  /** Filling in every field of a fresh form and submitting it yields the
      confirmation text, given the text `toDateString` gives for the date. */
  method BookExample(dateString: int -> string) returns (outcome: Result<string, map<Field, seq<Issue>>>)
    requires dateString(1743811200000) == "Sat Apr 05 2025"
    ensures outcome == Ok("Hospital: City Clinic, Mode: online, Date: Sat Apr 05 2025, Time: 14:30")
  {
    var form := new Form();
    var a := ExampleRecord();
    form.SetField(HospitalName, Text(a.hospitalName));
    form.SetField(ModeOfAppointment, Text(ModeToken(a.mode)));
    form.SetField(PatientName, Text(a.patientName));
    form.SetField(ContactNumber, Text(a.contactNumber));
    form.SetField(Date, When(At(a.date)));
    form.SetField(Time, Text(a.time));
    assert form.draft == ToDraft(a);
    ExampleValidates();
    ExampleDescription(dateString);
    outcome := form.Submit(dateString);
  }

  /** Submitting an untouched form fails on every field and hands nothing
      to `onSubmit`. */
  method SubmitUntouched(dateString: int -> string) returns (outcome: Result<string, map<Field, seq<Issue>>>, handled: nat)
    ensures outcome.Err? && outcome.error.Keys == AllFields
    ensures handled == 0
  {
    var form := new Form();
    DefaultDraftFailsEveryRule();
    outcome := form.Submit(dateString);
    handled := |form.submitted|;
  }
}
