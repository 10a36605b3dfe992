# Appointment booking pages: form validation, FAQ search, date picker

A Dafny model of the logic in a small healthcare-appointment website. The model covers three pieces:

- **The appointment form** (`app/appointment/page.tsx`). A zod schema declares one rule per field:
  - hospital name, patient name and time must be non-empty strings;
  - the mode must be `in-person` or `online`;
  - the contact number must match `^\d{10}$`;
  - the date must be a `Date` whose timestamp is not NaN.

  react-hook-form holds the draft, updates it one field at a time and validates the whole record on submit. When every rule holds, `onSubmit` builds a confirmation text out of the hospital, mode, date and time. The model has:
  - one predicate per rule (`Appointment.Accepts`);
  - the issue list zod reports for each field (`Appointment.Issues`);
  - the error map (`Appointment.Errors`);
  - whole-record validation (`Appointment.Validate`), which returns either the typed `Appointment` record or the error map;
  - the confirmation text (`Appointment.Description`);
  - a `Form` class holding the draft, the last error map and the records handed to `onSubmit`.
- **The FAQ search** (`app/faq/page.tsx`). The page keeps the entries whose lower-cased question or answer contains the lower-cased query. This is modelled as a pure filter over a sequence of entries (`Faq.Filter`). A small `SearchPage` class holds the query, which the input replaces on each change.
- **The date picker** (`components/picker.tsx`):
  - the `disabled` policy (`Picker.Disabled`);
  - the trigger label (`Picker.Trigger`);
  - the day marked as selected;
  - the write-back of a chosen day into the owning form's name-keyed state (`Picker.BoundForm.Select`).

Shared value types are in `values.dfy`. A form field holds `undefined`, a string or a JavaScript `Date`, and a `Date` is a millisecond timestamp or an invalid date. `Option` and `Result` are in `wrappers.dfy`.

Three facts about the code shape the model:
- The confirmation text interpolates the hospital, mode, date and time. The patient name and contact number never appear in it.
- The form sets no validation mode, so react-hook-form validates only when the form is submitted. A field is not validated on every change before that. The model's `SetField` therefore does not touch the error map.
- zod runs every string check. An empty contact number therefore gets both "Contact number is required" and "Contact number must be 10 digits".

## Model

| member | source | states |
|---|---|---|
| `Appointment.ParseMode` | app/appointment/page.tsx:32-34 | a string is an enumeration member iff it is exactly `in-person` or `online`, and the member it yields has that token |
| `Appointment.ModeToken` | app/appointment/page.tsx:32 | each mode's token parses back to that mode |
| `Appointment.With` | app/appointment/page.tsx:75-103 | an input's change sets exactly one field of the draft and every other field keeps its value |
| `Appointment.AsMap` | app/appointment/page.tsx:49-59 | the form state maps each of the six field names, and nothing else, to that field's value |
| `Appointment.DefaultDraft` | app/appointment/page.tsx:51-58 | the default values leave every field falsy: empty strings for the text inputs, undefined for the mode and the date |
| `Appointment.Accepts` | app/appointment/page.tsx:30-44 | the six declared rules, one per field; every value a rule accepts is truthy |
| `Appointment.TextIssues` | app/appointment/page.tsx:31-43 | a required text field has no issue iff it holds a string of length at least one; the empty string gets exactly the field's declared message |
| `Appointment.Issues` | app/appointment/page.tsx:30-44 | the issues zod reports for a field are empty iff the field's declared rule accepts its value; a non-empty contact number that fails `^\d{10}$` gets exactly "Contact number must be 10 digits"; an unset mode gets exactly "Please select a mode of appointment."; an invalid date gets exactly "Date is required" |
| `Appointment.Errors` | app/appointment/page.tsx:30-44 | the error map has an entry for exactly the fields whose rule fails, each holding that field's issues |
| `Appointment.Validate` | app/appointment/page.tsx:30-46 | a draft is accepted iff all six rules hold; an accepted draft is exactly the draft of the well-formed record returned; a rejected one yields the non-empty error map |
| `Appointment.MatchesDigitsIff` | app/appointment/page.tsx:39 | the regex `^\d{n}$` matches exactly the strings of length n made of ASCII digits |
| `Appointment.PatternImpliesNonEmpty` | app/appointment/page.tsx:36-39 | the contact rule holds iff the regex matches, because every match has ten characters and so is non-empty |
| `Appointment.ContactNumberExamples` | app/appointment/page.tsx:36-39 | "9876543210" is accepted; "12345", "12345678901" and "123-456-7890" are rejected |
| `Appointment.BlankTextAccepted` | app/appointment/page.tsx:31-43 | a non-empty string made only of spaces passes the hospital name, patient name and time rules, since nothing is trimmed |
| `Appointment.UnsetModeRejected` | app/appointment/page.tsx:32-34 | a draft with no mode is rejected, and the mode's entry is exactly "Please select a mode of appointment." |
| `Appointment.DefaultDraftFailsEveryRule` | app/appointment/page.tsx:51-58 | the default values fail all six rules; the empty contact number fails both of its checks; the unset date is reported as missing |
| `Appointment.ErrorsOfOtherFieldsUnchanged` | app/appointment/page.tsx:30-44 | changing one field leaves every other field's error entry unchanged |
| `Appointment.SetFieldIdempotent` | app/appointment/page.tsx:84 | setting a field twice to the same value equals setting it once |
| `Appointment.ValidateRoundTrip` | app/appointment/page.tsx:30-46 | every well-formed record validates back to itself from its own draft |
| `Appointment.ValidateOnlyDraftsOfRecords` | app/appointment/page.tsx:30-46 | a draft that validates to a record is that record's draft, and the round trip closes |
| `Appointment.SetValueMatchesWith` | app/appointment/page.tsx:49-59 | writing a field through the name-keyed form state equals writing it through the typed draft |
| `Appointment.PickedDateValidity` | app/appointment/page.tsx:40-42 | a day written by the date picker always passes the date rule; a deselected day leaves the date missing, and the rule reports it as required |
| `Appointment.Description` | app/appointment/page.tsx:64-66 | the confirmation text starts with "Hospital: ", the hospital name and ", Mode: ", and ends with the time |
| `Appointment.DescriptionOmitsPatient` | app/appointment/page.tsx:64-66 | the confirmation text does not depend on the patient name or the contact number |
| `Appointment.DescriptionDistinguishesMode` | app/appointment/page.tsx:64-66 | for the same hospital, the two modes give different confirmation texts |
| `Appointment.ExampleValidates` | app/appointment/page.tsx:30-44 | the complete booking (City Clinic, online, Jane Doe, 9876543210, 2025-04-05, 14:30) is accepted as that record |
| `Appointment.ExampleDescription` | app/appointment/page.tsx:64-66 | that booking's text is "Hospital: City Clinic, Mode: online, Date: Sat Apr 05 2025, Time: 14:30" when the date reads "Sat Apr 05 2025" |
| `Appointment.BookExample` | app/appointment/page.tsx:61-73 | filling in a fresh form field by field and submitting it returns exactly that confirmation text |
| `Appointment.SubmitUntouched` | app/appointment/page.tsx:49-73 | submitting an untouched form fails on all six fields and hands no record to `onSubmit` |
| `Appointment.Form.constructor` | app/appointment/page.tsx:49-59 | a new form holds the default draft, has no errors and has handed nothing to `onSubmit` |
| `Appointment.Form.SetField` | app/appointment/page.tsx:103 | a change replaces one field of the draft and nothing else |
| `Appointment.Form.Submit` | app/appointment/page.tsx:61-73 | the handler runs iff the draft validates: it then clears the errors, records the validated record once and returns its confirmation text; otherwise it stores the error map and records nothing; the draft never changes |
| `Faq.LowerChar` | app/faq/page.tsx:71-72 | each ASCII capital becomes its own lower-case letter, no capital is left, and every other character is kept |
| `Faq.Lower` | app/faq/page.tsx:71-72 | lower-casing keeps the length, lower-cases every character in place, and leaves no ASCII capital |
| `Faq.IncludesTransitive` | app/faq/page.tsx:71-72 | what occurs in a substring of a text occurs in the text |
| `Faq.IncludesLower` | app/faq/page.tsx:71-72 | an occurrence survives lower-casing both strings |
| `Faq.Matches` | app/faq/page.tsx:70-72 | the filter's test; the empty query matches every entry |
| `Faq.Filter` | app/faq/page.tsx:69-73 | the result is no longer than the list; an entry is in it iff it is in the list and the lower-cased query occurs in its lower-cased question or answer; each matching entry occurs as many times as in the list, and a non-matching one not at all |
| `Faq.FilterIsSubsequence` | app/faq/page.tsx:69-73 | the result is the list with some entries dropped, in their original order and unaltered |
| `Faq.SubsequenceLength` | app/faq/page.tsx:69-73 | an order-preserving subsequence is no longer than its source |
| `Faq.EmptyQueryKeepsAll` | app/faq/page.tsx:67-73 | the empty query, the page's initial one, keeps every entry |
| `Faq.CaseInsensitive` | app/faq/page.tsx:71-72 | two queries that differ only in ASCII letter case give identical results |
| `Faq.QueryLowered` | app/faq/page.tsx:71-72 | a query and its lower-cased form give identical results |
| `Faq.MatchesShorter` | app/faq/page.tsx:70-72 | an entry kept for a query is kept for every substring of that query |
| `Faq.FilterRefines` | app/faq/page.tsx:69-73 | the results for a longer query are the results for any query it contains, filtered again |
| `Faq.Monotone` | app/faq/page.tsx:69-73 | extending the query yields a subsequence of the previous results, so every entry kept for the longer query is kept for the shorter one |
| `Faq.FilterIdempotent` | app/faq/page.tsx:69-73 | filtering the results again with the same query changes nothing |
| `Faq.SearchPage.constructor` | app/faq/page.tsx:67 | the page starts with the empty query over its fixed entries |
| `Faq.SearchPage.SetSearchQuery` | app/faq/page.tsx:84 | typing replaces the whole query |
| `Faq.SearchPage.Shown` | app/faq/page.tsx:69-73 | the shown list is the filter of the entries by the current query: an order-preserving subsequence holding every matching entry as often as the list does, and nothing else |
| `Faq.OpenAndSearch` | app/faq/page.tsx:67-84 | a fresh page shows every entry; after a query it shows the filter of the entries by that query, in order |
| `Picker.Year1900Value` | components/picker.tsx:66 | `new Date("1900-01-01")` is UTC midnight, 25567 days or 2208988800000 ms before the epoch |
| `Picker.Disabled` | components/picker.tsx:62-67 | with `disablePast`, a day is disabled iff its timestamp is strictly before now; otherwise iff strictly before -2208988800000 ms |
| `Picker.CutOff` | components/picker.tsx:62-67 | with `disablePast`, a day is disabled iff it is strictly before now; otherwise iff strictly before 1900-01-01; the cut-off itself is enabled |
| `Picker.DisabledDownwardClosed` | components/picker.tsx:62-67 | a day before a disabled day is disabled |
| `Picker.DefaultPolicyWithinPastPolicy` | components/picker.tsx:62-67 | when now is on or after 1900-01-01, every day the default policy disables is disabled by the past policy |
| `Picker.PoliciesDifferBefore1900` | components/picker.tsx:62-67 | when now is before 1900-01-01, the default policy disables a day the past policy enables |
| `Picker.Trigger` | components/picker.tsx:46-50 | the trigger shows the placeholder iff the value is undefined or the empty string, and otherwise shows the value itself, formatted |
| `Picker.TriggerText` | components/picker.tsx:46-50 | the trigger reads "Pick a date" exactly for undefined and the empty string; for every other value it reads that value passed through `format` |
| `Picker.TriggerTextAfterSelect` | components/picker.tsx:46-61 | after choosing a day the trigger reads that day, formatted; after deselecting it reads "Pick a date" |
| `Picker.SelectedDay` | components/picker.tsx:58 | the calendar marks no day exactly when the trigger shows the placeholder; otherwise it marks a `Date`: the same instant for a `Date` value, the parsed date for a non-empty string |
| `Picker.SelectedAfterSelect` | components/picker.tsx:58-61 | after choosing a day the calendar marks that very day; after deselecting it marks none |
| `Picker.Read` | components/picker.tsx:34 | reading a name gives its stored value, and a name never set reads as undefined |
| `Picker.Chosen` | components/picker.tsx:59-61 | the value written is truthy iff a day was chosen rather than deselected |
| `Picker.ReadAfterWrite` | components/picker.tsx:34-60 | after a write, the bound field reads the written value, every other field reads as before, and the trigger follows the new value |
| `Picker.TriggerAfterSelect` | components/picker.tsx:46-61 | after choosing a day the trigger shows that day; after deselecting it shows the placeholder |
| `Picker.BoundForm.Value` | components/picker.tsx:34 | the value shown is read from the form state itself, and a name never set reads as undefined |
| `Picker.BoundForm.Select` | components/picker.tsx:59-61 | selecting sets exactly the bound field to the chosen day, without validation, and leaves every other field unchanged |

## Left out

- Rendering is not modelled: JSX, layout, styling classes and icons. These are presentation only.
- The popover's open and closed state is not modelled. It is held entirely by the popover component.
- The toast and `console.log` in `onSubmit` are not modelled. The model keeps only the description text that the toast would show.
- Which of a field's issues the page displays is not modelled. That choice belongs to react-hook-form; the model keeps the full issue list.
- Appointment.Issues: the messages zod generates itself are not modelled as text. `Required`, `WrongType` and `InvalidOption` stand for them.
- Appointment.Issues: for a `Date` whose timestamp is NaN, the model reports the schema's declared "Date is required". In zod, `z.date()` itself rejects such a `Date` with its own invalid-date issue and stops there, so the refine at app/appointment/page.tsx:40-42 never runs and "Date is required" is never reported for it. The model keeps the declared message in place of zod's own.
- Appointment.Form.SetField: react-hook-form's re-validation after a first submission is not modelled. The error map changes only on submit.
- A form value is modelled as `undefined`, a string or a `Date`. Other JavaScript values (numbers, `null`, objects) are not modelled.
- `Date.prototype.toDateString` and date-fns `format(_, "PPP")` are passed in as uninterpreted functions. Their text depends on the locale and time zone.
- Picker.Trigger: an invalid `Date` in the field is truthy, so the source calls date-fns `format` on it, which throws a `RangeError` during render. The same happens for a non-empty string that `format` cannot read as a valid date. In both cases the model shows `Formatted(v)` instead. The picker itself only writes valid days.
- Picker.SelectedDay: how `new Date(s)` parses a string is not modelled. It is the uninterpreted parameter `parse`.
- The current time (`new Date()`) is a parameter `now`.
- Faq.LowerChar: only ASCII letters are lower-cased. Unicode case mapping is not modelled.
- The FAQ page's fixed question and answer texts are not modelled. The filter takes any sequence of entries.
- The picker's unused `FormSchema` and its ignored `control` prop are not modelled. Neither affects behaviour.
