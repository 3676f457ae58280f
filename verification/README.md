# Loan-application wizard: a Dafny model

The system is a three-step wizard in the browser. Step one takes personal data: phone, first and last name, gender. Step two takes a workplace from a remote category list, plus an address. Step three takes the loan amount and term, and then submits the application. Every step reads and writes one shared record. Each step validates its own fields before moving forward. The loan step sends the user back when an earlier step's data is missing.

This project models that logic as immutable values and pure functions:

- `Text`: the string primitives the code relies on, written out. These are JavaScript `trim` over an explicit whitespace set, the regex class `\d`, `slice` and `startsWith`.
- `FormTypes`: the record, the gender choice and a per-field view used to state frame conditions.
- `FormData`: the default record, the shallow-merge `update` and `reset`.
- `CategoryLoader`: the category loader's status machine (idle, loading, loaded, error) and its re-entry guard.
- `PhoneFormat`: the phone formatter and the phone pattern.
- `Routes`: the steps table, the progress index and the route table.
- `PersonalForm`, `AddressForm`, `LoanForm`: each page's handlers, validation, guards and submission flow.

The two network requests are not modelled. Their outcomes are inputs: `FetchOutcome` for the category list and `SendOutcome` for the application. Each `load` call and each submission is modelled as one step that runs to completion, and the next call sees the state it left.

The model follows the code, not what a reader might expect of it:

- The workplace is never checked against the loaded categories.
- Nothing clamps the amount or the term to the slider ranges.
- The loan step's guards test raw emptiness, not trimmed emptiness. `LoanForm.GuardAdmitsBlankName` shows a record those guards let through that step one would reject.

## Model

| member | source | states |
|---|---|---|
| Text.Trim | src/pages/PersonalForm.tsx:58-63 | `trim()` gives the empty string exactly when every character is whitespace, so "not blank after trim" means "has a non-whitespace character" |
| Text.TrimStart | src/pages/AddressForm.tsx:19-22 | leading trim removes only whitespace and leaves a suffix that starts with a non-whitespace character |
| Text.TrimEnd | src/pages/AddressForm.tsx:19-22 | trailing trim removes only whitespace and leaves a prefix that ends with a non-whitespace character |
| Text.Digits | src/pages/PersonalForm.tsx:9 | stripping non-digits leaves only digits and is empty exactly when the input has no digit |
| Text.DigitsAppend | src/pages/PersonalForm.tsx:9 | stripping non-digits distributes over concatenation |
| Text.StartsWith | src/App.tsx:17 | `startsWith` holds exactly when the prefix is no longer than the string and agrees with it position by position |
| Text.Slice | src/pages/PersonalForm.tsx:14-18 | `slice` clamps both bounds to the length and returns the characters between them |
| FormTypes.GenderText | src/types.ts:1-7 | the stored gender string is empty exactly for the unset choice |
| FormTypes.SameFieldsSameRecord | src/types.ts:3-20 | a record is determined by its eight fields |
| FormData.Update | src/context/FormDataContext.tsx:40-42 | each field named in the partial takes the partial's value, and every other field keeps its old value |
| FormData.UpdateNothing | src/context/FormDataContext.tsx:40-42 | an update with an empty partial is the identity |
| FormData.UpdateIdempotent | src/context/FormDataContext.tsx:40-42 | applying the same partial twice equals applying it once |
| FormData.Merge | src/context/FormDataContext.tsx:40-42 | the merged partial takes each field from the later partial when it has it, otherwise from the earlier one |
| FormData.UpdateUpdate | src/context/FormDataContext.tsx:40-42 | two updates in a row equal one update with the merged partial |
| FormData.Reset | src/context/FormDataContext.tsx:21-46 | whatever the prior record was, reset gives every field its default: empty strings, unset gender, amount 200, term 10 |
| CategoryLoader.FailureMessage | src/context/FormDataContext.tsx:57-66 | a non-2xx response stores the fixed message, a thrown `Error` stores its own message, and any other thrown value stores 'Неизвестная ошибка' |
| CategoryLoader.Start | src/context/FormDataContext.tsx:48-53 | a request is issued exactly from idle or error, and the status is then loading with the list and message untouched; from loading or loaded nothing changes |
| CategoryLoader.Settle | src/context/FormDataContext.tsx:60-67 | success stores the list, clears the error and marks loaded; failure stores the message, marks error and keeps the old list |
| CategoryLoader.Load | src/context/FormDataContext.tsx:48-68 | a completed call sends a request exactly from idle or error; a refused call changes nothing; a sent call ends loaded or error |
| CategoryLoader.SecondStartSendsNothing | src/context/FormDataContext.tsx:49-53 | two starts in a row send at most one request: the second start sends nothing and changes nothing |
| CategoryLoader.LoadAll | src/context/FormDataContext.tsx:48-68 | a sequence of `load` calls, each reading the state the previous one left; no contract of its own, specified by `LoadedIsFinal`, `RequestsAfterSuccess` and `LoadAllConsistent` |
| CategoryLoader.Requests | src/context/FormDataContext.tsx:48-56 | a sequence of `load` calls sends at most one request per call |
| CategoryLoader.LoadedIsFinal | src/context/FormDataContext.tsx:49-51 | from loaded, no sequence of `load` calls sends a request or changes the state |
| CategoryLoader.RequestsAfterSuccess | src/context/FormDataContext.tsx:48-68 | after the first successful call the loader is loaded; a sequence whose k-th call succeeds sends at most k+1 requests |
| CategoryLoader.LoadAllConsistent | src/context/FormDataContext.tsx:36-68 | every call sequence keeps two invariants (error state carries a message; idle and loaded carry none), and the loader is idle afterwards only if no call was made |
| PhoneFormat.MatchesPhonePattern | src/pages/PersonalForm.tsx:6 | the anchored pattern, position by position; no contract of its own, related to the mask by `PatternIsFullMask` and to the formatter by `FormatPhoneAccepted` and `PatternIsFixedPoint` |
| PhoneFormat.FormatPhone | src/pages/PersonalForm.tsx:8-22 | the formatter; no contract of its own, specified by `FormatPhoneDigits` (digit content), `FormatPhoneShape` (layout), `FormatPhoneAccepted`, `FormatPhoneIdempotent` and `FormatPhoneExample` |
| PhoneFormat.Normalize | src/pages/PersonalForm.tsx:14 | the result starts with `0`; it is the input itself when that already starts with `0`, and otherwise `0` followed by the input's first nine digits, so ten digits in never give more than ten out |
| PhoneFormat.Group | src/pages/PersonalForm.tsx:15-21 | the 4/3/3 split and join; no contract of its own, specified by `GroupShape`, `GroupDigits` and `GroupFitsMask` |
| PhoneFormat.Join | src/pages/PersonalForm.tsx:21 | `join(' ')`; no contract of its own, its three cases are spelled out by `GroupShape` |
| PhoneFormat.ExpectedDigits | src/pages/PersonalForm.tsx:9-14 | the digit content the mask keeps has at most 10 digits, starts with `0`, and is empty exactly when the input has no digits |
| PhoneFormat.NormalizeIsExpected | src/pages/PersonalForm.tsx:9-14 | normalising gives one of two strings: the first ten digits when they start with `0`, otherwise `0` followed by the first nine |
| PhoneFormat.NonEmpty | src/pages/PersonalForm.tsx:21 | `filter(Boolean)` keeps exactly the non-empty parts: each part is in the result iff it is in the input and not empty |
| PhoneFormat.NonEmptyAppend | src/pages/PersonalForm.tsx:21 | filtering distributes over concatenation, so the kept parts keep their order |
| PhoneFormat.GroupShape | src/pages/PersonalForm.tsx:15-21 | grouping yields the digits alone (at most 4), or 4 then a space then the rest (up to 7), or groups of 4, 3 and 3 separated by single spaces |
| PhoneFormat.GroupDigits | src/pages/PersonalForm.tsx:15-21 | grouping only inserts spaces and never adds or drops a digit |
| PhoneFormat.GroupFitsMask | src/pages/PersonalForm.tsx:15-21 | a grouped number fits the mask `0ddd ddd ddd`, does not end in a space, and matches the whole pattern exactly when it has ten digits |
| PhoneFormat.PatternIsFullMask | src/pages/PersonalForm.tsx:6 | the pattern is the mask at full length |
| PhoneFormat.MaskPrefixCompletes | src/pages/PersonalForm.tsx:6 | any string that fits the mask so far is a prefix of a string matching the pattern |
| PhoneFormat.FormatPhoneEmpty | src/pages/PersonalForm.tsx:9-14 | the output is empty exactly when the input has no digit, and otherwise starts with `0` |
| PhoneFormat.FormatPhoneDigits | src/pages/PersonalForm.tsx:9-14 | the output's digits are the input's first ten when those start with `0`, otherwise `0` followed by the input's first nine |
| PhoneFormat.FormatPhoneShape | src/pages/PersonalForm.tsx:6-21 | the output has only digits and single spaces, fits the mask and is a prefix of a full match. It never ends in a space, has at most ten digits, and matches the pattern exactly when it has ten |
| PhoneFormat.FormatPhoneAccepted | src/pages/PersonalForm.tsx:6-21 | the output matches the pattern exactly when the input has at least ten digits, or nine not starting with `0` |
| PhoneFormat.FormatPhoneIdempotent | src/pages/PersonalForm.tsx:8-22 | formatting a formatted value changes nothing |
| PhoneFormat.PatternIsFixedPoint | src/pages/PersonalForm.tsx:6-22 | every string matching the pattern formats to itself |
| PhoneFormat.FormatPhoneExample | src/pages/PersonalForm.tsx:8-22 | `"71234567890"` formats to `"0712 345 678"` |
| Routes.IndexOf | src/App.tsx:8-12 | each step sits at its own position in the steps table |
| Routes.FindPrefix | src/App.tsx:17 | `findIndex` returns the first path that prefixes the pathname, or -1 exactly when none does |
| Routes.CurrentStepIndex | src/App.tsx:16-19 | the index is within 0..2; a pathname starting with a step's path gives that step's index; a pathname matching no step gives 0 |
| Routes.PrefixesExclusive | src/App.tsx:8-12 | no pathname starts with two different step paths |
| Routes.ProgressLabel | src/App.tsx:23 | the progress line shows the label of the step whose path prefixes the pathname, and the first step's label otherwise |
| Routes.Resolve | src/App.tsx:25-31 | exactly the three step paths render a page, each its own; `/` and every other path redirect to `/personal` |
| Routes.ResolveSettles | src/App.tsx:16-31 | a redirect reaches the first page in one hop, and a rendered page's progress index is that page's index |
| PersonalForm.HandleChange | src/pages/PersonalForm.tsx:39-46 | the phone is stored through the formatter, the names verbatim, and nothing else moves; a formatted stored phone stays formatted |
| PersonalForm.HandleGenderChange | src/pages/PersonalForm.tsx:48-50 | only the gender changes |
| PersonalForm.Validate | src/pages/PersonalForm.tsx:52-70 | an error key appears for the phone iff it does not match the pattern, for each name iff it is blank, and for gender iff unset; no error at all iff all four conditions pass |
| PersonalForm.HandleSubmit | src/pages/PersonalForm.tsx:72-77 | navigation to `/address` happens exactly when validation returns no errors |
| PersonalForm.StoredPhoneAccepted | src/pages/PersonalForm.tsx:39-56 | with the phone stored through the formatter, step one accepts it exactly when the typed value had ten digits, or nine not starting with `0` |
| PersonalForm.DefaultPhoneFormatted | src/context/FormDataContext.tsx:21-30 | the default record's phone is already a formatter image |
| AddressForm.AutoLoad | src/pages/AddressForm.tsx:11-15 | the automatic load sends a request only from idle; in any other status nothing changes |
| AddressForm.ControlsFor | src/pages/AddressForm.tsx:49-94 | the select and the Next button are enabled only when loaded; retry appears only in the error state; the loading hint only while loading |
| AddressForm.RetryControl | src/pages/AddressForm.tsx:59-73 | when the retry control is shown, a message is available and pressing retry sends a request |
| AddressForm.Validate | src/pages/AddressForm.tsx:17-27 | an error key appears for workplace iff it is blank and for address iff it is blank; no errors iff both are non-blank; category membership is not checked |
| AddressForm.HandleSubmit | src/pages/AddressForm.tsx:29-34 | navigation to `/loan` happens exactly when validation passes |
| AddressForm.Next | src/pages/AddressForm.tsx:90-96 | Next does anything only when loaded, and it leaves for the loan step only with a non-blank workplace and address |
| AddressForm.HandleBack | src/pages/AddressForm.tsx:36-38 | back goes to `/personal` with the record unchanged |
| AddressForm.SelectWorkplace | src/pages/AddressForm.tsx:44-48 | only the workplace changes |
| AddressForm.EnterAddress | src/pages/AddressForm.tsx:79-84 | only the address changes |
| LoanForm.Redirects | src/pages/LoanForm.tsx:30-40 | `/personal` is issued iff phone, a name or gender is empty; `/address` iff workplace or address is empty |
| LoanForm.ValidatedRecordStays | src/pages/LoanForm.tsx:30-40 | a record that passed steps one and two causes no redirect |
| LoanForm.GuardAdmitsBlankName | src/pages/LoanForm.tsx:30-34 | the guard tests raw emptiness: a one-space first name is not redirected though step one rejects it |
| LoanForm.DefaultRecordRedirected | src/pages/LoanForm.tsx:30-40 | entering the loan step with the default record issues the `/personal` redirect, and the `/address` one |
| LoanForm.Validate | src/pages/LoanForm.tsx:42-52 | an error key appears for amount iff it is 0, and for term iff it is 0; no error iff both are non-zero |
| LoanForm.SliderValuesPass | src/pages/LoanForm.tsx:106-128 | every value within the slider ranges passes validation, and so do the defaults |
| LoanForm.ChangeAmount | src/pages/LoanForm.tsx:112 | only the amount changes |
| LoanForm.ChangeTerm | src/pages/LoanForm.tsx:128 | only the term changes |
| LoanForm.SendErrorMessage | src/pages/LoanForm.tsx:70-83 | a non-2xx response shows the fixed message, a thrown `Error` shows its own, and any other thrown value shows 'Неизвестная ошибка при отправке' |
| LoanForm.Title | src/pages/LoanForm.tsx:67 | the title is the first name, then one space, then the last name |
| LoanForm.BeginSubmit | src/pages/LoanForm.tsx:54-68 | apiError is cleared; a request is built iff amount and term are non-zero; an invalid submit leaves the submitting flag unset; a valid one raises it |
| LoanForm.FinishSubmit | src/pages/LoanForm.tsx:70-87 | on success the snapshot of the submit-time values is taken and the modal opens; on failure the error is shown and the modal is left alone; the flag comes down on both paths |
| LoanForm.Submit | src/pages/LoanForm.tsx:54-87 | a request goes out iff the step is valid; an invalid submit touches neither flag nor modal; the modal opens with the submit-time snapshot iff the request was sent and acknowledged |
| LoanForm.PressSubmit | src/pages/LoanForm.tsx:139 | the submit button does nothing while a request is pending; otherwise a press sends a request exactly when the step is valid |
| LoanForm.PendingBlocksButtons | src/pages/LoanForm.tsx:136-141 | once a request has been sent and is awaited, a further submit press sends nothing and Back does nothing |
| LoanForm.Back | src/pages/LoanForm.tsx:136-138 | back goes to `/address` unless a request is pending |
| LoanForm.CloseModal | src/pages/LoanForm.tsx:89-94 | closing clears the modal and the snapshot, resets every field to its default and goes to `/personal` |
| LoanForm.CloseStartsOver | src/pages/LoanForm.tsx:89-94 | after closing, the record is the default one: step one rejects it, the loan guard sends it back, and the progress index is 0 |
| LoanForm.SlidersToMaximum | src/pages/LoanForm.tsx:106-128 | from the defaults, setting amount 1000 and term 30 stores those values with no errors |
| LoanForm.FilledRecord | src/pages/PersonalForm.tsx:39-50 | entering step one's and step two's values from the default record gives a record with the formatted phone, the entered values and the default amount and term |
| LoanForm.ValidRecordSubmits | src/pages/LoanForm.tsx:30-83 | a record that passed steps one and two, with any non-zero amount and term, is not redirected, and its acknowledged submission sends the full name and snapshots the names, amount and term |
| LoanForm.CompletedWizard | src/pages/LoanForm.tsx:30-83 | with enough phone digits, non-blank fields and a chosen gender, every step passes, no redirect fires, and the dialog opens with the entered names |

## Left out

- The `fetch` calls, status checks and JSON parsing are left out. Their outcomes are the inputs `FetchOutcome` and `SendOutcome`. The posted body is modelled only as its `title`.
- React rendering, hooks and effect scheduling are left out. So is which of the loan step's two redirects wins when both fire; that depends on the router.
- CategoryLoader.Start: two `load` calls made in the same render read the same captured status, so both can pass the guard and send two requests. The model covers only calls that each see the state the previous call left.
- Route matching is by exact string. The router's case-insensitive matching and trailing-slash handling are left out.
- Routes.ResolveSettles: its second half (the progress index of a rendered page is that page's index) holds only under exact matching. The router also renders `/Address` as the address page, while `startsWith('/address')` is false for it, so the real progress line names step one there. The model redirects `/Address` instead.
- `Intl.NumberFormat` currency display and the confirmation text are left out. They are presentation.
- Amount and term are unbounded integers. `NaN` and fractional numbers are left out, since a range input reports whole numbers. Nothing in the code clamps these values, so the model proves no range invariant beyond the defaults and the slider ranges.
- The `Modal` component and the build configuration are presentation and tooling, and are left out.
- The progress label's optional chaining (`?.`) is left out. The index is always in range, so that branch is never taken.
