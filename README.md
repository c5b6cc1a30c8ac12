# Echo Health Exchange — a Dafny model of its data-shaping core

Echo Health Exchange connects a Hospital Information System (HIS) and a
Laboratory Information System (LIS) through a FHIR server:

- The HIS sends lab orders as FHIR `ServiceRequest` resources and lists the
  lab results it finds as `DiagnosticReport` resources.
- The LIS lists the pending `ServiceRequest`s and posts a `DiagnosticReport`
  for each request whose results a technician has entered.

Each system has an Express server, a plain-JavaScript browser page, and a page
of the React front end.

This project models the values those programs compute and proves properties
about them. It is written in Dafny and covers:

- **the HIS server** (`HisServer`):
  - the patient-ID generator;
  - the `POST /api/lab-requests` check and the ServiceRequest the route builds;
  - the DiagnosticReport → `labResults` map.
- **the LIS server** (`LisServer`):
  - the ServiceRequest → `labRequests` map;
  - the `POST /api/lab-results` check and the DiagnosticReport it builds.
- **the React pages** (`HisPage`, `LisPage`):
  - the HIS page: the test checkboxes, the submit check (with the number
    inputs' range and step constraints) and body, the reset
    after a successful submit, and the patient-name filter;
  - the LIS page: the result form, the update of one field, the browser's
    check of the required controls, the submit body,
    and the patient-details line.
- **the plain-JavaScript pages** (`HisClient`, `LisClient`):
  - their module variables are modelled as classes: `allLabResults` in
    `HisClient.ResultsTab` and `currentRequests` in `LisClient.RequestsPage`;
  - the views they render become datatypes;
  - the loops that push into arrays become methods with loop invariants.
- **the servers read each other's output** (`RoundTrip`).

Shared modules:

- `Fhir` holds the resource shapes.
- `LabApi` holds the JSON bodies and the details line that both LIS pages
  derive.
- `JsText` and `JsNumber` hold the JavaScript string and number behaviour the
  code relies on:
  - truthiness and `||` defaults;
  - `${undefined}` rendering as `"undefined"`;
  - ASCII case mapping, `substring`, `padStart`, `includes`, `trim` and `join`;
  - `parseInt`.
- `Seqs` holds `Array.prototype.filter`.
- `Fields` holds the field layout of a generated patient ID.

Modelling choices:

- **Absent and `null` fields.** A JSON field that may be absent or `null` is
  an `Option`.
- **Numbers.** A JavaScript number is known by its `String()` text, which is
  what every consumer shows. `NaN` serialises to `null`, so it is `None`.
- **Parameters for what the code reads from outside.** These are:
  - the date parts and timestamps;
  - the database row id;
  - `parseFloat`, and the browser's reading of a number input's text;
  - the locale's date formatting;
  - the outcome of each HTTP request.

## Model

| member | source | states |
|---|---|---|
| JsText.Upper | his/server.js:35 | `toUpperCase` maps every character in place by the ASCII upper-case mapping (a lower-case letter moves down by 32, anything else stays), so the length is kept and no ASCII lower-case letter remains |
| JsText.Lower | his/public/main.js:166 | `toLowerCase` maps every character in place by the ASCII lower-case mapping (an upper-case letter moves up by 32, anything else stays), so the length is kept and no ASCII upper-case letter remains |
| JsText.Prefix | his/server.js:35-37 | `substring(0, n)` is the prefix of length min(n, length) |
| JsText.NatToString | his/server.js:36-40 | `toString` of a natural number: digits only, a leading zero only for 0, one digit exactly below 10 |
| JsText.DecimalRoundTrip | his/server.js:36-40 | the decimal text of n reads back as n |
| JsText.PadStart | his/server.js:38-39 | `padStart` reaches the target length by putting fill characters before the unchanged text |
| JsText.Includes | his/public/main.js:174 | `includes` holds exactly when the term occurs at some position |
| JsText.IncludesEmpty | src/pages/HisPage.tsx:143 | every string includes the empty string |
| JsText.TrimStart | his/public/main.js:168 | the result is the suffix of the string left after a blank prefix, and it starts with a non-whitespace character unless empty, which happens exactly for a blank string |
| JsText.TrimEnd | his/public/main.js:168 | the result is the prefix of the string left before a blank suffix, and it ends with a non-whitespace character unless empty, which happens exactly for a blank string |
| JsText.Trim | his/public/main.js:168 | `trim()` is a slice of the string with only whitespace before and after it, starts and ends with a non-whitespace character, and is empty exactly when the string is all whitespace |
| JsText.LowerKeepsBlank | his/public/main.js:166-168 | lower-casing does not change whether a term is blank |
| JsText.LowerTrimEmptyIffBlank | his/public/main.js:166-168 | a lower-cased search term trims to "" exactly when the term is blank |
| JsText.JoinEmpty | src/pages/LisPage.tsx:159 | joining non-empty parts gives "" exactly when there are no parts |
| JsText.Join | src/pages/LisPage.tsx:159 | `join` of no parts is ""; otherwise the result starts with the first part |
| JsText.JoinShape | lis/public/main.js:122 | a join is as long as its parts plus one separator between each two, and ends with the last part |
| JsNumber.FromIntTruthy | src/pages/LisPage.tsx:154 | an integer is truthy exactly when it is not zero |
| JsNumber.ParseIntRoundTrip | his/server.js:130 | `parseInt` of an integer's decimal text gives that integer back |
| JsNumber.ParseInt | his/server.js:130 | `parseInt` gives NaN for a blank string and for one whose first non-blank character is neither a digit nor a sign; a negative result needs a leading `-`; a string of decimal digits reads as its decimal value |
| Fhir.Resources | lis/server.js:42-44 | `(entry \|\| []).map(e => e.resource)`: one resource per entry, in order, none without entries |
| Fhir.FindExtension | src/pages/LisPage.tsx:150-152 | `find` gives the first extension with the URL, or nothing when no extension has it |
| Fhir.FindExtensionAppend | his/server.js:125-146 | the first match in a concatenation is the first match in the first part, else in the second |
| Seqs.Filter | his/public/main.js:173-175 | `filter` keeps only elements that pass and never adds any |
| Seqs.FilterIsSubsequence | his/public/main.js:173-175 | `filter` keeps elements in their original order |
| Seqs.FilterMultiplicity | his/public/main.js:173-175 | `filter` keeps every copy of a passing element and no copy of a failing one |
| Seqs.FilterAllPass | src/pages/HisPage.tsx:142-144 | filtering with a predicate that everything passes keeps the whole sequence |
| Seqs.FilterAppend | src/pages/HisPage.tsx:59-63 | filtering `s + [x]` filters `s` and then keeps or drops `x` |
| Fields.ConcatFields | his/server.js:42 | concatenating the six ID fields places each at its offset, and the count and year fields are exactly the decimal texts of their numbers |
| HisServer.GeneratePatientId | his/server.js:31-43 | "Unknown" when any argument is falsy; the ID is never empty |
| HisServer.PaddedTwoDigits | his/server.js:38-39 | a day or month padded to two digits still reads as itself; a zero is added only below 10 |
| HisServer.GeneratedIdLayout | his/server.js:31-43 | at the fields' lengths, a generated ID holds the patient and doctor letters, the two-digit day and month, and exactly the decimal texts of the test count and the year |
| HisServer.CreateLabRequest | his/server.js:56-147 | a 400 error exactly when name, doctor or a non-empty test list is missing; otherwise the ServiceRequest's fields and the extensions pushed for each truthy value, in the order age, gender, weight |
| HisServer.ToLabResult | his/server.js:189-197 | the report's id, status, conclusion and date; its subject display or "Unknown"; one display per result, none without results |
| HisServer.LabResults | his/server.js:187-198 | one lab result per bundle entry, in order, none without entries |
| LisServer.TestsOf | lis/server.js:47-50 | one `{ code, name }` per coding, in order; `[]` when code or coding is absent |
| LisServer.ToLabRequest | lis/server.js:52-60 | id, status and extensions passed through; patient name, patient ID and doctor fall back to "Unknown" when falsy |
| LisServer.LabRequests | lis/server.js:42-61 | one lab request per bundle entry, in order, none without entries |
| LisServer.ResultDisplay | lis/server.js:94 | the display line starts with "name: value unit (interpretation)"; " - note" follows only for a non-empty note |
| LisServer.ResultReferences | lis/server.js:93-95 | one display-only reference per submitted test, in order |
| LisServer.SubmitLabResults | lis/server.js:73-96 | a 400 error exactly when `requestId` is falsy or `testResults` is absent or empty; otherwise the report's status (submitted or "final"), subject, conclusion and results, with `effectiveDateTime` and `issued` from two separate clock readings |
| LabApi.PatientDetails | src/pages/LisPage.tsx:146-160 | the details line is empty exactly when there are no extensions or none of age, gender and weight is shown; a shown age opens it and a shown weight closes it |
| LabApi.PatientDetailsAllShown | src/pages/LisPage.tsx:154-159 | with all three shown the line is "Age: a \| Gender: g \| Weight: w kg" |
| LabApi.PatientDetailsAgeGender | src/pages/LisPage.tsx:154-159 | with age and gender shown and no weight the line is "Age: a \| Gender: g" |
| LabApi.PatientDetailsGenderOnly | src/pages/LisPage.tsx:154-159 | with only the gender shown the line is "Gender: g" |
| HisPage.CheckboxChange | src/pages/HisPage.tsx:57-66 | checking appends the code; unchecking removes every copy of it and keeps the other codes, their order and their counts; other fields untouched |
| HisPage.CheckThenUncheck | src/pages/HisPage.tsx:57-66 | checking then unchecking a code that was not selected restores the form |
| HisPage.TestLabel | src/pages/HisPage.tsx:83 | a known code's label, otherwise the code itself |
| HisPage.CheckboxLabelsAgree | src/pages/HisPage.tsx:147-167 | every checkbox's label is the label its code is submitted with |
| HisPage.SelectedTests | src/pages/HisPage.tsx:82-88 | one `{ code, name }` per selected code, in order, named by its label |
| HisPage.SubmitBody | src/pages/HisPage.tsx:72-104 | nothing is sent exactly when the age or weight breaks its number input's range or step (age 0 to 120 in steps of 1, weight 0 to 500 in steps of 0.1, an empty field always passing), or when a name or the test selection is missing; otherwise every field as typed and the selected tests |
| HisPage.NumberConstraintsBlock | src/pages/HisPage.tsx:226-268 | an age of 130 or a weight of 70.05 stops the submit; with both fields empty, only the name and test check decides |
| HisPage.AfterResponse | src/pages/HisPage.tsx:109-129 | a successful response empties every field and the test list; a failure keeps the form |
| HisPage.FilteredResults | src/pages/HisPage.tsx:142-144 | the results, in order and with their counts, whose lower-cased patient name includes the lower-cased term; none while nothing is loaded |
| HisPage.EmptyTermKeepsAll | src/pages/HisPage.tsx:142-144 | an empty search term keeps every result |
| LisPage.EnterResults | src/pages/LisPage.tsx:64-80 | one row per test, in order, with its code and name and empty value, unit, interpretation and note; empty conclusion |
| LisPage.WithFieldOnlyThat | src/pages/LisPage.tsx:84 | setting one field of a row changes that field and no other |
| LisPage.UpdateTestResult | src/pages/LisPage.tsx:82-86 | the same number of rows; only the chosen field of the chosen row changes |
| LisPage.SubmitPayload | src/pages/LisPage.tsx:88-110 | nothing is sent while a `required` control (lines 269, 280, 291 and 326: a row's value, unit or interpretation, or the conclusion) is empty, nor without a selected request; otherwise its id and patient, the rows, the conclusion and status "final" |
| LisPage.EnteredFormBlocked | src/pages/LisPage.tsx:264-270 | the form as just opened for a request with tests cannot be sent, since its inputs start empty |
| LisPage.GetPatientDetails | src/pages/LisPage.tsx:145-160 | the pushed parts joined with " \| " are the details line of the request's extensions |
| HisClient.SubmitForm | his/public/main.js:37-65 | an error and no request exactly when no test is checked; otherwise every field as typed and one test per checked box, in order, named by its trimmed label |
| HisClient.StatusClass | his/public/main.js:139 | "completed" exactly for status "final", otherwise "preliminary" |
| HisClient.DateText | his/public/main.js:140 | "Unknown date" when the date is absent or empty, otherwise the locale's rendering |
| HisClient.Card | his/public/main.js:139-157 | the heading, date, status class and text; a conclusion line only for a truthy conclusion; one line per result element, in order, with its text, or "null" for an element the server sent as JSON `null` |
| HisClient.Display | his/public/main.js:127-163 | "No matching results found." for no results, otherwise one card per result, in order |
| HisClient.SearchResults | his/public/main.js:165-178 | all results for a blank term; otherwise those, in order and with their counts, whose lower-cased name includes the lower-cased untrimmed term |
| HisClient.ResultsTab.constructor | his/public/main.js:103 | `allLabResults` starts empty |
| HisClient.ResultsTab.FetchLabResults | his/public/main.js:105-125 | a loaded list (absent counts as empty) replaces `allLabResults`: "No lab results found." when empty, else its cards; an error keeps the list and shows the error notice |
| HisClient.ResultsTab.FilterResults | his/public/main.js:165-178 | shows the search results over `allLabResults` and leaves `allLabResults` unchanged |
| HisClient.ResultsTab.ResultsTabClicked | his/public/main.js:181-185 | with results already loaded nothing changes; otherwise it ends as a fetch does: the loaded list, "No lab results found." for an empty one and its cards otherwise, or the list still empty and the error notice |
| LisClient.ExtractPatientFields | lis/public/main.js:43-55 | each field is `''` when there are no extensions or no extension with its URL |
| LisClient.ExtractedAgreesWithShown | lis/public/main.js:98-110 | an extracted age, gender or weight is truthy exactly when the React LIS page shows it, and with the same text |
| LisClient.DetailLinesArePatientDetailParts | lis/public/main.js:61-63 | a row's detail lines are the parts of the React page's details line |
| LisClient.OpenFormDetails | lis/public/main.js:112-123 | the pushed parts joined with " \| " (left empty when nothing is shown) are the details line of the React LIS page |
| LisClient.StatusClass | lis/public/main.js:39 | "status-active" exactly for status "active", otherwise "status-completed" |
| LisClient.ActionFor | lis/public/main.js:73-76 | an "Enter Results" button for the request's id exactly when it is active, otherwise a disabled "Completed" button |
| LisClient.RowOf | lis/public/main.js:57-78 | the patient, ID line, detail lines, doctor, one test name per test, status pill and action of a row |
| LisClient.ResetAndHide | lis/public/main.js:228-229 | the form is hidden, the entered values and the conclusion are emptied, and the rest is kept |
| LisClient.CollectTestResults | lis/public/main.js:181-201 | one result per test input, in order: code and name from its data attributes; value, unit, interpretation and note from the same index |
| LisClient.SubmissionOf | lis/public/main.js:210-215 | the request ID, patient, test results and conclusion, and no status |
| LisClient.RequestsPage.constructor | lis/public/main.js:10-14 | `currentRequests` starts empty while the first fetch is loading |
| LisClient.RequestsPage.DisplayRequests | lis/public/main.js:35-90 | one row per request, in order |
| LisClient.RequestsPage.FetchLabRequests | lis/public/main.js:13-33 | a loaded list (absent counts as empty) replaces `currentRequests`: only the no-data row when empty, else one row per request; an error keeps the list and shows the error row |
| LisClient.RequestsPage.OpenResultForm | lis/public/main.js:92-170 | the hidden fields, the details line, empty inputs per test and the shown form; the conclusion keeps its text |
| LisClient.RequestsPage.ClickAction | lis/public/main.js:83-88 | an "Enter Results" button opens the form for its own request: the request ID and patient, the details line, blank inputs for each test, the conclusion kept; any other click changes nothing; the list and table are kept |
| LisClient.RequestsPage.EditTest | lis/public/main.js:132-160 | typing changes one input of one test; a select takes only one of its options |
| LisClient.RequestsPage.EditConclusion | lis/public/main.js:178 | typing changes only the conclusion |
| LisClient.RequestsPage.Submit | lis/public/main.js:173-216 | nothing is sent while a required input is empty; otherwise the body carries the collected results and no status |
| LisClient.RequestsPage.SubmitAnswered | lis/public/main.js:218-237 | success resets and hides the form and fetches again: the loaded list shown as the no-data row or one row per request, or the old list kept with the error row; failure changes nothing |
| LisClient.RequestsPage.Cancel | lis/public/main.js:252-255 | the form is reset and hidden; the list and table are kept |
| RoundTrip.ServiceRequestRoundTrip | lis/server.js:43-60 | once stored under a FHIR id, a HIS request is listed by the LIS with that id, its patient, doctor, patient ID, status "active", its extensions and the ordered tests, in order, with code "unknown" for an empty code |
| RoundTrip.ShownFromHisExtensions | his/server.js:124-146 | the details the LIS pages show for a HIS request: the parsed, non-zero age; the gender; the parsed, non-zero weight |
| RoundTrip.DetailsOfHisRequest | src/pages/LisPage.tsx:146-160 | a HIS request with age n, a gender and no weight reads "Age: n \| Gender: g", or "Gender: g" for age 0 |
| RoundTrip.DiagnosticReportRoundTrip | his/server.js:188-198 | the HIS lists a LIS report with the submitted patient or "Unknown", the submitted status or "final", the conclusion, the effective time and one display per test |
| RoundTrip.HisPageBodyAccepted | his/server.js:70 | a body the React HIS page sends always passes the HIS server's check |
| RoundTrip.HisClientBodyAccepted | his/server.js:70 | a body the plain HIS page sends passes the check exactly when both names were typed |
| RoundTrip.HisRequestCanBeEntered | lis/public/main.js:39-76 | once stored under a FHIR id, a HIS request is listed by the plain LIS page as active, with an "Enter Results" button carrying that id and opening the form for it |
| RoundTrip.LisPageSubmissionFinal | lis/server.js:75-83 | a filled-in body of the React LIS page is accepted exactly when the request has an id and a row; the HIS then shows "completed" |
| RoundTrip.LisClientSubmissionFinal | lis/server.js:75-83 | the plain LIS page's body, sent without a status, is accepted exactly with a request ID and a test; the HIS then shows "completed" |
| RoundTrip.LisClientResultLines | lis/server.js:93-95 | each result entered on the plain LIS page reads back on the HIS side as "name: value unit (interpretation)", then " - note" when a note was entered |

## Left out

**I/O and plumbing**

- HTTP, the database and the FHIR server are I/O. This covers:
  - the Express routes and status codes as transport;
  - the MySQL pool and its INSERT and UPDATE statements;
  - the axios calls;
  - the `PUT` that marks a ServiceRequest `completed` after a result is posted.

  The model computes the values the handlers send. The outcome of each request
  the pages make is a parameter.
- The server reuses a released database connection for the `fhir_id` update.
  This is a resource-lifetime matter of I/O code.
- The clock is left out. `new Date()`, `getDate`/`getMonth`/`getFullYear`,
  `toISOString` and `toLocaleDateString` become the parameters `day`, `month`,
  `year`, `effectiveAt`, `issuedAt` and `localeDate`. The two `new Date()`
  readings of lis/server.js:90-91 are two parameters, so the model does not
  assume they are equal.
- HisServer.CreateLabRequest: `parseFloat` is a parameter. Floating point is
  out of scope, so weights are opaque numbers. JSON turns `NaN` into `null`,
  and the model represents that as `None`.
- JsText.Upper: case mapping is ASCII only. The Unicode mappings of
  `toUpperCase`/`toLowerCase` (including ones that change a string's length)
  are not modelled. The same holds for JsText.Lower.
- JsText.Prefix: counts characters, not UTF-16 code units. For a name whose
  first three characters include one outside the Basic Multilingual Plane,
  `substring(0, 3)` in his/server.js:35,37 keeps fewer characters (it may cut a
  surrogate pair in half), which the generated ID then holds.
- JsNumber.ParseInt: digits are base 10 or base 16 (with `0x`) and the result
  is an unbounded integer. Loss of precision beyond 2^53 and exponent
  renderings of very large numbers are not modelled.

**JSON values**

- JSON values of an unexpected type are not modelled: a string where a number
  is expected, an object where an array is expected. This also covers
  `testList` as a non-array, which would make `testList.length` misbehave.
- LisServer.ResultDisplay: a test field sent as JSON `null` and an absent one
  are both `None`, rendered as "undefined". In lis/server.js:94 a `null` field
  renders as "null" instead. The note behaves the same either way, since both
  are falsy.
- HisPage.SubmitBody: the number the browser reads from an age or weight text
  is the parameter `asNumber`, and the step check is exact rather than done in
  floating point. Text a number input cannot parse reaches the form state as
  "", and the browser's block of such a form (its `badInput` state) is not
  modelled, since the form state does not record it.
- HisPage.TestLabel: keys inherited from `Object.prototype` (such as
  `"toString"`) are not modelled. Such a code cannot come from the checkboxes.

**Rendering and the browser**

- Rendering is left out. This covers:
  - React rendering, toasts, `useQuery` caching, refetching and `setTimeout`;
  - the scroll into view;
  - HTML escaping: interpolated values are assumed not to contain markup.

  The DOM is modelled by the values written into it.
- The transient "Loading …" notices are left out. Each fetch is modelled once
  its request has ended. The notice is the state only while a request is in
  flight.
- LisClient.CollectTestResults: the lookup of an input by `id` through the
  index parsed from another input's `id` is modelled as reading the same
  test's inputs. For the ids `openResultForm` generates, the two agree.
- LisClient.RequestsPage.Submit: the browser blocks a submit while a
  `required` input is empty. Only the per-test inputs are treated as required,
  because the page's HTML (the conclusion, request-id and patient-name
  fields) is not part of this model.
- LisClient.ResetAndHide: the request-id and patient-name inputs are assumed
  to be hidden inputs, which `reset()` does not clear. The conclusion is
  assumed to have an empty default.
- `testsText` in lis/public/main.js:40 is computed and never used, so it is
  not modelled.

**Parts of the code not modelled**

- These parts of the React pages are not modelled:
  - HisPage's `handleInputChange`, which is a generic setter of one field;
  - the reset of the React LIS page after a successful submit;
  - the form's show/hide flags.
- src/pages/HomePage.tsx and src/pages/Index.tsx hold no logic.
- Status reconciliation between the two systems is not modelled: the code has
  none. The LIS page leaves only active requests with an enabled button, and
  that is how it is modelled.
