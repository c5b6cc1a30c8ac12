/** The plain-JavaScript LIS page (lis/public/main.js): the table of pending
    requests kept in the module variable `currentRequests`, the result form
    opened for an active request, and the body its submit sends.  The DOM is
    reduced to the values written into it; the fetch and submit outcomes are
    parameters. */
module LisClient {
  import opened Wrappers
  import opened JsText
  import opened JsNumber
  import opened Fhir
  import opened LabApi

  // ------------------------------------------------------ patient details

  /** A JavaScript value read out of an extension: `''` when the extension is
      missing, `undefined` when it lacks the field, else a string or a number. */
  datatype JsValue = Undefined | Str(s: string) | Num(n: Number) {
    predicate IsTruthy() {
      match this
      case Undefined => false
      case Str(s) => s != ""
      case Num(n) => n.IsTruthy()
    }

    /** The value inside a template literal. */
    function Text(): string {
      match this
      case Undefined => "undefined"
      case Str(s) => s
      case Num(n) => n.text
    }
  }

  /** `patientAge`, `patientGender` and `patientWeight` after the extraction. */
  datatype PatientFields = PatientFields(age: JsValue, gender: JsValue, weight: JsValue)

  function NumberField(v: Option<Number>): JsValue {
    if v.Some? then Num(v.value) else Undefined
  }

  function StringField(v: Option<string>): JsValue {
    if v.Some? then Str(v.value) else Undefined
  }

  /** The extraction of lis/public/main.js:43-55 and 98-110: each field starts
      as `''` and, when there are extensions, becomes the matching value of the
      first extension with its URL, staying `''` when there is none. */
  function ExtractPatientFields(extensions: Option<seq<Extension>>): (f: PatientFields)
    ensures extensions.None? ==> f == PatientFields(Str(""), Str(""), Str(""))
    ensures extensions.Some? && FindExtension(extensions.value, AgeUrl).None? ==> f.age == Str("")
    ensures extensions.Some? && FindExtension(extensions.value, GenderUrl).None? ==> f.gender == Str("")
    ensures extensions.Some? && FindExtension(extensions.value, WeightUrl).None? ==> f.weight == Str("")
  {
    if extensions.None? then PatientFields(Str(""), Str(""), Str(""))
    else
      var ageExt := FindExtension(extensions.value, AgeUrl);
      var genderExt := FindExtension(extensions.value, GenderUrl);
      var weightExt := FindExtension(extensions.value, WeightUrl);
      PatientFields(
        if ageExt.Some? then NumberField(ageExt.value.valueInteger) else Str(""),
        if genderExt.Some? then StringField(genderExt.value.valueString) else Str(""),
        if weightExt.Some? then NumberField(weightExt.value.valueDecimal) else Str(""))
  }

  /** The optional detail lines of a table row, in the order age, gender, weight. */
  function DetailLines(f: PatientFields): seq<string> {
    (if f.age.IsTruthy() then ["Age: " + f.age.Text()] else [])
    + (if f.gender.IsTruthy() then ["Gender: " + f.gender.Text()] else [])
    + (if f.weight.IsTruthy() then ["Weight: " + f.weight.Text() + " kg"] else [])
  }

  /** The extracted fields are shown exactly when the React LIS page shows them,
      with the same text. */
  lemma ExtractedAgreesWithShown(extensions: Option<seq<Extension>>)
    requires extensions.Some?
    ensures var f := ExtractPatientFields(extensions);
      var exts := extensions.value;
      && (f.age.IsTruthy() <==> AgeShown(exts).Some?)
      && (f.age.IsTruthy() ==> f.age.Text() == AgeShown(exts).value)
      && (f.gender.IsTruthy() <==> GenderShown(exts).Some?)
      && (f.gender.IsTruthy() ==> f.gender.Text() == GenderShown(exts).value)
      && (f.weight.IsTruthy() <==> WeightShown(exts).Some?)
      && (f.weight.IsTruthy() ==> f.weight.Text() == WeightShown(exts).value)
  {
  }

  /** The detail lines of a row are the parts the React LIS page joins. */
  lemma {:induction false} DetailLinesArePatientDetailParts(extensions: Option<seq<Extension>>)
    ensures DetailLines(ExtractPatientFields(extensions)) == PatientDetailParts(extensions)
  {
    var f := ExtractPatientFields(extensions);
    if extensions.Some? {
      ExtractedAgreesWithShown(extensions);
      var exts := extensions.value;
      if f.age.IsTruthy() {
        assert "Age: " + f.age.Text() + "" == "Age: " + f.age.Text();
      }
      if f.gender.IsTruthy() {
        assert "Gender: " + f.gender.Text() + "" == "Gender: " + f.gender.Text();
      }
      assert DetailLines(f) == Labelled(AgeShown(exts), "Age: ", "")
        + Labelled(GenderShown(exts), "Gender: ", "") + Labelled(WeightShown(exts), "Weight: ", " kg");
    }
  }

  /** The details line of the opened form, built by pushing the truthy parts. */
  method OpenFormDetails(request: LabRequest) returns (details: string)
    ensures details == PatientDetails(request.extensions)
  {
    var f := ExtractPatientFields(request.extensions);
    details := "";
    if f.age.IsTruthy() || f.gender.IsTruthy() || f.weight.IsTruthy() {
      var detailsHtml: seq<string> := [];
      if f.age.IsTruthy() {
        detailsHtml := detailsHtml + ["Age: " + f.age.Text()];
      }
      if f.gender.IsTruthy() {
        detailsHtml := detailsHtml + ["Gender: " + f.gender.Text()];
      }
      if f.weight.IsTruthy() {
        detailsHtml := detailsHtml + ["Weight: " + f.weight.Text() + " kg"];
      }
      assert detailsHtml == DetailLines(f);
      details := Join(detailsHtml, " | ");
    }
    DetailLinesArePatientDetailParts(request.extensions);
  }

  // ----------------------------------------------------------- table rows

  /** The status pill's class: "status-active" for an active request, else
      "status-completed".  The same two-way choice as the HIS badge class
      (`HisClient.StatusClass`), made here on the status "active". */
  function StatusClass(status: Option<string>): (c: string)
    ensures c == "status-active" <==> status == Some("active")
    ensures c == "status-active" || c == "status-completed"
  {
    if status == Some("active") then "status-active" else "status-completed"
  }

  /** The action cell: an enabled "Enter Results" button whose listener opens
      the form for `opens`, or a disabled "Completed" button with no listener. */
  datatype ActionButton = EnterResultsButton(dataRequestId: string, opens: LabRequest) | CompletedButton

  function ActionFor(request: LabRequest): (b: ActionButton)
    ensures b.EnterResultsButton? <==> request.status == Some("active")
    ensures b.EnterResultsButton? ==> b.dataRequestId == Render(request.id) && b.opens == request
  {
    if request.status == Some("active") then EnterResultsButton(Render(request.id), request)
    else CompletedButton
  }

  /** What one table row shows. */
  datatype RequestRow = RequestRow(
    patientName: string,
    patientIdLine: string,
    detailLines: seq<string>,
    doctorName: string,
    testNames: seq<string>,
    statusClass: string,
    statusText: string,
    action: ActionButton)

  /** The row of a request: its patient with the detail lines the React page
      would join, its doctor, one list item per test, the status pill and the action. */
  function RowOf(request: LabRequest): (row: RequestRow)
    ensures row.patientName == request.patientName && row.patientIdLine == "ID: " + request.patientId
    ensures row.detailLines == PatientDetailParts(request.extensions)
    ensures row.doctorName == request.doctorName
    ensures |row.testNames| == |request.tests|
    ensures forall i :: 0 <= i < |row.testNames| ==> row.testNames[i] == Render(request.tests[i].name)
    ensures row.statusClass == StatusClass(request.status) && row.statusText == Render(request.status)
    ensures row.action == ActionFor(request)
  {
    DetailLinesArePatientDetailParts(request.extensions);
    RequestRow(
      request.patientName,
      "ID: " + request.patientId,
      DetailLines(ExtractPatientFields(request.extensions)),
      request.doctorName,
      seq(|request.tests|, i requires 0 <= i < |request.tests| => Render(request.tests[i].name)),
      StatusClass(request.status),
      Render(request.status),
      ActionFor(request))
  }

  /** The content of `requests-list`: a single no-data row with a message, or one row per request. */
  datatype TableView = NoData(message: string) | Rows(rows: seq<RequestRow>)

  // ----------------------------------------------------------- result form

  /** The inputs generated for one test: the heading, the value input's
      `data-test-code` and `data-test-name`, and what is entered. */
  datatype TestInputs = TestInputs(
    heading: string,
    dataTestCode: string,
    dataTestName: string,
    value: string,
    unit: string,
    interpretation: string,
    note: string)

  /** The inputs of a test as `openResultForm` generates them, all empty. */
  function BlankInputs(test: TestItem): TestInputs {
    TestInputs(Render(test.name), Render(test.code), Render(test.name), "", "", "", "")
  }

  /** The values of the options of an interpretation select. */
  const InterpretationOptions: seq<string> :=
    ["", "Normal", "High", "Low", "Abnormal", "Critical high", "Critical low"]

  /** The entries of a test a user can change. */
  datatype InputField = ValueInput | UnitInput | InterpretationInput | NoteInput

  /** The result form: its hidden request ID and patient name, the details line,
      the per-test inputs, the conclusion and whether the container is hidden. */
  datatype ResultFormView = ResultFormView(
    requestId: string,
    patientName: string,
    details: string,
    tests: seq<TestInputs>,
    conclusion: string,
    hidden: bool)

  /** `resultForm.reset()` followed by hiding the container: the entered values
      and the conclusion return to empty. */
  function ResetAndHide(form: ResultFormView): (f: ResultFormView)
    ensures f.hidden && f.conclusion == ""
    ensures f.requestId == form.requestId && f.patientName == form.patientName && f.details == form.details
    ensures |f.tests| == |form.tests|
    ensures forall i :: 0 <= i < |f.tests| ==>
      f.tests[i] == form.tests[i].(value := "", unit := "", interpretation := "", note := "")
  {
    form.(
      tests := seq(|form.tests|, i requires 0 <= i < |form.tests| =>
        form.tests[i].(value := "", unit := "", interpretation := "", note := "")),
      conclusion := "",
      hidden := true)
  }

  /** The browser submits the form only when every required input (value,
      unit, interpretation) of every test holds something. */
  predicate RequiredFilled(tests: seq<TestInputs>) {
    forall i :: 0 <= i < |tests| ==> tests[i].value != "" && tests[i].unit != "" && tests[i].interpretation != ""
  }

  /** The test result read from one test's inputs. */
  function ResultOf(inputs: TestInputs): TestResult {
    TestResult(Some(inputs.dataTestCode), Some(inputs.dataTestName), Some(inputs.value),
               Some(inputs.unit), Some(inputs.interpretation), Some(inputs.note))
  }

  /** The `testResults` assembly: one result per value input, in document
      order, with code and name from that input's data attributes and unit,
      interpretation and note from the inputs of the same index. */
  method CollectTestResults(tests: seq<TestInputs>) returns (testResults: seq<TestResult>)
    ensures |testResults| == |tests|
    ensures forall i :: 0 <= i < |tests| ==>
      && testResults[i].code == Some(tests[i].dataTestCode) && testResults[i].name == Some(tests[i].dataTestName)
      && testResults[i].value == Some(tests[i].value) && testResults[i].unit == Some(tests[i].unit)
      && testResults[i].interpretation == Some(tests[i].interpretation) && testResults[i].note == Some(tests[i].note)
  {
    testResults := [];
    var k := 0;
    while k < |tests|
      invariant 0 <= k <= |tests|
      invariant |testResults| == k
      invariant forall i :: 0 <= i < k ==> testResults[i] == ResultOf(tests[i])
    {
      testResults := testResults + [ResultOf(tests[k])];
      k := k + 1;
    }
  }

  /** The body the submit handler sends: the hidden fields, the collected test
      results and the conclusion, and no status. */
  function SubmissionOf(form: ResultFormView, testResults: seq<TestResult>): (body: ResultSubmission)
    ensures body.requestId == Some(form.requestId) && body.patientName == Some(form.patientName)
    ensures body.testResults == Some(testResults) && body.conclusion == Some(form.conclusion)
    ensures body.status.None?
  {
    ResultSubmission(Some(form.requestId), Some(form.patientName), Some(testResults), Some(form.conclusion), None)
  }

  // ------------------------------------------------------------- the page

  /** How a request for `/api/lab-requests` ended: the parsed `data.labRequests`, or an error. */
  datatype FetchOutcome = Loaded(labRequests: Option<seq<LabRequest>>) | FetchFailed

  /** The page's state: the module variable `currentRequests`, the table and the result form. */
  class RequestsPage {
    var currentRequests: seq<LabRequest>
    var table: TableView
    var form: ResultFormView

    /** The page as its first fetch starts, with the result form hidden. */
    constructor()
      ensures currentRequests == [] && table == NoData("Loading laboratory requests...")
      ensures form.hidden && form.tests == []
    {
      currentRequests := [];
      table := NoData("Loading laboratory requests...");
      form := ResultFormView("", "", "", [], "", true);
    }

    /** `displayRequests`: one row per request, appended in order. */
    method DisplayRequests(requests: seq<LabRequest>)
      modifies this
      ensures currentRequests == old(currentRequests) && form == old(form)
      ensures table.Rows? && |table.rows| == |requests|
      ensures forall i :: 0 <= i < |requests| ==> table.rows[i] == RowOf(requests[i])
    {
      var rows: seq<RequestRow> := [];
      table := Rows(rows);
      var k := 0;
      while k < |requests|
        invariant 0 <= k <= |requests|
        invariant currentRequests == old(currentRequests) && form == old(form)
        invariant table == Rows(rows) && |rows| == k
        invariant forall i :: 0 <= i < k ==> rows[i] == RowOf(requests[i])
      {
        rows := rows + [RowOf(requests[k])];
        table := Rows(rows);
        k := k + 1;
      }
    }

    /** `fetchLabRequests` once the request has ended: a loaded list replaces
        `currentRequests` (absent counts as empty) and is shown, or the no-data
        row when empty; on an error the list is kept and an error row is shown. */
    method FetchLabRequests(outcome: FetchOutcome)
      modifies this
      ensures form == old(form)
      ensures outcome.Loaded? ==>
        currentRequests == (if outcome.labRequests.Some? then outcome.labRequests.value else [])
      ensures outcome.Loaded? && currentRequests == [] ==> table == NoData("No pending laboratory requests found.")
      ensures outcome.Loaded? && currentRequests != [] ==>
        table.Rows? && |table.rows| == |currentRequests|
        && forall i :: 0 <= i < |currentRequests| ==> table.rows[i] == RowOf(currentRequests[i])
      ensures outcome.FetchFailed? ==>
        currentRequests == old(currentRequests)
        && table == NoData("Error loading laboratory requests. Please try again.")
    {
      table := NoData("Loading laboratory requests...");
      if outcome.FetchFailed? {
        table := NoData("Error loading laboratory requests. Please try again.");
        return;
      }
      currentRequests := if outcome.labRequests.Some? then outcome.labRequests.value else [];
      if |currentRequests| == 0 {
        table := NoData("No pending laboratory requests found.");
        return;
      }
      DisplayRequests(currentRequests);
    }

    /** `openResultForm`: fills the hidden fields and the details line, generates
        empty inputs for each test and shows the form; the conclusion keeps what it held. */
    method OpenResultForm(request: LabRequest)
      modifies this
      ensures currentRequests == old(currentRequests) && table == old(table)
      ensures !form.hidden
      ensures form.requestId == Render(request.id) && form.patientName == request.patientName
      ensures form.details == PatientDetails(request.extensions)
      ensures form.conclusion == old(form.conclusion)
      ensures |form.tests| == |request.tests|
      ensures forall i :: 0 <= i < |request.tests| ==> form.tests[i] == BlankInputs(request.tests[i])
    {
      var details := OpenFormDetails(request);
      var tests := seq(|request.tests|, i requires 0 <= i < |request.tests| => BlankInputs(request.tests[i]));
      form := ResultFormView(Render(request.id), request.patientName, details, tests, form.conclusion, false);
    }

    /** A click on the action button of row `index`: only an "Enter Results"
        button has a listener, and it opens the form for its request. */
    method ClickAction(index: nat)
      modifies this
      ensures currentRequests == old(currentRequests) && table == old(table)
      ensures !(old(table).Rows? && index < |old(table).rows| && old(table).rows[index].action.EnterResultsButton?) ==>
        form == old(form)
      ensures old(table).Rows? && index < |old(table).rows| && old(table).rows[index].action.EnterResultsButton? ==>
        var request := old(table).rows[index].action.opens;
        && !form.hidden
        && form.requestId == Render(request.id) && form.patientName == request.patientName
        && form.details == PatientDetails(request.extensions)
        && form.conclusion == old(form.conclusion)
        && |form.tests| == |request.tests|
        && forall i :: 0 <= i < |request.tests| ==> form.tests[i] == BlankInputs(request.tests[i])
    {
      if table.Rows? && index < |table.rows| && table.rows[index].action.EnterResultsButton? {
        OpenResultForm(table.rows[index].action.opens);
      }
    }

    /** Typing into (or choosing in) an input of test `index`; a select takes
        only one of its options, and there is no input past the last test. */
    method EditTest(index: nat, field: InputField, v: string)
      modifies this
      ensures currentRequests == old(currentRequests) && table == old(table)
      ensures |form.tests| == |old(form.tests)|
      ensures form.(tests := old(form.tests)) == old(form)
      ensures forall i :: 0 <= i < |form.tests| && i != index ==> form.tests[i] == old(form.tests[i])
      ensures index < |form.tests| && field == ValueInput ==> form.tests[index] == old(form.tests[index]).(value := v)
      ensures index < |form.tests| && field == UnitInput ==> form.tests[index] == old(form.tests[index]).(unit := v)
      ensures index < |form.tests| && field == NoteInput ==> form.tests[index] == old(form.tests[index]).(note := v)
      ensures index < |form.tests| && field == InterpretationInput ==>
        form.tests[index] == if v in InterpretationOptions then old(form.tests[index]).(interpretation := v)
                             else old(form.tests[index])
    {
      if index < |form.tests| {
        var t := form.tests[index];
        var t' := match field
          case ValueInput => t.(value := v)
          case UnitInput => t.(unit := v)
          case NoteInput => t.(note := v)
          case InterpretationInput => if v in InterpretationOptions then t.(interpretation := v) else t;
        form := form.(tests := form.tests[index := t']);
      }
    }

    /** Typing the conclusion. */
    method EditConclusion(v: string)
      modifies this
      ensures currentRequests == old(currentRequests) && table == old(table)
      ensures form == old(form).(conclusion := v)
    {
      form := form.(conclusion := v);
    }

    /** The submit handler up to the request: the browser blocks a form with an
        empty required input, otherwise the body carries the form's fields. */
    method Submit() returns (body: Option<ResultSubmission>)
      ensures body.None? <==> !RequiredFilled(form.tests)
      ensures body.Some? ==>
        && body.value.requestId == Some(form.requestId) && body.value.patientName == Some(form.patientName)
        && body.value.conclusion == Some(form.conclusion) && body.value.status.None?
        && body.value.testResults.Some? && |body.value.testResults.value| == |form.tests|
        && forall i :: 0 <= i < |form.tests| ==> body.value.testResults.value[i] == ResultOf(form.tests[i])
    {
      if !RequiredFilled(form.tests) {
        return None;
      }
      var testResults := CollectTestResults(form.tests);
      body := Some(SubmissionOf(form, testResults));
    }

    /** The server's answer to a submit: on success the form is reset and hidden
        and the list is fetched again, ending as `fetchLabRequests` does; on
        failure nothing changes. */
    method SubmitAnswered(ok: bool, refetch: FetchOutcome)
      modifies this
      ensures !ok ==> currentRequests == old(currentRequests) && table == old(table) && form == old(form)
      ensures ok ==> form == ResetAndHide(old(form))
      ensures ok && refetch.Loaded? ==>
        currentRequests == (if refetch.labRequests.Some? then refetch.labRequests.value else [])
      ensures ok && refetch.Loaded? && currentRequests == [] ==> table == NoData("No pending laboratory requests found.")
      ensures ok && refetch.Loaded? && currentRequests != [] ==>
        table.Rows? && |table.rows| == |currentRequests|
        && forall i :: 0 <= i < |currentRequests| ==> table.rows[i] == RowOf(currentRequests[i])
      ensures ok && refetch.FetchFailed? ==>
        currentRequests == old(currentRequests)
        && table == NoData("Error loading laboratory requests. Please try again.")
    {
      if ok {
        form := ResetAndHide(form);
        FetchLabRequests(refetch);
      }
    }

    /** The cancel button: the form is reset and hidden. */
    method Cancel()
      modifies this
      ensures currentRequests == old(currentRequests) && table == old(table)
      ensures form == ResetAndHide(old(form))
    {
      form := ResetAndHide(form);
    }
  }
}
