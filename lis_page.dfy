/** The LIS page of the React front end (src/pages/LisPage.tsx): the result
    form opened for a request, the update of one field of one row, the body
    sent on submit, and the patient-details line shown for each request.
    Rendering, toasts, the query cache and the refetch are left out. */
module LisPage {
  import opened Wrappers
  import opened JsText
  import opened Fhir
  import opened LabApi

  /** The result form: the request it is for, one row per test, the conclusion. */
  datatype ResultForm = ResultForm(request: LabRequest, rows: seq<TestResult>, conclusion: string)

  /** The fields of a row, `keyof TestResult`. */
  datatype Field = Code | Name | Value | Unit | Interpretation | Note

  /** A row with `field` set to `v`. */
  function WithField(row: TestResult, field: Field, v: string): TestResult {
    match field
    case Code => row.(code := Some(v))
    case Name => row.(name := Some(v))
    case Value => row.(value := Some(v))
    case Unit => row.(unit := Some(v))
    case Interpretation => row.(interpretation := Some(v))
    case Note => row.(note := Some(v))
  }

  /** The value of `field` in a row. */
  function FieldOf(row: TestResult, field: Field): Option<string> {
    match field
    case Code => row.code
    case Name => row.name
    case Value => row.value
    case Unit => row.unit
    case Interpretation => row.interpretation
    case Note => row.note
  }

  /** Setting a field changes that field and no other. */
  lemma WithFieldOnlyThat(row: TestResult, field: Field, v: string)
    ensures FieldOf(WithField(row, field, v), field) == Some(v)
    ensures forall g :: g != field ==> FieldOf(WithField(row, field, v), g) == FieldOf(row, g)
  {
  }

  // --------------------------------------------------------- opening the form

  /** `handleEnterResults`: one row per test of the request, in order, with the
      test's code and name and every other field empty; the conclusion is empty. */
  function EnterResults(request: LabRequest): (form: ResultForm)
    ensures form.request == request && form.conclusion == ""
    ensures |form.rows| == |request.tests|
    ensures forall i :: 0 <= i < |form.rows| ==>
      && form.rows[i].code == request.tests[i].code && form.rows[i].name == request.tests[i].name
      && form.rows[i].value == Some("") && form.rows[i].unit == Some("")
      && form.rows[i].interpretation == Some("") && form.rows[i].note == Some("")
  {
    var tests := request.tests;
    ResultForm(request,
      seq(|tests|, i requires 0 <= i < |tests| =>
        TestResult(tests[i].code, tests[i].name, Some(""), Some(""), Some(""), Some(""))),
      "")
  }

  // -------------------------------------------------------- editing one field

  /** `handleUpdateTestResult`: a copy of the rows in which only `field` of row
      `index` is set to `v`. */
  method UpdateTestResult(rows: seq<TestResult>, index: nat, field: Field, v: string)
    returns (updated: seq<TestResult>)
    requires index < |rows|
    ensures |updated| == |rows|
    ensures FieldOf(updated[index], field) == Some(v)
    ensures forall g :: g != field ==> FieldOf(updated[index], g) == FieldOf(rows[index], g)
    ensures forall i :: 0 <= i < |rows| && i != index ==> updated[i] == rows[i]
  {
    var copy := new TestResult[|rows|](i requires 0 <= i < |rows| => rows[i]);
    copy[index] := WithField(copy[index], field, v);
    updated := copy[..];
    WithFieldOnlyThat(rows[index], field, v);
  }

  // ------------------------------------------------------------------ submit

  /** The browser's check of the form's `required` controls: every row's value
      and unit input and interpretation select, and the conclusion, hold something. */
  predicate FormFilled(rows: seq<TestResult>, conclusion: string) {
    && (forall i :: 0 <= i < |rows| ==>
          Truthy(rows[i].value) && Truthy(rows[i].unit) && Truthy(rows[i].interpretation))
    && conclusion != ""
  }

  /** A submit up to the request: the browser blocks a form with an empty
      required control, and `handleSubmitResults` sends nothing without a
      selected request; otherwise the body carries its id and patient, the
      rows and the conclusion, always with status "final". */
  function SubmitPayload(selected: Option<LabRequest>, rows: seq<TestResult>, conclusion: string)
    : (body: Option<ResultSubmission>)
    ensures body.None? <==> !FormFilled(rows, conclusion) || selected.None?
    ensures body.Some? ==>
      && body.value.requestId == selected.value.id
      && body.value.patientName == Some(selected.value.patientName)
      && body.value.testResults == Some(rows)
      && body.value.conclusion == Some(conclusion)
      && body.value.status == Some("final")
  {
    if !FormFilled(rows, conclusion) || selected.None? then None
    else Some(ResultSubmission(selected.value.id, Some(selected.value.patientName), Some(rows),
                               Some(conclusion), Some("final")))
  }

  /** The form as opened is never sent while it has a test: its inputs start empty. */
  lemma EnteredFormBlocked(request: LabRequest)
    requires |request.tests| > 0
    ensures var form := EnterResults(request);
      SubmitPayload(Some(request), form.rows, form.conclusion).None?
  {
    var form := EnterResults(request);
    assert !Truthy(form.rows[0].value);
  }

  // --------------------------------------------------------- patient details

  /** `getPatientDetails`, which collects the present parts and joins them. */
  method GetPatientDetails(request: LabRequest) returns (details: string)
    ensures details == PatientDetails(request.extensions)
  {
    var parts: seq<string> := [];
    if request.extensions.Some? {
      var exts := request.extensions.value;
      var ageExt := FindExtension(exts, AgeUrl);
      var genderExt := FindExtension(exts, GenderUrl);
      var weightExt := FindExtension(exts, WeightUrl);
      if ageExt.Some? && ageExt.value.valueInteger.Some? && ageExt.value.valueInteger.value.IsTruthy() {
        parts := parts + ["Age: " + ageExt.value.valueInteger.value.text];
        assert "Age: " + ageExt.value.valueInteger.value.text + "" == "Age: " + ageExt.value.valueInteger.value.text;
      }
      if genderExt.Some? && Truthy(genderExt.value.valueString) {
        parts := parts + ["Gender: " + genderExt.value.valueString.value];
        assert "Gender: " + genderExt.value.valueString.value + "" == "Gender: " + genderExt.value.valueString.value;
      }
      if weightExt.Some? && weightExt.value.valueDecimal.Some? && weightExt.value.valueDecimal.value.IsTruthy() {
        parts := parts + ["Weight: " + weightExt.value.valueDecimal.value.text + " kg"];
      }
      assert parts == PatientDetailParts(request.extensions);
    }
    details := Join(parts, " | ");
  }
}
