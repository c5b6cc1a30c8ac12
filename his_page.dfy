/** The HIS page of the React front end (src/pages/HisPage.tsx): the request
    form's test checkboxes, its submit check and the body it sends, the reset
    after a successful submit, and the patient-name filter over the listed
    lab results.  Rendering, toasts and the query cache are left out. */
module HisPage {
  import opened Wrappers
  import opened JsText
  import opened Seqs
  import opened LabApi

  /** The form state `formData`. */
  datatype FormData = FormData(
    patientName: string,
    patientId: string,
    patientAge: string,
    patientGender: string,
    patientWeight: string,
    doctorName: string,
    tests: seq<string>)

  /** The form as first shown, and as reset after a successful submit. */
  function EmptyForm(): FormData {
    FormData("", "", "", "", "", "", [])
  }

  // ------------------------------------------------------------ checkboxes

  /** `handleCheckboxChange`: checking appends the code at the end (even when it
      is already there); unchecking removes every copy of it and keeps the
      other codes in their order. The other fields are untouched. */
  function CheckboxChange(form: FormData, code: string, checked: bool): (f: FormData)
    ensures f.(tests := form.tests) == form
    ensures checked ==> f.tests == form.tests + [code]
    ensures !checked ==> code !in f.tests && IsSubsequence(f.tests, form.tests)
    ensures !checked ==> forall t :: t != code ==> multiset(f.tests)[t] == multiset(form.tests)[t]
  {
    if checked then form.(tests := form.tests + [code])
    else
      var kept := Filter(form.tests, t => t != code);
      FilterIsSubsequence(form.tests, t => t != code);
      forall t | t != code
        ensures multiset(kept)[t] == multiset(form.tests)[t]
      {
        FilterMultiplicity(form.tests, t => t != code, t);
      }
      form.(tests := kept)
  }

  /** Checking and then unchecking a code the list did not hold gives the list back. */
  lemma CheckThenUncheck(form: FormData, code: string)
    requires code !in form.tests
    ensures CheckboxChange(CheckboxChange(form, code, true), code, false) == form
  {
    var p := (t: string) => t != code;
    FilterAppend(form.tests, code, p);
    FilterAllPass(form.tests, p);
  }

  // ---------------------------------------------------------------- labels

  /** `testLabels`: the display name of each test code. */
  const TestLabels: map<string, string> := map[
    "CBC" := "Complete Blood Count (CBC)",
    "GLUCOSE" := "Blood Glucose",
    "LIPID" := "Lipid Panel",
    "LIVER" := "Liver Function Test",
    "KIDNEY" := "Kidney Function Test",
    "THYROID" := "Thyroid Function Test",
    "HBA1C" := "HbA1c",
    "URINALYSIS" := "Urinalysis"]

  /** `availableTests`: the checkboxes, as (value, label) pairs in display order. */
  const AvailableTests: seq<(string, string)> := [
    ("CBC", "Complete Blood Count (CBC)"),
    ("GLUCOSE", "Blood Glucose"),
    ("LIPID", "Lipid Panel"),
    ("LIVER", "Liver Function Test"),
    ("KIDNEY", "Kidney Function Test"),
    ("THYROID", "Thyroid Function Test"),
    ("HBA1C", "HbA1c"),
    ("URINALYSIS", "Urinalysis")]

  /** `testLabels[code] || code`: the label, or the code itself for an unknown code. */
  function TestLabel(code: string): (name: string)
    ensures code in TestLabels ==> name == TestLabels[code]
    ensures code !in TestLabels ==> name == code
  {
    if code in TestLabels && TestLabels[code] != "" then TestLabels[code] else code
  }

  /** Every checkbox submits under the name it is shown with. */
  lemma CheckboxLabelsAgree()
    ensures forall i :: 0 <= i < |AvailableTests| ==> TestLabel(AvailableTests[i].0) == AvailableTests[i].1
  {
  }

  /** `selectedTests`: one `{ code, name }` per selected code, in order. */
  function SelectedTests(codes: seq<string>): (items: seq<TestItem>)
    ensures |items| == |codes|
    ensures forall i :: 0 <= i < |codes| ==> items[i] == TestItem(Some(codes[i]), Some(TestLabel(codes[i])))
  {
    seq(|codes|, i requires 0 <= i < |codes| => TestItem(Some(codes[i]), Some(TestLabel(codes[i]))))
  }

  // ---------------------------------------------------------------- submit

  /** The check of src/pages/HisPage.tsx:72: both names and at least one test. */
  predicate FormComplete(form: FormData) {
    form.patientName != "" && form.doctorName != "" && |form.tests| > 0
  }

  /** The constraint validation of a `type="number"` input with `min="0"`, the
      given `max` and a step of `1 / scale`: an empty value passes; otherwise the
      number it denotes (`asNumber`, the browser's reading of the value text)
      lies in 0..max and is a whole multiple of the step. */
  predicate NumberAccepted(text: string, asNumber: string -> Option<real>, max: real, scale: nat) {
    text == "" ||
    (asNumber(text).Some? &&
     var v := asNumber(text).value;
     0.0 <= v <= max && (v * scale as real).Floor as real == v * scale as real)
  }

  /** The age input (src/pages/HisPage.tsx:226-234: 0 to 120, step 1) and the
      weight input (src/pages/HisPage.tsx:259-268: 0 to 500, step 0.1) both pass. */
  predicate NumbersAccepted(form: FormData, asNumber: string -> Option<real>) {
    NumberAccepted(form.patientAge, asNumber, 120.0, 1) && NumberAccepted(form.patientWeight, asNumber, 500.0, 10)
  }

  /** A submit up to the request: the browser blocks the submit while the age
      or the weight breaks its input's constraints, and `handleSubmit` sends
      nothing when the form is incomplete; otherwise the body carries every
      field as typed and the selected tests. */
  function SubmitBody(form: FormData, asNumber: string -> Option<real>): (body: Option<LabRequestBody>)
    ensures body.None? <==> !NumbersAccepted(form, asNumber) || !FormComplete(form)
    ensures body.Some? ==>
      && body.value.patientName == Some(form.patientName) && body.value.patientId == Some(form.patientId)
      && body.value.patientAge == Some(form.patientAge) && body.value.patientGender == Some(form.patientGender)
      && body.value.patientWeight == Some(form.patientWeight) && body.value.doctorName == Some(form.doctorName)
      && body.value.testList == Some(SelectedTests(form.tests))
  {
    if !NumbersAccepted(form, asNumber) || !FormComplete(form) then None
    else Some(LabRequestBody(
      Some(form.patientName), Some(form.patientId), Some(form.patientAge), Some(form.patientGender),
      Some(form.patientWeight), Some(form.doctorName), Some(SelectedTests(form.tests))))
  }

  /** An age over 120 or a weight off the 0.1 grid stops the submit, while empty
      age and weight fields never do. */
  lemma NumberConstraintsBlock(form: FormData, asNumber: string -> Option<real>)
    ensures asNumber(form.patientAge) == Some(130.0) && form.patientAge != "" ==> SubmitBody(form, asNumber).None?
    ensures asNumber(form.patientWeight) == Some(70.05) && form.patientWeight != "" ==> SubmitBody(form, asNumber).None?
    ensures form.patientAge == "" && form.patientWeight == "" ==>
      (SubmitBody(form, asNumber).Some? <==> FormComplete(form))
  {
    if asNumber(form.patientWeight) == Some(70.05) && form.patientWeight != "" {
      assert (70.05 * 10.0).Floor == 700;
    }
  }

  /** The form after the server answered: emptied when the request succeeded,
      as it was otherwise. */
  function AfterResponse(form: FormData, ok: bool): (f: FormData)
    ensures ok ==> (f.patientName == "" && f.patientId == "" && f.patientAge == "" && f.patientGender == ""
                    && f.patientWeight == "" && f.doctorName == "" && f.tests == [])
    ensures !ok ==> f == form
  {
    if ok then EmptyForm() else form
  }

  // ----------------------------------------------------------- result filter

  /** The lower-cased patient name contains the lower-cased search term. */
  predicate NameMatches(result: LabResult, term: string) {
    Includes(Lower(result.patientName), Lower(term))
  }

  /** `filteredResults`: the results, in their order, whose patient name
      contains the term, ignoring ASCII case; none while nothing is loaded. */
  function FilteredResults(labResults: Option<seq<LabResult>>, term: string): (rs: seq<LabResult>)
    ensures labResults.None? ==> rs == []
    ensures labResults.Some? ==> IsSubsequence(rs, labResults.value)
    ensures forall i :: 0 <= i < |rs| ==> NameMatches(rs[i], term)
    ensures labResults.Some? ==>
      forall x :: multiset(rs)[x] == if NameMatches(x, term) then multiset(labResults.value)[x] else 0
  {
    match labResults
    case None => []
    case Some(results) =>
      var p := (r: LabResult) => NameMatches(r, term);
      FilterCounts(results, p);
      Filter(results, p)
  }

  /** An empty search term keeps every result. */
  lemma EmptyTermKeepsAll(results: seq<LabResult>)
    ensures FilteredResults(Some(results), "") == results
  {
    forall i | 0 <= i < |results|
      ensures NameMatches(results[i], "")
    {
      assert Lower("") == "";
      IncludesEmpty(Lower(results[i].patientName));
    }
    FilterAllPass(results, (r: LabResult) => NameMatches(r, ""));
  }
}
