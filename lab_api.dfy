/** The JSON shapes the browser pages and the two servers exchange, and the
    "Age | Gender | Weight" details line that both LIS front ends derive from a
    lab request's extensions. */
module LabApi {
  import opened Wrappers
  import opened JsText
  import opened JsNumber
  import opened Fhir

  /** A test as the HIS sends it in `testList` and the LIS lists it in `tests`. */
  datatype TestItem = TestItem(code: Option<string>, name: Option<string>)

  /** The body of `POST /api/lab-requests` on the HIS server. */
  datatype LabRequestBody = LabRequestBody(
    patientName: Option<string>,
    patientId: Option<string>,
    patientAge: Option<string>,
    patientGender: Option<string>,
    patientWeight: Option<string>,
    doctorName: Option<string>,
    testList: Option<seq<TestItem>>)

  /** An element of `labRequests` returned by `GET /api/lab-requests` on the LIS server. */
  datatype LabRequest = LabRequest(
    id: Option<string>,
    patientName: string,
    patientId: string,
    doctorName: string,
    status: Option<string>,
    tests: seq<TestItem>,
    extensions: Option<seq<Extension>>)

  /** One entered test result, as the LIS pages send it in `testResults`. */
  datatype TestResult = TestResult(
    code: Option<string>,
    name: Option<string>,
    value: Option<string>,
    unit: Option<string>,
    interpretation: Option<string>,
    note: Option<string>)

  /** The body of `POST /api/lab-results` on the LIS server. */
  datatype ResultSubmission = ResultSubmission(
    requestId: Option<string>,
    patientName: Option<string>,
    testResults: Option<seq<TestResult>>,
    conclusion: Option<string>,
    status: Option<string>)

  /** An element of `labResults` returned by `GET /api/lab-results` on the HIS server. */
  datatype LabResult = LabResult(
    id: Option<string>,
    patientName: string,
    status: Option<string>,
    conclusion: Option<string>,
    effectiveDate: Option<string>,
    results: seq<Option<string>>)

  /** The servers' 400 response `{ error: 'Missing required fields' }`. */
  datatype ApiError = MissingRequiredFields

  // ------------------------------------------------------ patient details

  /** The age text shown: the first age extension's `valueInteger`, when truthy. */
  function AgeShown(exts: seq<Extension>): Option<string> {
    var e := FindExtension(exts, AgeUrl);
    if e.Some? && e.value.valueInteger.Some? && e.value.valueInteger.value.IsTruthy()
    then Some(e.value.valueInteger.value.text) else None
  }

  /** The gender text shown: the first gender extension's `valueString`, when truthy. */
  function GenderShown(exts: seq<Extension>): Option<string> {
    var e := FindExtension(exts, GenderUrl);
    if e.Some? && Truthy(e.value.valueString) then e.value.valueString else None
  }

  /** The weight text shown: the first weight extension's `valueDecimal`, when truthy. */
  function WeightShown(exts: seq<Extension>): Option<string> {
    var e := FindExtension(exts, WeightUrl);
    if e.Some? && e.value.valueDecimal.Some? && e.value.valueDecimal.value.IsTruthy()
    then Some(e.value.valueDecimal.value.text) else None
  }

  function Labelled(shown: Option<string>, caption: string, suffix: string): seq<string> {
    if shown.Some? then [caption + shown.value + suffix] else []
  }

  /** The detail parts, in the fixed order age, gender, weight. */
  function PatientDetailParts(extensions: Option<seq<Extension>>): seq<string> {
    match extensions
    case None => []
    case Some(exts) =>
      Labelled(AgeShown(exts), "Age: ", "")
      + Labelled(GenderShown(exts), "Gender: ", "")
      + Labelled(WeightShown(exts), "Weight: ", " kg")
  }

  /** The details line: the parts joined with " | ".  It is empty exactly when
      there are no extensions or none of the three values is shown; a shown age
      opens it and a shown weight closes it. */
  function PatientDetails(extensions: Option<seq<Extension>>): (d: string)
    ensures d == "" <==>
      (extensions.None? ||
       (AgeShown(extensions.value).None? && GenderShown(extensions.value).None? && WeightShown(extensions.value).None?))
    ensures extensions.Some? && AgeShown(extensions.value).Some? ==> "Age: " + AgeShown(extensions.value).value <= d
    ensures extensions.Some? && WeightShown(extensions.value).Some? ==>
      var last := "Weight: " + WeightShown(extensions.value).value + " kg";
      |last| <= |d| && d[|d| - |last|..] == last
  {
    DetailsEmpty(extensions);
    DetailsOpenWithAge(extensions);
    DetailsCloseWithWeight(extensions);
    Join(PatientDetailParts(extensions), " | ")
  }

  lemma DetailsEmpty(extensions: Option<seq<Extension>>)
    ensures Join(PatientDetailParts(extensions), " | ") == "" <==>
      (extensions.None? ||
       (AgeShown(extensions.value).None? && GenderShown(extensions.value).None? && WeightShown(extensions.value).None?))
  {
    var parts := PatientDetailParts(extensions);
    assert forall i :: 0 <= i < |parts| ==> |parts[i]| > 0;
    JoinEmpty(parts, " | ");
  }

  lemma DetailsOpenWithAge(extensions: Option<seq<Extension>>)
    ensures extensions.Some? && AgeShown(extensions.value).Some? ==>
      "Age: " + AgeShown(extensions.value).value <= Join(PatientDetailParts(extensions), " | ")
  {
    if extensions.Some? && AgeShown(extensions.value).Some? {
      var a := AgeShown(extensions.value).value;
      var parts := PatientDetailParts(extensions);
      assert parts[0] == "Age: " + a + "";
      assert "Age: " + a + "" == "Age: " + a;
    }
  }

  lemma DetailsCloseWithWeight(extensions: Option<seq<Extension>>)
    ensures extensions.Some? && WeightShown(extensions.value).Some? ==>
      var last := "Weight: " + WeightShown(extensions.value).value + " kg";
      var d := Join(PatientDetailParts(extensions), " | ");
      |last| <= |d| && d[|d| - |last|..] == last
  {
    if extensions.Some? && WeightShown(extensions.value).Some? {
      var parts := PatientDetailParts(extensions);
      assert parts[|parts| - 1] == "Weight: " + WeightShown(extensions.value).value + " kg";
      JoinShape(parts, " | ");
    }
  }

  /** With all three values shown, the line reads "Age: a | Gender: g | Weight: w kg". */
  lemma PatientDetailsAllShown(exts: seq<Extension>, a: string, g: string, w: string)
    requires AgeShown(exts) == Some(a) && GenderShown(exts) == Some(g) && WeightShown(exts) == Some(w)
    ensures PatientDetails(Some(exts)) == "Age: " + a + " | Gender: " + g + " | Weight: " + w + " kg"
  {
    assert PatientDetailParts(Some(exts))
      == Labelled(Some(a), "Age: ", "") + Labelled(Some(g), "Gender: ", "") + Labelled(Some(w), "Weight: ", " kg");
    ThreeLabelsJoined(a, g, w);
  }

  lemma ThreeLabelsJoined(a: string, g: string, w: string)
    ensures Join(Labelled(Some(a), "Age: ", "") + Labelled(Some(g), "Gender: ", "") + Labelled(Some(w), "Weight: ", " kg"), " | ")
      == "Age: " + a + " | Gender: " + g + " | Weight: " + w + " kg"
  {
    ThreeLabels(a, g, w);
    JoinThree("Age: " + a, "Gender: " + g, "Weight: " + w + " kg", " | ");
  }

  /** Proof aid: the detail parts when all three values are shown. */
  lemma ThreeLabels(a: string, g: string, w: string)
    ensures Labelled(Some(a), "Age: ", "") + Labelled(Some(g), "Gender: ", "") + Labelled(Some(w), "Weight: ", " kg")
      == ["Age: " + a, "Gender: " + g, "Weight: " + w + " kg"]
  {
    assert "Age: " + a + "" == "Age: " + a;
    assert "Gender: " + g + "" == "Gender: " + g;
  }

  /** With the age and gender shown and no weight, the line reads "Age: a | Gender: g". */
  lemma PatientDetailsAgeGender(exts: seq<Extension>, a: string, g: string)
    requires AgeShown(exts) == Some(a) && GenderShown(exts) == Some(g) && WeightShown(exts).None?
    ensures PatientDetails(Some(exts)) == "Age: " + a + " | Gender: " + g
  {
    assert PatientDetailParts(Some(exts))
      == Labelled(Some(a), "Age: ", "") + Labelled(Some(g), "Gender: ", "") + Labelled(None, "Weight: ", " kg");
    TwoLabels(a, g);
    JoinTwo("Age: " + a, "Gender: " + g, " | ");
  }

  /** Proof aid: the detail parts when the age and gender are shown and the weight is not. */
  lemma TwoLabels(a: string, g: string)
    ensures Labelled(Some(a), "Age: ", "") + Labelled(Some(g), "Gender: ", "") + Labelled(None, "Weight: ", " kg")
      == ["Age: " + a, "Gender: " + g]
  {
    assert "Age: " + a + "" == "Age: " + a;
    assert "Gender: " + g + "" == "Gender: " + g;
  }

  /** With only the gender shown, the line reads "Gender: g". */
  lemma PatientDetailsGenderOnly(exts: seq<Extension>, g: string)
    requires AgeShown(exts).None? && GenderShown(exts) == Some(g) && WeightShown(exts).None?
    ensures PatientDetails(Some(exts)) == "Gender: " + g
  {
    assert "Gender: " + g + "" == "Gender: " + g;
    assert PatientDetailParts(Some(exts)) == [] + ["Gender: " + g] + [];
  }
}
