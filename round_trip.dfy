/** What one system reads back from what the other wrote: the HIS builds a
    ServiceRequest that the LIS server lists and the LIS pages describe, and
    the LIS builds a DiagnosticReport that the HIS server lists. */
module RoundTrip {
  import opened Wrappers
  import opened JsText
  import opened JsNumber
  import opened Fhir
  import opened LabApi
  import opened HisServer
  import opened LisServer
  import HisPage
  import HisClient
  import LisPage
  import LisClient

  // ------------------------------------------- HIS ServiceRequest, read by the LIS

  /** Once the FHIR server has stored a request the HIS built under the ID
      `fhirId`, the LIS lists it with that ID, the patient, the doctor and the
      patient ID the HIS used, status "active", and one test per ordered test in
      order, whose code is the ordered one or "unknown" when that was empty. */
  lemma ServiceRequestRoundTrip(sr: ServiceRequest, fhirId: string, body: LabRequestBody, day: nat, month: nat,
                                year: nat, requestId: nat, parseFloat: string -> Option<Number>)
    requires HasRequiredFields(body)
    requires IsServiceRequestFor(sr, body, AssignedPatientId(body, day, month, year), requestId, parseFloat)
    ensures var r := ToLabRequest(sr.(id := Some(fhirId)));
      var tests := body.testList.value;
      && r.id == Some(fhirId)
      && r.patientName == body.patientName.value
      && r.doctorName == body.doctorName.value
      && r.patientId == AssignedPatientId(body, day, month, year)
      && r.status == Some("active")
      && |r.tests| == |tests|
      && (forall i :: 0 <= i < |tests| ==> r.tests[i] == TestItem(Some(OrElse(tests[i].code, "unknown")), tests[i].name))
      && (forall i :: 0 <= i < |tests| && Truthy(tests[i].code) ==> r.tests[i] == tests[i])
      && r.extensions == sr.extension
  {
    var tests := body.testList.value;
    var stored := sr.(id := Some(fhirId));
    var r := ToLabRequest(stored);
    forall i | 0 <= i < |tests|
      ensures r.tests[i] == TestItem(Some(OrElse(tests[i].code, "unknown")), tests[i].name)
    {
      assert stored.code.value.coding.value[i] == TestCoding(tests[i]);
    }
  }

  /** The extensions of a HIS request, as the LIS pages find them: the age shown
      is the parsed age unless it is absent, not a number or zero; the gender is
      the one sent; the weight is the parsed weight unless it is absent or zero. */
  lemma ShownFromHisExtensions(sr: ServiceRequest, body: LabRequestBody, patientId: string,
                               requestId: nat, parseFloat: string -> Option<Number>)
    requires HasRequiredFields(body)
    requires IsServiceRequestFor(sr, body, patientId, requestId, parseFloat)
    requires sr.extension.Some?
    ensures var exts := sr.extension.value;
      && AgeShown(exts) ==
           (if Truthy(body.patientAge) && ParseInt(body.patientAge.value).Some? && ParseInt(body.patientAge.value).value != 0
            then Some(IntToString(ParseInt(body.patientAge.value).value)) else None)
      && GenderShown(exts) == (if Truthy(body.patientGender) then body.patientGender else None)
      && WeightShown(exts) ==
           (if Truthy(body.patientWeight) && parseFloat(body.patientWeight.value).Some?
               && parseFloat(body.patientWeight.value).value.IsTruthy()
            then Some(parseFloat(body.patientWeight.value).value.text) else None)
  {
    var a := if Truthy(body.patientAge) then [AgeExtension(body.patientAge.value)] else [];
    var g := if Truthy(body.patientGender) then [GenderExtension(body.patientGender.value)] else [];
    var w := if Truthy(body.patientWeight) then [WeightExtension(body.patientWeight.value, parseFloat)] else [];
    var exts := sr.extension.value;
    assert exts == a + g + w;
    assert AgeUrl != GenderUrl && AgeUrl != WeightUrl && GenderUrl != WeightUrl;
    FindExtensionAppend(a + g, w, AgeUrl);
    FindExtensionAppend(a, g, AgeUrl);
    FindExtensionAppend(a + g, w, GenderUrl);
    FindExtensionAppend(a, g, GenderUrl);
    FindExtensionAppend(a + g, w, WeightUrl);
    FindExtensionAppend(a, g, WeightUrl);
    if Truthy(body.patientAge) && ParseInt(body.patientAge.value).Some? {
      FromIntTruthy(ParseInt(body.patientAge.value).value);
    }
  }

  /** A HIS request for a patient of age `n` (sent as its decimal text), with a
      gender and no weight, is described as "Age: n | Gender: g"; age 0 is left out. */
  lemma DetailsOfHisRequest(sr: ServiceRequest, body: LabRequestBody, patientId: string,
                            requestId: nat, parseFloat: string -> Option<Number>, n: nat, g: string)
    requires HasRequiredFields(body)
    requires IsServiceRequestFor(sr, body, patientId, requestId, parseFloat)
    requires body.patientAge == Some(NatToString(n)) && body.patientGender == Some(g) && g != ""
    requires !Truthy(body.patientWeight)
    ensures n != 0 ==> PatientDetails(sr.extension) == "Age: " + NatToString(n) + " | Gender: " + g
    ensures n == 0 ==> PatientDetails(sr.extension) == "Gender: " + g
  {
    ParseIntRoundTrip(n);
    assert IntToString(n) == NatToString(n);
    ShownFromHisExtensions(sr, body, patientId, requestId, parseFloat);
    if n != 0 {
      PatientDetailsAgeGender(sr.extension.value, NatToString(n), g);
    } else {
      PatientDetailsGenderOnly(sr.extension.value, g);
    }
  }

  // ------------------------------------------- LIS DiagnosticReport, read by the HIS

  /** The HIS lists a report the LIS built with the submitted patient (or
      "Unknown"), the submitted status or "final", the submitted conclusion,
      the time it took effect and one display line per submitted test, in order. */
  lemma DiagnosticReportRoundTrip(body: ResultSubmission, effectiveAt: string, issuedAt: string)
    requires SubmissionComplete(body)
    ensures SubmitLabResults(body, effectiveAt, issuedAt).Success?
    ensures var r := ToLabResult(SubmitLabResults(body, effectiveAt, issuedAt).value);
      var tests := body.testResults.value;
      && (Truthy(body.patientName) ==> r.patientName == body.patientName.value)
      && (!Truthy(body.patientName) ==> r.patientName == "Unknown")
      && r.status == Some(OrElse(body.status, "final"))
      && r.conclusion == body.conclusion
      && r.effectiveDate == Some(effectiveAt)
      && |r.results| == |tests|
      && (forall i :: 0 <= i < |tests| ==> r.results[i] == Some(ResultDisplay(tests[i])))
  {
  }

  // ------------------------------------------------- front ends and servers

  /** A body the React HIS page sends always passes the HIS server's check. */
  lemma HisPageBodyAccepted(form: HisPage.FormData, asNumber: string -> Option<real>)
    requires HisPage.SubmitBody(form, asNumber).Some?
    ensures HasRequiredFields(HisPage.SubmitBody(form, asNumber).value)
  {
  }

  /** A body the plain HIS page sends passes the HIS server's check exactly when
      both names were filled in; the page itself only insists on a test. */
  lemma HisClientBodyAccepted(patientName: string, patientId: string, patientAge: string, patientGender: string,
                              patientWeight: string, doctorName: string, checked: seq<HisClient.CheckedTest>)
    requires HisClient.SubmitForm(patientName, patientId, patientAge, patientGender, patientWeight, doctorName, checked).Send?
    ensures var body := HisClient.SubmitForm(patientName, patientId, patientAge, patientGender, patientWeight,
                                             doctorName, checked).body;
      HasRequiredFields(body) <==> patientName != "" && doctorName != ""
  {
  }

  /** A request the HIS built, once stored under the ID `fhirId`, is listed by
      the plain LIS page with an enabled "Enter Results" button carrying that ID
      and opening the form for it. */
  lemma HisRequestCanBeEntered(sr: ServiceRequest, fhirId: string, body: LabRequestBody, day: nat, month: nat,
                               year: nat, requestId: nat, parseFloat: string -> Option<Number>)
    requires HasRequiredFields(body)
    requires IsServiceRequestFor(sr, body, AssignedPatientId(body, day, month, year), requestId, parseFloat)
    ensures var listed := ToLabRequest(sr.(id := Some(fhirId)));
      && LisClient.RowOf(listed).action == LisClient.EnterResultsButton(fhirId, listed)
      && LisClient.RowOf(listed).statusClass == "status-active"
  {
    ServiceRequestRoundTrip(sr, fhirId, body, day, month, year, requestId, parseFloat);
  }

  /** A filled-in submission of the React LIS page is accepted exactly when the
      request has an ID and there is a test row, and the plain HIS page then
      shows the report as final ("completed"). */
  lemma LisPageSubmissionFinal(request: LabRequest, rows: seq<TestResult>, conclusion: string,
                               effectiveAt: string, issuedAt: string)
    requires LisPage.FormFilled(rows, conclusion)
    ensures var body := LisPage.SubmitPayload(Some(request), rows, conclusion).value;
      && (SubmitLabResults(body, effectiveAt, issuedAt).Success? <==> Truthy(request.id) && |rows| > 0)
      && (SubmitLabResults(body, effectiveAt, issuedAt).Success? ==>
            ToLabResult(SubmitLabResults(body, effectiveAt, issuedAt).value).status == Some("final")
            && HisClient.StatusClass(ToLabResult(SubmitLabResults(body, effectiveAt, issuedAt).value).status) == "completed")
  {
  }

  /** The plain LIS page sends no status, so its accepted submissions are
      reported as final too; they are accepted exactly when the form holds a
      request ID and at least one test. */
  lemma LisClientSubmissionFinal(form: LisClient.ResultFormView, effectiveAt: string, issuedAt: string)
    requires LisClient.RequiredFilled(form.tests)
    ensures var body := LisClient.SubmissionOf(form, seq(|form.tests|, i requires 0 <= i < |form.tests| =>
                                                            LisClient.ResultOf(form.tests[i])));
      && (SubmitLabResults(body, effectiveAt, issuedAt).Success? <==> form.requestId != "" && |form.tests| > 0)
      && (SubmitLabResults(body, effectiveAt, issuedAt).Success? ==>
            HisClient.StatusClass(ToLabResult(SubmitLabResults(body, effectiveAt, issuedAt).value).status) == "completed")
  {
  }

  /** A result the plain LIS page submitted for an opened form reads back on the
      HIS side, test by test, as "name: value unit (interpretation)" followed by
      " - note" when a note was entered. */
  lemma LisClientResultLines(form: LisClient.ResultFormView, effectiveAt: string, issuedAt: string, i: nat)
    requires form.requestId != "" && i < |form.tests|
    ensures var tests := seq(|form.tests|, k requires 0 <= k < |form.tests| => LisClient.ResultOf(form.tests[k]));
      var body := LisClient.SubmissionOf(form, tests);
      var t := form.tests[i];
      && SubmitLabResults(body, effectiveAt, issuedAt).Success?
      && ToLabResult(SubmitLabResults(body, effectiveAt, issuedAt).value).results[i] ==
           Some(t.dataTestName + ": " + t.value + " " + t.unit + " (" + t.interpretation + ")"
                + (if t.note != "" then " - " + t.note else ""))
  {
  }
}
