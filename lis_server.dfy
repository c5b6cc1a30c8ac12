/** The LIS server (lis/server.js): the map from the FHIR server's active
    ServiceRequests to `labRequests`, and the check and DiagnosticReport that
    `POST /api/lab-results` builds from a submission.  The database, the HTTP
    calls, the ServiceRequest update to `completed` and the clock are left
    out: the timestamp is a parameter. */
module LisServer {
  import opened Wrappers
  import opened JsText
  import opened Fhir
  import opened LabApi

  // -------------------------------------------------- GET /api/lab-requests

  /** `{ code: coding.code, name: coding.display }` for each coding, or `[]`. */
  function TestsOf(code: Option<CodeableConcept>): (tests: seq<TestItem>)
    ensures (code.None? || code.value.coding.None?) ==> tests == []
    ensures code.Some? && code.value.coding.Some? ==>
      |tests| == |code.value.coding.value| &&
      forall i :: 0 <= i < |tests| ==>
        tests[i] == TestItem(code.value.coding.value[i].code, code.value.coding.value[i].display)
  {
    if code.Some? && code.value.coding.Some? then
      var coding := code.value.coding.value;
      seq(|coding|, i requires 0 <= i < |coding| => TestItem(coding[i].code, coding[i].display))
    else []
  }

  /** One `labRequests` item for a ServiceRequest; each name and the patient
      ID fall back to "Unknown" when absent or empty. */
  function ToLabRequest(request: ServiceRequest): (r: LabRequest)
    ensures r.id == request.id && r.status == request.status && r.extensions == request.extension
    ensures r.tests == TestsOf(request.code)
    ensures Truthy(DisplayOf(request.subject)) ==> r.patientName == DisplayOf(request.subject).value
    ensures !Truthy(DisplayOf(request.subject)) ==> r.patientName == "Unknown"
    ensures Truthy(IdentifierValueOf(request.subject)) ==> r.patientId == IdentifierValueOf(request.subject).value
    ensures !Truthy(IdentifierValueOf(request.subject)) ==> r.patientId == "Unknown"
    ensures Truthy(DisplayOf(request.requester)) ==> r.doctorName == DisplayOf(request.requester).value
    ensures !Truthy(DisplayOf(request.requester)) ==> r.doctorName == "Unknown"
  {
    LabRequest(
      request.id,
      OrElse(DisplayOf(request.subject), "Unknown"),
      OrElse(IdentifierValueOf(request.subject), "Unknown"),
      OrElse(DisplayOf(request.requester), "Unknown"),
      request.status,
      TestsOf(request.code),
      request.extension)
  }

  /** `labRequests`: one item per bundle entry, in order; none when `entry` is absent. */
  function LabRequests(bundle: Bundle<ServiceRequest>): (rs: seq<LabRequest>)
    ensures bundle.entry.None? ==> rs == []
    ensures bundle.entry.Some? ==> |rs| == |bundle.entry.value|
    ensures bundle.entry.Some? ==> forall i :: 0 <= i < |rs| ==> rs[i] == ToLabRequest(bundle.entry.value[i].resource)
  {
    var requests := Resources(bundle);
    seq(|requests|, i requires 0 <= i < |requests| => ToLabRequest(requests[i]))
  }

  // --------------------------------------------------- POST /api/lab-results

  /** The check of lis/server.js:75: a truthy `requestId` and a non-empty `testResults`. */
  predicate SubmissionComplete(body: ResultSubmission) {
    Truthy(body.requestId) && body.testResults.Some? && |body.testResults.value| > 0
  }

  /** The part of a result line every test has: `name: value unit (interpretation)`. */
  function MeasuredText(test: TestResult): string {
    Render(test.name) + ": " + Render(test.value) + " " + Render(test.unit)
      + " (" + Render(test.interpretation) + ")"
  }

  /** The display text of one result; an absent field prints "undefined", and
      the note is appended after " - " only when it is non-empty. */
  function ResultDisplay(test: TestResult): (s: string)
    ensures MeasuredText(test) <= s
    ensures !Truthy(test.note) ==> s == MeasuredText(test)
    ensures Truthy(test.note) ==>
      |s| == |MeasuredText(test)| + 3 + |test.note.value| && s[|MeasuredText(test)|..] == " - " + test.note.value
  {
    MeasuredText(test) + (if Truthy(test.note) then " - " + test.note.value else "")
  }

  /** One `result` reference per submitted test, carrying only a display. */
  function ResultReferences(tests: seq<TestResult>): (refs: seq<Reference>)
    ensures |refs| == |tests|
    ensures forall i :: 0 <= i < |refs| ==> refs[i] == Reference(Some(ResultDisplay(tests[i])), None)
  {
    seq(|tests|, i requires 0 <= i < |tests| => Reference(Some(ResultDisplay(tests[i])), None))
  }

  /** `POST /api/lab-results` up to the DiagnosticReport it sends: a 400 error when the check fails, else a report whose status is the one
      submitted or "final", for the submitted patient, with one result per test.
      The two timestamps are the ISO texts of two separate clock readings,
      `effectiveAt` for `effectiveDateTime` and `issuedAt` for `issued`. */
  function SubmitLabResults(body: ResultSubmission, effectiveAt: string, issuedAt: string): (r: Result<DiagnosticReport, ApiError>)
    ensures r.Failure? <==> !SubmissionComplete(body)
    ensures r.Failure? ==> r.error == MissingRequiredFields
    ensures r.Success? ==>
      var report := r.value;
      && report.resourceType == "DiagnosticReport" && report.id.None?
      && (Truthy(body.status) ==> report.status == body.status)
      && (!Truthy(body.status) ==> report.status == Some("final"))
      && report.code == Some(CodeableConcept(Some("Laboratory Test Results"), None))
      && report.subject == Some(Reference(body.patientName, None))
      && report.effectiveDateTime == Some(effectiveAt) && report.issued == Some(issuedAt)
      && report.conclusion == body.conclusion
      && report.result == Some(ResultReferences(body.testResults.value))
  {
    if !SubmissionComplete(body) then Failure(MissingRequiredFields)
    else
      Success(DiagnosticReport(
        "DiagnosticReport",
        None,
        Some(OrElse(body.status, "final")),
        Some(CodeableConcept(Some("Laboratory Test Results"), None)),
        Some(Reference(body.patientName, None)),
        Some(effectiveAt),
        Some(issuedAt),
        body.conclusion,
        Some(ResultReferences(body.testResults.value))))
  }
}
