/** The HIS server (his/server.js): patient-ID generation, the lab-request
    route that validates the body and builds a FHIR ServiceRequest, and the
    lab-results route that turns the FHIR server's DiagnosticReports into
    `labResults`.  The database, the HTTP calls and the clock are left out:
    the date parts, the inserted row id and `parseFloat` are parameters. */
module HisServer {
  import opened Wrappers
  import opened JsText
  import opened JsNumber
  import opened Fhir
  import opened LabApi
  import opened Fields

  // -------------------------------------------------- generatePatientId

  /** The guard of `generatePatientId`: every argument is truthy.  An empty
      test list is an array, and arrays are truthy. */
  predicate IdInputsPresent(patientName: Option<string>, testList: Option<seq<TestItem>>,
                            doctorName: Option<string>, day: nat, month: nat, year: nat) {
    Truthy(patientName) && testList.Some? && Truthy(doctorName) && day != 0 && month != 0 && year != 0
  }

  /** `generatePatientId`: three upper-cased letters of the patient, the number
      of tests, three upper-cased letters of the doctor, the day and month
      padded to two digits, and the year; "Unknown" when an input is missing. */
  function GeneratePatientId(patientName: Option<string>, testList: Option<seq<TestItem>>,
                             doctorName: Option<string>, day: nat, month: nat, year: nat): (id: string)
    ensures !IdInputsPresent(patientName, testList, doctorName, day, month, year) ==> id == "Unknown"
    ensures id != ""
  {
    if !IdInputsPresent(patientName, testList, doctorName, day, month, year) then "Unknown"
    else
      Upper(Prefix(patientName.value, 3))
      + NatToString(|testList.value|)
      + Upper(Prefix(doctorName.value, 3))
      + PadStart(NatToString(day), 2, '0')
      + PadStart(NatToString(month), 2, '0')
      + NatToString(year)
  }

  /** A day or month, padded to two digits, still reads as itself; from 10 on no
      zero is added. */
  lemma PaddedTwoDigits(n: nat)
    requires 1 <= n <= 99
    ensures var s := PadStart(NatToString(n), 2, '0');
      && |s| == 2 && Reads(s, n)
      && (n >= 10 ==> s == NatToString(n) && s[0] != '0')
      && (n < 10 ==> s[0] == '0')
  {
    var d := NatToString(n);
    var s := PadStart(d, 2, '0');
    DecimalRoundTrip(n);
    if n < 10 {
      assert s == ['0'] + d;
      assert s[..1] == ['0'];
    } else {
      TwoDigitNumbers(n);
      assert s == s[0..];
    }
  }

  /** A generated ID, for a real calendar day and month, cut at the lengths of
      its fields: the upper-cased name prefixes where they belong, and number
      fields that read back as the test count, the day, the month and the year,
      the day and month in exactly two digits with no padding zero from 10 on. */
  lemma GeneratedIdLayout(patientName: string, tests: seq<TestItem>, doctorName: string,
                          day: nat, month: nat, year: nat)
    requires patientName != "" && doctorName != ""
    requires 1 <= day <= 31 && 1 <= month <= 12 && year != 0
    ensures IdFields(GeneratePatientId(Some(patientName), Some(tests), Some(doctorName), day, month, year),
                     Upper(Prefix(patientName, 3)), |tests|, |NatToString(|tests|)|,
                     Upper(Prefix(doctorName, 3)), day, month, year)
  {
    var a := Upper(Prefix(patientName, 3));
    var b := NatToString(|tests|);
    var c := Upper(Prefix(doctorName, 3));
    var d := PadStart(NatToString(day), 2, '0');
    var m := PadStart(NatToString(month), 2, '0');
    var y := NatToString(year);
    assert GeneratePatientId(Some(patientName), Some(tests), Some(doctorName), day, month, year)
      == a + b + c + d + m + y;
    assert |d| == 2 && Reads(d, day) && (day >= 10 ==> d[0] != '0') by {
      PaddedTwoDigits(day);
    }
    assert |m| == 2 && Reads(m, month) && (month >= 10 ==> m[0] != '0') by {
      PaddedTwoDigits(month);
    }
    assert Reads(b, |tests|) by {
      DecimalRoundTrip(|tests|);
    }
    assert Reads(y, year) by {
      DecimalRoundTrip(year);
    }
    ConcatFields(a, b, c, d, m, y, |tests|, day, month, year);
  }

  // ------------------------------------------------ POST /api/lab-requests

  /** The check of his/server.js:70. */
  predicate HasRequiredFields(body: LabRequestBody) {
    Truthy(body.patientName) && Truthy(body.doctorName) && body.testList.Some? && |body.testList.value| > 0
  }

  /** One LOINC coding per test; a missing or empty code becomes "unknown". */
  function TestCoding(test: TestItem): Coding {
    Coding(Some(LoincSystem), Some(OrElse(test.code, "unknown")), test.name)
  }

  /** `parseInt(age)` as it reaches the FHIR server: NaN is serialised as null. */
  function IntegerValue(age: string): Option<Number> {
    match ParseInt(age)
    case None => None
    case Some(i) => Some(FromInt(i))
  }

  function AgeExtension(age: string): Extension {
    Extension(AgeUrl, IntegerValue(age), None, None)
  }

  function GenderExtension(gender: string): Extension {
    Extension(GenderUrl, None, Some(gender), None)
  }

  function WeightExtension(weight: string, parseFloat: string -> Option<Number>): Extension {
    Extension(WeightUrl, None, None, parseFloat(weight))
  }

  /** `extension` is present exactly when one of age, gender and weight is
      truthy, and holds one entry per truthy field in the order age, gender, weight. */
  ghost predicate ExtensionsFor(ext: Option<seq<Extension>>, body: LabRequestBody,
                                parseFloat: string -> Option<Number>) {
    && (ext.Some? <==> (Truthy(body.patientAge) || Truthy(body.patientGender) || Truthy(body.patientWeight)))
    && (ext.Some? ==>
          ext.value ==
            (if Truthy(body.patientAge) then [AgeExtension(body.patientAge.value)] else [])
            + (if Truthy(body.patientGender) then [GenderExtension(body.patientGender.value)] else [])
            + (if Truthy(body.patientWeight) then [WeightExtension(body.patientWeight.value, parseFloat)] else []))
  }

  /** The ServiceRequest that his/server.js:96-147 builds for a valid body. */
  ghost predicate IsServiceRequestFor(sr: ServiceRequest, body: LabRequestBody, patientId: string,
                                      requestId: nat, parseFloat: string -> Option<Number>)
    requires HasRequiredFields(body)
  {
    var tests := body.testList.value;
    && sr.resourceType == "ServiceRequest" && sr.id.None?
    && sr.status == Some("active") && sr.intent == Some("order")
    && sr.subject == Some(Reference(Some(body.patientName.value), Some(Identifier(None, Some(patientId)))))
    && sr.requester == Some(Reference(Some(body.doctorName.value), None))
    && sr.code.Some? && sr.code.value.text == Some("Laboratory tests")
    && sr.code.value.coding.Some? && |sr.code.value.coding.value| == |tests|
    && (forall i :: 0 <= i < |tests| ==> sr.code.value.coding.value[i] == TestCoding(tests[i]))
    && sr.identifier == Some([Identifier(Some(LabRequestSystem), Some("HIS-LR-" + NatToString(requestId)))])
    && ExtensionsFor(sr.extension, body, parseFloat)
  }

  /** The patient ID the route uses: the one supplied, or a generated one. */
  function AssignedPatientId(body: LabRequestBody, day: nat, month: nat, year: nat): string {
    if Truthy(body.patientId) then body.patientId.value
    else GeneratePatientId(body.patientName, body.testList, body.doctorName, day, month, year)
  }

  /** `POST /api/lab-requests` up to the ServiceRequest it sends: generate the
      patient ID when none is supplied (before validating), answer 400 when a
      required field is missing, else build the ServiceRequest for row `requestId`. */
  method CreateLabRequest(body: LabRequestBody, day: nat, month: nat, year: nat, requestId: nat,
                          parseFloat: string -> Option<Number>)
    returns (r: Result<ServiceRequest, ApiError>)
    ensures r.Failure? <==> !HasRequiredFields(body)
    ensures r.Failure? ==> r.error == MissingRequiredFields
    ensures r.Success? ==>
      IsServiceRequestFor(r.value, body, AssignedPatientId(body, day, month, year), requestId, parseFloat)
  {
    var patientId := body.patientId;
    if !Truthy(patientId) {
      patientId := Some(GeneratePatientId(body.patientName, body.testList, body.doctorName, day, month, year));
    }
    if !HasRequiredFields(body) {
      return Failure(MissingRequiredFields);
    }
    assert OrElse(patientId, "Unknown") == AssignedPatientId(body, day, month, year);
    var tests := body.testList.value;
    var coding := seq(|tests|, i requires 0 <= i < |tests| => TestCoding(tests[i]));
    var sr := ServiceRequest(
      "ServiceRequest", None, Some("active"), Some("order"),
      Some(Reference(body.patientName, Some(Identifier(None, Some(OrElse(patientId, "Unknown")))))),
      Some(Reference(body.doctorName, None)),
      Some(CodeableConcept(Some("Laboratory tests"), Some(coding))),
      Some([Identifier(Some(LabRequestSystem), Some("HIS-LR-" + NatToString(requestId)))]),
      None);
    if Truthy(body.patientAge) || Truthy(body.patientGender) || Truthy(body.patientWeight) {
      var a := if Truthy(body.patientAge) then [AgeExtension(body.patientAge.value)] else [];
      var g := if Truthy(body.patientGender) then [GenderExtension(body.patientGender.value)] else [];
      var extension: seq<Extension> := [];
      if Truthy(body.patientAge) {
        extension := extension + [AgeExtension(body.patientAge.value)];
      }
      assert extension == a;
      if Truthy(body.patientGender) {
        extension := extension + [GenderExtension(body.patientGender.value)];
      }
      assert extension == a + g;
      if Truthy(body.patientWeight) {
        extension := extension + [WeightExtension(body.patientWeight.value, parseFloat)];
      }
      sr := sr.(extension := Some(extension));
    }
    r := Success(sr);
  }

  // -------------------------------------------------- GET /api/lab-results

  /** One `labResults` item for a DiagnosticReport. */
  function ToLabResult(report: DiagnosticReport): (r: LabResult)
    ensures r.id == report.id && r.status == report.status
    ensures r.conclusion == report.conclusion && r.effectiveDate == report.effectiveDateTime
    ensures Truthy(DisplayOf(report.subject)) ==> r.patientName == DisplayOf(report.subject).value
    ensures !Truthy(DisplayOf(report.subject)) ==> r.patientName == "Unknown"
    ensures report.result.None? ==> r.results == []
    ensures report.result.Some? ==> |r.results| == |report.result.value|
    ensures report.result.Some? ==> forall i :: 0 <= i < |r.results| ==> r.results[i] == report.result.value[i].display
  {
    var results := report.result;
    LabResult(
      report.id,
      OrElse(DisplayOf(report.subject), "Unknown"),
      report.status,
      report.conclusion,
      report.effectiveDateTime,
      if results.Some? then seq(|results.value|, i requires 0 <= i < |results.value| => results.value[i].display) else [])
  }

  /** `labResults`: one item per bundle entry, in order; none when `entry` is absent. */
  function LabResults(bundle: Bundle<DiagnosticReport>): (rs: seq<LabResult>)
    ensures bundle.entry.None? ==> rs == []
    ensures bundle.entry.Some? ==> |rs| == |bundle.entry.value|
    ensures bundle.entry.Some? ==> forall i :: 0 <= i < |rs| ==> rs[i] == ToLabResult(bundle.entry.value[i].resource)
  {
    var reports := Resources(bundle);
    seq(|reports|, i requires 0 <= i < |reports| => ToLabResult(reports[i]))
  }
}
