/** The parts of the HL7 FHIR R4 resources ServiceRequest and DiagnosticReport
    (and of a search Bundle) that the two servers write and read.  A field the
    JSON leaves out, or sets to `null`, is `None`. */
module Fhir {
  import opened Wrappers
  import opened JsNumber

  /** Extension URLs under which the HIS sends the patient's age, gender and weight. */
  const AgeUrl: string := "http://his.org/fhir/extension/patient-age"
  const GenderUrl: string := "http://his.org/fhir/extension/patient-gender"
  const WeightUrl: string := "http://his.org/fhir/extension/patient-weight"

  const LoincSystem: string := "http://loinc.org"
  const LabRequestSystem: string := "http://his.org/lab-requests"

  datatype Extension = Extension(
    url: string,
    valueInteger: Option<Number>,
    valueString: Option<string>,
    valueDecimal: Option<Number>)

  datatype Identifier = Identifier(system: Option<string>, value: Option<string>)

  datatype Reference = Reference(display: Option<string>, identifier: Option<Identifier>)

  datatype Coding = Coding(system: Option<string>, code: Option<string>, display: Option<string>)

  datatype CodeableConcept = CodeableConcept(text: Option<string>, coding: Option<seq<Coding>>)

  datatype ServiceRequest = ServiceRequest(
    resourceType: string,
    id: Option<string>,
    status: Option<string>,
    intent: Option<string>,
    subject: Option<Reference>,
    requester: Option<Reference>,
    code: Option<CodeableConcept>,
    identifier: Option<seq<Identifier>>,
    extension: Option<seq<Extension>>)

  datatype DiagnosticReport = DiagnosticReport(
    resourceType: string,
    id: Option<string>,
    status: Option<string>,
    code: Option<CodeableConcept>,
    subject: Option<Reference>,
    effectiveDateTime: Option<string>,
    issued: Option<string>,
    conclusion: Option<string>,
    result: Option<seq<Reference>>)

  datatype BundleEntry<R> = BundleEntry(resource: R)

  /** A search result; `entry` is absent when nothing matched. */
  datatype Bundle<R> = Bundle(entry: Option<seq<BundleEntry<R>>>)

  /** `(bundle.entry || []).map(entry => entry.resource)`. */
  function Resources<R>(bundle: Bundle<R>): (rs: seq<R>)
    ensures bundle.entry.None? ==> rs == []
    ensures bundle.entry.Some? ==> |rs| == |bundle.entry.value|
    ensures bundle.entry.Some? ==> forall i :: 0 <= i < |rs| ==> rs[i] == bundle.entry.value[i].resource
  {
    match bundle.entry
    case None => []
    case Some(entries) => seq(|entries|, i requires 0 <= i < |entries| => entries[i].resource)
  }

  /** `ref?.display`. */
  function DisplayOf(ref: Option<Reference>): Option<string> {
    if ref.Some? then ref.value.display else None
  }

  /** `ref?.identifier?.value`. */
  function IdentifierValueOf(ref: Option<Reference>): Option<string> {
    if ref.Some? && ref.value.identifier.Some? then ref.value.identifier.value.value else None
  }

  /** `extensions.find(ext => ext.url === url)`: the first extension with that URL. */
  function FindExtension(exts: seq<Extension>, url: string): (r: Option<Extension>)
    ensures r.Some? ==> exists k :: 0 <= k < |exts| && exts[k] == r.value && FirstWithUrl(exts, url, k)
    ensures r.None? ==> forall j :: 0 <= j < |exts| ==> exts[j].url != url
  {
    if exts == [] then None
    else if exts[0].url == url then
      assert FirstWithUrl(exts, url, 0);
      Some(exts[0])
    else
      FindInTail(exts, url);
      FindExtension(exts[1..], url)
  }

  /** A first match in `exts[1..]` is a first match in `exts` one place later. */
  lemma FindInTail(exts: seq<Extension>, url: string)
    requires exts != [] && exts[0].url != url
    ensures forall k: nat :: FirstWithUrl(exts[1..], url, k) ==> FirstWithUrl(exts, url, k + 1) && exts[k + 1] == exts[1..][k]
  {
    forall k: nat | FirstWithUrl(exts[1..], url, k)
      ensures FirstWithUrl(exts, url, k + 1)
    {
      assert forall j :: 1 <= j < k + 1 ==> exts[j] == exts[1..][j - 1];
    }
  }

  /** Searching a concatenation finds the first part's match, if it has one,
      and otherwise searches the second part. */
  lemma {:induction false} FindExtensionAppend(xs: seq<Extension>, ys: seq<Extension>, url: string)
    ensures FindExtension(xs + ys, url) ==
      if FindExtension(xs, url).Some? then FindExtension(xs, url) else FindExtension(ys, url)
  {
    if xs == [] {
      assert xs + ys == ys;
    } else {
      assert (xs + ys)[0] == xs[0];
      if xs[0].url != url {
        assert (xs + ys)[1..] == xs[1..] + ys;
        FindExtensionAppend(xs[1..], ys, url);
      }
    }
  }

  /** Position `k` holds the first extension of `exts` whose URL is `url`. */
  ghost predicate FirstWithUrl(exts: seq<Extension>, url: string, k: nat) {
    k < |exts| && exts[k].url == url && forall j :: 0 <= j < k ==> exts[j].url != url
  }
}
