/** The plain-JavaScript HIS page (his/public/main.js): the lab-request form
    submit, and the results tab that keeps the fetched `allLabResults` and
    shows them as cards, filtered by a patient-name search.  The DOM is reduced
    to the values written into it; the fetch outcome and the locale's date
    formatting are parameters. */
module HisClient {
  import opened Wrappers
  import opened JsText
  import opened Seqs
  import opened LabApi

  // ------------------------------------------------------------ form submit

  /** A checked test checkbox: its value and the text of the label after it. */
  datatype CheckedTest = CheckedTest(value: string, labelText: string)

  /** What a submit does: show an error and send nothing, or send a body. */
  datatype SubmitOutcome = ShowError(message: string) | Send(body: LabRequestBody)

  /** The submit handler up to the request: with no test checked it shows an
      error and sends nothing; otherwise it sends the fields as typed and one
      test per checked box, in order, named by its trimmed label. */
  function SubmitForm(patientName: string, patientId: string, patientAge: string, patientGender: string,
                      patientWeight: string, doctorName: string, checked: seq<CheckedTest>)
    : (out: SubmitOutcome)
    ensures out.ShowError? <==> checked == []
    ensures out.ShowError? ==> out.message == "Please select at least one laboratory test."
    ensures out.Send? ==>
      && out.body.patientName == Some(patientName) && out.body.patientId == Some(patientId)
      && out.body.patientAge == Some(patientAge) && out.body.patientGender == Some(patientGender)
      && out.body.patientWeight == Some(patientWeight) && out.body.doctorName == Some(doctorName)
      && out.body.testList.Some? && |out.body.testList.value| == |checked|
      && forall i :: 0 <= i < |checked| ==>
           out.body.testList.value[i] == TestItem(Some(checked[i].value), Some(Trim(checked[i].labelText)))
  {
    if |checked| == 0 then ShowError("Please select at least one laboratory test.")
    else
      var tests := seq(|checked|, i requires 0 <= i < |checked| =>
        TestItem(Some(checked[i].value), Some(Trim(checked[i].labelText))));
      Send(LabRequestBody(Some(patientName), Some(patientId), Some(patientAge), Some(patientGender),
                          Some(patientWeight), Some(doctorName), Some(tests)))
  }

  // ---------------------------------------------------------- result cards

  /** The badge class of a result: "completed" for a final report, else "preliminary". */
  function StatusClass(status: Option<string>): (c: string)
    ensures c == "completed" <==> status == Some("final")
    ensures c == "completed" || c == "preliminary"
  {
    if status == Some("final") then "completed" else "preliminary"
  }

  /** The date line: the locale's rendering of a truthy `effectiveDate`, else "Unknown date". */
  function DateText(effectiveDate: Option<string>, localeDate: string -> string): (d: string)
    ensures !Truthy(effectiveDate) ==> d == "Unknown date"
    ensures Truthy(effectiveDate) ==> d == localeDate(effectiveDate.value)
  {
    if Truthy(effectiveDate) then localeDate(effectiveDate.value) else "Unknown date"
  }

  /** A `results` element as the page receives it: an element that was
      absent on the server is sent as JSON `null`, and `${null}` reads "null". */
  function ElementText(element: Option<string>): (t: string)
    ensures element.Some? ==> t == element.value
    ensures element.None? ==> t == "null"
  {
    if element.Some? then element.value else "null"
  }

  /** What a result card shows. */
  datatype ResultCard = ResultCard(
    heading: string,
    date: string,
    statusClass: string,
    statusText: string,
    conclusionLine: Option<string>,
    testLines: seq<string>)

  /** The card of one result; the conclusion line only for a truthy
      conclusion; one test line per `results` element, a missing one as "null". */
  function Card(result: LabResult, localeDate: string -> string): (card: ResultCard)
    ensures card.heading == "Results for " + result.patientName
    ensures card.statusClass == StatusClass(result.status) && card.statusText == Render(result.status)
    ensures card.date == DateText(result.effectiveDate, localeDate)
    ensures card.conclusionLine.Some? <==> Truthy(result.conclusion)
    ensures card.conclusionLine.Some? ==> card.conclusionLine.value == "Conclusion: " + result.conclusion.value
    ensures |card.testLines| == |result.results|
    ensures forall i :: 0 <= i < |card.testLines| ==>
      card.testLines[i] == if result.results[i].Some? then result.results[i].value else "null"
  {
    ResultCard(
      "Results for " + result.patientName,
      DateText(result.effectiveDate, localeDate),
      StatusClass(result.status),
      Render(result.status),
      if Truthy(result.conclusion) then Some("Conclusion: " + result.conclusion.value) else None,
      seq(|result.results|, i requires 0 <= i < |result.results| => ElementText(result.results[i])))
  }

  /** The content of `results-list`. */
  datatype ListView = Initial | Notice(text: string) | Cards(cards: seq<ResultCard>)

  /** `displayResults`: a notice for no results, else one card per result, in order. */
  function Display(results: seq<LabResult>, localeDate: string -> string): (v: ListView)
    ensures results == [] ==> v == Notice("No matching results found.")
    ensures results != [] ==> v.Cards? && |v.cards| == |results|
    ensures results != [] ==> forall i :: 0 <= i < |results| ==> v.cards[i] == Card(results[i], localeDate)
  {
    if results == [] then Notice("No matching results found.")
    else Cards(seq(|results|, i requires 0 <= i < |results| => Card(results[i], localeDate)))
  }

  // -------------------------------------------------------------- filtering

  /** The results a search shows: all of them for a blank term, else those whose
      lower-cased patient name contains the lower-cased, untrimmed term. */
  function SearchResults(all: seq<LabResult>, input: string): (rs: seq<LabResult>)
    ensures IsBlank(input) ==> rs == all
    ensures !IsBlank(input) ==> IsSubsequence(rs, all)
    ensures !IsBlank(input) ==> forall i :: 0 <= i < |rs| ==> Includes(Lower(rs[i].patientName), Lower(input))
    ensures !IsBlank(input) ==>
      forall x :: multiset(rs)[x] == if Includes(Lower(x.patientName), Lower(input)) then multiset(all)[x] else 0
  {
    var term := Lower(input);
    LowerTrimEmptyIffBlank(input);
    if Trim(term) == "" then all
    else
      var p := (r: LabResult) => Includes(Lower(r.patientName), term);
      FilterCounts(all, p);
      Filter(all, p)
  }

  // ---------------------------------------------------------- results tab

  /** How a request for `/api/lab-results` ended: the parsed `data.labResults`, or an error. */
  datatype FetchOutcome = Loaded(labResults: Option<seq<LabResult>>) | FetchFailed

  /** The page's results state: the module variable `allLabResults` and what
      `results-list` shows. */
  class ResultsTab {
    var allLabResults: seq<LabResult>
    var view: ListView

    constructor()
      ensures allLabResults == [] && view == Initial
    {
      allLabResults := [];
      view := Initial;
    }

    /** `fetchLabResults` once the request has ended: a loaded list replaces
        `allLabResults` (absent counts as empty) and is shown, or "No lab
        results found." when empty; on an error the list is kept and an error
        notice is shown. */
    method FetchLabResults(outcome: FetchOutcome, localeDate: string -> string)
      modifies this
      ensures outcome.Loaded? ==>
        allLabResults == (if outcome.labResults.Some? then outcome.labResults.value else [])
      ensures outcome.Loaded? && allLabResults == [] ==> view == Notice("No lab results found.")
      ensures outcome.Loaded? && allLabResults != [] ==> view == Display(allLabResults, localeDate)
      ensures outcome.FetchFailed? ==>
        allLabResults == old(allLabResults) && view == Notice("Error loading lab results. Please try again.")
    {
      view := Notice("Loading lab results...");
      if outcome.FetchFailed? {
        view := Notice("Error loading lab results. Please try again.");
        return;
      }
      allLabResults := if outcome.labResults.Some? then outcome.labResults.value else [];
      if |allLabResults| == 0 {
        view := Notice("No lab results found.");
        return;
      }
      view := Display(allLabResults, localeDate);
    }

    /** `filterResults`: shows the search results and leaves `allLabResults` as it was. */
    method FilterResults(input: string, localeDate: string -> string)
      modifies this
      ensures allLabResults == old(allLabResults)
      ensures view == Display(SearchResults(allLabResults, input), localeDate)
    {
      var searchTerm := Lower(input);
      LowerTrimEmptyIffBlank(input);
      if Trim(searchTerm) == "" {
        view := Display(allLabResults, localeDate);
        return;
      }
      var filtered := Filter(allLabResults, (r: LabResult) => Includes(Lower(r.patientName), searchTerm));
      view := Display(filtered, localeDate);
    }

    /** Opening the results tab fetches only while `allLabResults` is empty,
        and then ends as `fetchLabResults` does; otherwise nothing changes. */
    method ResultsTabClicked(outcome: FetchOutcome, localeDate: string -> string)
      modifies this
      ensures old(allLabResults) != [] ==> allLabResults == old(allLabResults) && view == old(view)
      ensures old(allLabResults) == [] && outcome.Loaded? ==>
        allLabResults == (if outcome.labResults.Some? then outcome.labResults.value else [])
      ensures old(allLabResults) == [] && outcome.Loaded? && allLabResults == [] ==>
        view == Notice("No lab results found.")
      ensures old(allLabResults) == [] && outcome.Loaded? && allLabResults != [] ==>
        view == Display(allLabResults, localeDate)
      ensures old(allLabResults) == [] && outcome.FetchFailed? ==>
        allLabResults == [] && view == Notice("Error loading lab results. Please try again.")
    {
      if |allLabResults| == 0 {
        FetchLabResults(outcome, localeDate);
      }
    }
  }
}
