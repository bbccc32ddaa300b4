/**
 * The prescription screen (Frontend/src/aiAgent/PrescriptionReaderAgent.jsx): how an upload's
 * answer is judged, and how a stored answer is joined into the medication list. The state
 * machine is `ReportSessions.ReportStore` with "New Analysis" as the title of a new report.
 */
module PrescriptionReader {

  import opened Wrappers
  import opened Text
  import opened ReportSessions

  const NewTitle := "New Analysis"
  const FailedPrefix := "Analysis failed. Error: "
  const UnknownError := "Server returned an unknown error."
  const ConnectionAlert := "Network or server connection " + "error. Please ensure the Flask "
    + "app is running on port 5001!"

  // ---------------------------------------------------------------- the stored answer

  /** One extracted medicine; `form` may be absent or empty. */
  datatype Medicine = Medicine(name: string, form: Option<string>)

  /** `raw_extraction`. */
  datatype Extraction = Extraction(medicines: Option<seq<Medicine>>)

  /** What the analysis says about one medicine. */
  datatype Details = Details(purpose: string, sideEffects: string, interactions: string)

  /** The service's JSON body; `analysis` maps a medicine's name to its details. */
  datatype PrescriptionData = PrescriptionData(
    status: Option<string>, message: Option<string>, error: Option<string>,
    rawExtraction: Option<Extraction>, analysis: Option<map<string, Details>>)

  /** A new store for this screen. */
  method NewStore() returns (s: ReportStore<PrescriptionData>)
    ensures fresh(s) && s.Valid() && s.newTitle == NewTitle
    ensures s.reports == [Blank(1, InitialTitle)] && s.current == s.reports[0] && !s.loading
  {
    s := new ReportStore(NewTitle);
  }

  // ---------------------------------------------------------------- judging an answer

  /** A response that is not OK, or whose body says `status: "error"`. */
  predicate Failed(ok: bool, body: PrescriptionData) {
    !ok || body.status == Some("error")
  }

  /**
   * A failed response shows the body's `message`, else its `error`, else a fixed text, and
   * then (the throw reaching the catch) the connection alert; a throw in the fetch or the
   * parse shows only the connection alert.
   */
  function Classify(reply: HttpReply<PrescriptionData>): (o: Outcome<PrescriptionData>)
    ensures o.Accepted? <==> reply.Response? && !Failed(reply.ok, reply.body)
    ensures o.Accepted? ==> o.data == reply.body
    ensures o.Rejected? ==> o.alerts != [] && o.alerts[|o.alerts| - 1] == ConnectionAlert
    ensures reply.Response? && Failed(reply.ok, reply.body) ==>
      o.alerts == [FailedPrefix + OrElse(reply.body.message, OrElse(reply.body.error, UnknownError)), ConnectionAlert]
    ensures reply.Unreadable? ==> o == Rejected([ConnectionAlert])
  {
    match reply
    case Response(ok, body) =>
      if Failed(ok, body) then
        Rejected([FailedPrefix + OrElse(body.message, OrElse(body.error, UnknownError)), ConnectionAlert])
      else Accepted(body)
    case Unreadable(_) => Rejected([ConnectionAlert])
  }

  /** An OK response whose body says `status: "error"` is refused, unlike on the report screen. */
  lemma ErrorStatusRefused(body: PrescriptionData)
    requires body.status == Some("error")
    ensures Classify(Response(true, body)).Rejected?
    ensures |Classify(Response(true, body)).alerts| == 2
  {
  }

  // ---------------------------------------------------------------- the medication list

  const DefaultDetails := Details("Details unavailable.", "N/A", "N/A")

  /** `analysis[name] || {...}`: the entry as it is, or the whole default record. */
  function DetailsFor(analysis: map<string, Details>, name: string): (d: Details)
    ensures name in analysis ==> d == analysis[name]
    ensures name !in analysis ==> d == DefaultDetails
  {
    if name in analysis then analysis[name] else DefaultDetails
  }

  /** One list item: the name, the form or "Form Unknown", and the details. */
  datatype MedRow = MedRow(name: string, form: string, details: Details)

  function Row(m: Medicine, analysis: map<string, Details>): MedRow {
    MedRow(m.name, OrElse(m.form, "Form Unknown"), DetailsFor(analysis, m.name))
  }

  /** `medications.map(...)`: one row per medicine, in order. */
  function Rows(meds: seq<Medicine>, analysis: map<string, Details>): (rows: seq<MedRow>)
    ensures |rows| == |meds|
    ensures forall i :: 0 <= i < |meds| ==> rows[i] == Row(meds[i], analysis)
  {
    if meds == [] then [] else [Row(meds[0], analysis)] + Rows(meds[1..], analysis)
  }

  /** What `PrescriptionDataDisplay` shows. */
  datatype Display =
    | Incomplete
    | Medications(count: nat, rows: seq<MedRow>, noneExtracted: bool, placeholder: bool)

  /**
   * The display: only the "incomplete" note without data, extraction or analysis; otherwise a
   * row per extracted medicine (none when the list is absent) with its form or "Form Unknown",
   * the count in the heading, the "No specific medications" note for an empty list and the
   * placeholder for a non-empty one.
   */
  function Show(apiData: Option<PrescriptionData>): (d: Display)
    ensures d.Incomplete? <==>
      apiData.None? || apiData.value.rawExtraction.None? || apiData.value.analysis.None?
    ensures d.Medications? ==> d.count == |d.rows|
    ensures d.Medications? ==> (d.noneExtracted <==> d.rows == []) && (d.placeholder <==> d.rows != [])
    ensures d.Medications? ==>
      var meds := apiData.value.rawExtraction.value.medicines.GetOr([]);
      && |d.rows| == |meds|
      && forall i :: 0 <= i < |meds| ==>
        && d.rows[i].name == meds[i].name
        && d.rows[i].form == OrElse(meds[i].form, "Form Unknown")
        && d.rows[i].details == DetailsFor(apiData.value.analysis.value, meds[i].name)
  {
    if apiData.None? || apiData.value.rawExtraction.None? || apiData.value.analysis.None? then Incomplete
    else
      var meds := apiData.value.rawExtraction.value.medicines.GetOr([]);
      var rows := Rows(meds, apiData.value.analysis.value);
      Medications(|rows|, rows, |rows| == 0, |meds| > 0)
  }

  /** What the main panel shows for the current report. */
  datatype Panel = UploadPrompt | DataPanel(display: Display)

  /** The panel: the upload prompt exactly when nothing is stored. */
  function View(r: Report<PrescriptionData>): (p: Panel)
    ensures p.UploadPrompt? <==> r.apiData.None?
    ensures p.DataPanel? ==> p.display == Show(r.apiData)
  {
    if r.apiData.None? then UploadPrompt else DataPanel(Show(r.apiData))
  }

  /** Details never mix the analysis with the default: a row has one or the other, whole. */
  lemma NoFieldDefaults(meds: seq<Medicine>, analysis: map<string, Details>, i: nat)
    requires i < |meds|
    ensures var d := Rows(meds, analysis)[i].details;
      d == DefaultDetails || (meds[i].name in analysis && d == analysis[meds[i].name])
  {
  }

  /** An accepted answer with medicines but no analysis shows only the "incomplete" note. */
  lemma MissingAnalysisIncomplete(body: PrescriptionData)
    requires body.status != Some("error") && body.analysis.None?
    ensures Classify(Response(true, body)).Accepted?
    ensures Show(Some(Classify(Response(true, body)).data)) == Incomplete
  {
  }
}
