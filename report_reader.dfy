/**
 * The lab-report screen (Frontend/src/aiAgent/ReportReaderAgent.jsx): how an upload's answer is
 * judged, and how a stored answer is shown. The state machine is `ReportSessions.ReportStore`
 * with "New Report" as the title of a new report.
 *
 * JSON values the screen prints are strings here; a number (an age of 0, a numeric value or
 * unit) is not modelled.
 */
module ReportReader {

  import opened Wrappers
  import opened Text
  import opened ReportSessions

  const NewTitle := "New Report"
  const FailurePrefix := "Failed to process the report. "
  const ServerError := "Server returned an error."

  // ---------------------------------------------------------------- the stored answer

  datatype Profile = Profile(
    name: Option<string>, age: Option<string>, gender: Option<string>,
    history: Option<string>, complaints: Option<string>)

  /** One lab result; `flag` is absent or empty for a normal value. */
  datatype LabResult = LabResult(item: string, value: string, unit: string, flag: Option<string>)

  /** `structured_medical_data.content.diagnostic`. */
  datatype Diagnostic = Diagnostic(testName: Option<string>, results: Option<seq<LabResult>>)

  datatype Provider = Provider(name: Option<string>, facility: Option<string>)

  /** `structured_medical_data`, with `content.diagnostic` lifted to a field. */
  datatype MedicalData = MedicalData(diagnostic: Option<Diagnostic>, provider: Option<Provider>, summary: Option<string>)

  /** The service's JSON body for a report. */
  datatype ReportData = ReportData(
    status: Option<string>, error: Option<string>,
    profile: Profile, medical: MedicalData, consultationHtml: Option<string>)

  /** A new store for this screen. */
  method NewStore() returns (s: ReportStore<ReportData>)
    ensures fresh(s) && s.Valid() && s.newTitle == NewTitle
    ensures s.reports == [Blank(1, InitialTitle)] && s.current == s.reports[0] && !s.loading
  {
    s := new ReportStore(NewTitle);
  }

  // ---------------------------------------------------------------- judging an answer

  /**
   * Only a response that is not OK is a failure; its alert carries the body's `error` or a
   * fixed text. A throw in the fetch or the parse is a failure with the error's own message.
   */
  function Classify(reply: HttpReply<ReportData>): (o: Outcome<ReportData>)
    ensures o.Accepted? <==> reply.Response? && reply.ok
    ensures o.Accepted? ==> o.data == reply.body
    ensures o.Rejected? ==> |o.alerts| == 1 && FailurePrefix <= o.alerts[0]
    ensures reply.Response? && !reply.ok ==>
      o == Rejected([FailurePrefix + OrElse(reply.body.error, ServerError)])
    ensures reply.Unreadable? ==> o == Rejected([FailurePrefix + reply.reason])
  {
    match reply
    case Response(ok, body) =>
      if ok then Accepted(body) else Rejected([FailurePrefix + OrElse(body.error, ServerError)])
    case Unreadable(reason) => Rejected([FailurePrefix + reason])
  }

  /** A 2xx answer is stored even when its body says `status: "error"`. */
  lemma ErrorStatusStored(body: ReportData)
    requires body.status == Some("error")
    ensures Classify(Response(true, body)) == Accepted(body)
  {
  }

  // ---------------------------------------------------------------- showing a report

  /** The text of one list item: item, value and unit, then the flag or "Normal". */
  function ResultLine(r: LabResult): string {
    r.item + ": " + r.value + " " + r.unit + " — Status: " + OrElse(r.flag, "Normal")
  }

  /** `results.map(...)`: one line per result, in order. */
  function ResultLines(rs: seq<LabResult>): (lines: seq<string>)
    ensures |lines| == |rs|
    ensures forall i :: 0 <= i < |rs| ==> lines[i] == ResultLine(rs[i])
  {
    if rs == [] then [] else [ResultLine(rs[0])] + ResultLines(rs[1..])
  }

  /** The rows under "Diagnostic Results": none when the diagnostic or its results are absent. */
  function Rows(d: Option<Diagnostic>): (lines: seq<string>)
    ensures d.None? || d.value.results.None? ==> lines == []
    ensures d.Some? && d.value.results.Some? ==> lines == ResultLines(d.value.results.value)
    ensures d.Some? && d.value.results.Some? ==> |lines| == |d.value.results.value|
    ensures d.Some? && d.value.results.Some? ==>
      forall i :: 0 <= i < |lines| ==> lines[i] == ResultLine(d.value.results.value[i])
  {
    match d
    case None => []
    case Some(dg) => match dg.results
      case None => []
      case Some(rs) => ResultLines(rs)
  }

  /** An unflagged result reads as normal; a flagged one shows its flag. */
  lemma FlagDefault(r: LabResult)
    ensures r.flag.None? || r.flag.value == [] ==> ResultLine(r)[|ResultLine(r)| - 6..] == "Normal"
    ensures r.flag.Some? && r.flag.value != [] ==>
      ResultLine(r)[|ResultLine(r)| - |r.flag.value|..] == r.flag.value
  {
  }

  /** What the main panel shows for the current report. */
  datatype ReportView =
    | UploadPrompt
    | DataView(name: string, age: string, gender: string, history: string, complaints: string,
               testName: string, rows: seq<string>, providerName: string, facility: string,
               summary: string)

  /**
   * The panel: the upload prompt exactly when nothing is stored; otherwise the profile with
   * the age defaulting to "N/A", and one row per lab result.
   */
  function View(r: Report<ReportData>): (v: ReportView)
    ensures v.UploadPrompt? <==> r.apiData.None?
    ensures v.DataView? ==> v.age == OrElse(r.apiData.value.profile.age, "N/A")
    ensures v.DataView? ==> v.rows == Rows(r.apiData.value.medical.diagnostic)
  {
    match r.apiData
    case None => UploadPrompt
    case Some(data) =>
      var p := data.profile;
      var m := data.medical;
      DataView(Shown(p.name), OrElse(p.age, "N/A"), Shown(p.gender), Shown(p.history), Shown(p.complaints),
        if m.diagnostic.Some? then Shown(m.diagnostic.value.testName) else "",
        Rows(m.diagnostic),
        if m.provider.Some? then Shown(m.provider.value.name) else "",
        if m.provider.Some? then Shown(m.provider.value.facility) else "",
        Shown(m.summary))
  }

  /** After a successful upload the panel shows the stored data, never the prompt. */
  lemma UploadedShowsData(r: Report<ReportData>, fileName: string, data: ReportData)
    ensures View(Uploaded(r, fileName, data)).DataView?
    ensures |View(Uploaded(r, fileName, data)).rows| ==
      if data.medical.diagnostic.Some? && data.medical.diagnostic.value.results.Some?
      then |data.medical.diagnostic.value.results.value| else 0
  {
  }
}
