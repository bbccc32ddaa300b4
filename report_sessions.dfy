/**
 * The state machine both document screens share (Frontend/src/aiAgent/ReportReaderAgent.jsx
 * and Frontend/src/aiAgent/PrescriptionReaderAgent.jsx): a list of `reports` with a
 * `currentReport`, create / delete / select handlers, and an upload whose result replaces the
 * current report. The screens differ only in the title of a new report, the type of the stored
 * answer `D`, and how an answer is judged a failure; that judgement is each screen's
 * `Classify`, and its result is what `FinishUpload` consumes.
 *
 * The upload awaits the service between two state updates; as in the chat screen it is two
 * steps over an explicit snapshot. The file input is disabled while loading, so a second
 * upload cannot start before the first finishes.
 */
module ReportSessions {

  import opened Wrappers
  import opened Text
  import SessionList

  /** One entry of the sidebar: the stored answer is absent until an upload succeeds. */
  datatype Report<D> = Report(id: int, title: string, fileName: Option<string>, apiData: Option<D>)

  function ReportId<D>(r: Report<D>): int {
    r.id
  }

  /** The title of the one report a screen starts with. */
  const InitialTitle := "Report Analysis"

  /** A report with nothing uploaded yet. */
  function Blank<D>(id: int, title: string): (r: Report<D>)
    ensures r.id == id && r.title == title && r.fileName.None? && r.apiData.None?
  {
    Report(id, title, None, None)
  }

  /** The title after an upload: the first 25 characters of the file name between fixed ends. */
  function UploadTitle(fileName: string): (r: string)
    ensures |r| == 13 + (if |fileName| < 25 then |fileName| else 25)
    ensures r[..10] == "Analysis: " && r[|r| - 3..] == "..."
    ensures r[10..|r| - 3] <= fileName
    ensures |fileName| <= 25 ==> r[10..|r| - 3] == fileName
    ensures |fileName| > 25 ==> r[10..|r| - 3] == fileName[..25]
  {
    var p := Prefix(fileName, 25);
    var r := "Analysis: " + p + "...";
    assert r[10..|r| - 3] == p;
    r
  }

  /** The current report with the upload's result in it; the id is kept. */
  function Uploaded<D>(r: Report<D>, fileName: string, data: D): (u: Report<D>)
    ensures u.id == r.id && u.title == UploadTitle(fileName)
    ensures u.fileName == Some(fileName) && u.apiData == Some(data)
  {
    r.(title := UploadTitle(fileName), fileName := Some(fileName), apiData := Some(data))
  }

  /** What the service round trip amounts to: `fetch` plus `response.json()`. */
  datatype HttpReply<B> =
    | Response(ok: bool, body: B)   // a JSON body with the status's `ok`
    | Unreadable(reason: string)    // the fetch or the JSON parse threw, with the error's message

  /** A judged answer: stored as the report's data, or refused with the alerts it shows. */
  datatype Outcome<D> = Accepted(data: D) | Rejected(alerts: seq<string>)

  /** What the upload handler captures before its await. */
  datatype Upload<D> = Upload(reports: seq<Report<D>>, report: Report<D>, fileName: string)

  /** The list a successful upload writes: the snapshot with the updated report in place. */
  function AfterUpload<D(==)>(u: Upload<D>, data: D): (r: seq<Report<D>>)
    requires SessionList.Valid(u.reports, u.report, ReportId)
    ensures SessionList.Valid(r, Uploaded(u.report, u.fileName, data), ReportId)
    ensures |r| == |u.reports|
    ensures forall i :: 0 <= i < |r| ==> r[i].id == u.reports[i].id
    ensures forall i :: 0 <= i < |r| && u.reports[i].id != u.report.id ==> r[i] == u.reports[i]
  {
    var up := Uploaded(u.report, u.fileName, data);
    SessionList.ReplaceKeyValid(u.reports, ReportId, u.report, up);
    SessionList.ReplaceKey(u.reports, ReportId, u.report.id, up)
  }

  class ReportStore<D(==)> {
    /** "New Report" or "New Analysis", depending on the screen. */
    const newTitle: string
    var reports: seq<Report<D>>
    var current: Report<D>
    var loading: bool
    var sidebarOpen: bool
    var pending: Option<Upload<D>>

    /** Never an empty list, ids distinct, the current report listed; loading exactly while an upload waits. */
    predicate Valid()
      reads this
    {
      && SessionList.Valid(reports, current, ReportId)
      && (loading <==> pending.Some?)
      && (pending.Some? ==> SessionList.Valid(pending.value.reports, pending.value.report, ReportId))
    }

    /** The initial state: one blank report with id 1, current. */
    constructor (newTitle: string)
      ensures Valid() && this.newTitle == newTitle
      ensures reports == [Blank(1, InitialTitle)] && current == Blank(1, InitialTitle)
      ensures !loading && !sidebarOpen && pending == None
    {
      this.newTitle := newTitle;
      reports := [Blank(1, InitialTitle)];
      current := Blank(1, InitialTitle);
      loading := false;
      sidebarOpen := false;
      pending := None;
    }

    /** `createNewReport`: a blank report goes in front and becomes current. */
    method CreateNewReport(freshId: int)
      requires Valid() && SessionList.Fresh(reports, ReportId, freshId)
      modifies this`reports, this`current, this`sidebarOpen
      ensures Valid()
      ensures reports == [Blank(freshId, newTitle)] + old(reports) && current == Blank(freshId, newTitle)
      ensures !sidebarOpen
    {
      SessionList.PrependFresh(reports, ReportId, Blank(freshId, newTitle));
      reports := [Blank(freshId, newTitle)] + reports;
      current := Blank(freshId, newTitle);
      sidebarOpen := false;
    }

    /** `handleDeleteReport`, as written (see `SessionList.DeleteStep`). */
    method DeleteReport(id: int, freshId: int)
      requires Valid()
      requires SessionList.Without(reports, ReportId, id) == [] ==> SessionList.Fresh(reports, ReportId, freshId)
      modifies this`reports, this`current, this`sidebarOpen
      ensures Valid()
      ensures (reports, current) == SessionList.DeleteStep(old(reports), old(current), ReportId, id, Blank(freshId, newTitle))
      ensures sidebarOpen == (old(sidebarOpen) && SessionList.Without(old(reports), ReportId, id) != [])
    {
      SessionList.DeleteStepValid(reports, current, ReportId, id, Blank(freshId, newTitle));
      var rest := SessionList.Without(reports, ReportId, id);
      if rest == [] {
        CreateNewReport(freshId);
      } else {
        if current.id == id {
          current := rest[0];
        }
        reports := rest;
      }
    }

    /** `handleReportSelection`: a report from the sidebar list becomes current. */
    method SelectReport(r: Report<D>)
      requires Valid() && r in reports
      modifies this`current, this`sidebarOpen
      ensures Valid() && current == r && !sidebarOpen
    {
      current := r;
      sidebarOpen := false;
    }

    /** The upload handler up to its await: no file changes nothing; otherwise loading starts. */
    method BeginUpload(file: Option<string>) returns (started: bool)
      requires Valid() && !loading
      modifies this`loading, this`pending
      ensures Valid()
      ensures started <==> file.Some?
      ensures started ==> loading && pending == Some(Upload(reports, current, file.value))
      ensures !started ==> !loading && pending == None
    {
      if file.None? {
        return false;
      }
      pending := Some(Upload(reports, current, file.value));
      loading := true;
      started := true;
    }

    /**
     * The upload handler after its await: an accepted answer goes into the report that was
     * current at the start, in the list as it was then; a refused one changes no report.
     * Loading ends either way, and the refusal's alerts are returned.
     */
    method FinishUpload(outcome: Outcome<D>) returns (alerts: seq<string>)
      requires Valid() && pending.Some?
      modifies this`reports, this`current, this`loading, this`pending
      ensures Valid() && !loading && pending == None
      ensures outcome.Accepted? ==> (alerts == []
        && reports == AfterUpload(old(pending).value, outcome.data)
        && current == Uploaded(old(pending).value.report, old(pending).value.fileName, outcome.data))
      ensures outcome.Rejected? ==> (alerts == outcome.alerts
        && reports == old(reports) && current == old(current))
    {
      var u := pending.value;
      match outcome {
        case Accepted(data) =>
          reports := AfterUpload(u, data);
          current := Uploaded(u.report, u.fileName, data);
          alerts := [];
        case Rejected(shown) =>
          alerts := shown;
      }
      loading := false;
      pending := None;
    }
  }
}
