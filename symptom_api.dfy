/**
 * The symptom service (Backend/app.py): the markdown serialiser for an analysis, the error
 * reply shape, and the `/doctor_assistant` route's validation and error ladder.
 *
 * JSON is modelled by what the route reads from it: an analysis is a record of optional fields
 * (absent = the key is missing), the request body is either not JSON or an object whose
 * `symptoms` value is a string or some other value. The Gemini agent is a parameter.
 */
module SymptomApi {

  import opened Wrappers

  // ---------------------------------------------------------------- the analysis record

  /** The agent's parsed JSON; `error` is set when the agent reports its own failure. */
  datatype Analysis = Analysis(
    disclaimer: Option<string>, condition: Option<string>,
    problems: Option<seq<string>>, actions: Option<seq<string>>,
    specialist: Option<string>, finalStatement: Option<string>,
    error: Option<string>)

  const DefaultDisclaimer := "Disclaimer: No professional " + "medical advice provided."
  const DefaultSpecialist := "General Practitioner (GP)"
  const Heading1 := "## 1. " + "What You Might Be Experiencing" + "\n"
  const Heading2 := "## 2. " + "Possible Medical Problems" + "\n"
  const Heading3 := "## 3. " + "Immediate Actions to Take" + "\n"
  const Heading4 := "## 4. " + "Recommended Specialist" + "\n"
  const SpecialistLead := "**Specialist:**" + " "
  const Separator := "***" + "\n"

  // ---------------------------------------------------------------- list sections

  /** `f"- {p}"` for every item. */
  function Bullets(xs: seq<string>): (r: seq<string>)
    ensures |r| == |xs|
    ensures forall i :: 0 <= i < |xs| ==> r[i] == "- " + xs[i]
  {
    if xs == [] then [] else ["- " + xs[0]] + Bullets(xs[1..])
  }

  /** `"\n".join(lines)`. */
  function JoinLines(lines: seq<string>): string {
    if lines == [] then ""
    else if |lines| == 1 then lines[0]
    else lines[0] + "\n" + JoinLines(lines[1..])
  }

  /** A list section's body: bullet lines, or "- N/A\n" for a missing or empty list. */
  function ListBlock(items: Option<seq<string>>): string {
    var xs := items.GetOr([]);
    if xs == [] then "- N/A\n" else JoinLines(Bullets(xs))
  }

  /** `s.split("\n")`: the lines of `s`, the text after the last break included. */
  function SplitLines(s: string): (r: seq<string>)
    ensures r != []
  {
    if s == [] then [""]
    else
      var rest := SplitLines(s[1..]);
      if s[0] == '\n' then [""] + rest else [[s[0]] + rest[0]] + rest[1..]
  }

  /** A text with no line break is one line. */
  lemma {:induction false} SplitNone(x: string)
    requires '\n' !in x
    ensures SplitLines(x) == [x]
  {
    if x != [] {
      assert x[0] in x;
      assert forall c :: c in x[1..] ==> c in x;
      SplitNone(x[1..]);
      assert x == [x[0]] + x[1..];
    }
  }

  /** A break ends the first line; what follows splits on its own. */
  lemma {:induction false} SplitFirst(x: string, rest: string)
    requires '\n' !in x
    ensures SplitLines(x + "\n" + rest) == [x] + SplitLines(rest)
  {
    var s := x + "\n" + rest;
    if x == [] {
      assert s[0] == '\n' && s[1..] == rest;
    } else {
      assert x[0] in x;
      assert forall c :: c in x[1..] ==> c in x;
      SplitFirst(x[1..], rest);
      assert s[0] == x[0] && s[1..] == x[1..] + "\n" + rest;
      assert x == [x[0]] + x[1..];
    }
  }

  /** Splitting the joined lines gives the lines back, when none holds a line break. */
  lemma {:induction false} SplitJoin(lines: seq<string>)
    requires lines != []
    requires forall i :: 0 <= i < |lines| ==> '\n' !in lines[i]
    ensures SplitLines(JoinLines(lines)) == lines
  {
    if |lines| == 1 {
      SplitNone(lines[0]);
    } else {
      SplitJoin(lines[1..]);
      SplitFirst(lines[0], JoinLines(lines[1..]));
    }
  }

  /**
   * A non-empty list whose items hold no line break can be read back from its section: one
   * `- item` line per item, in order.
   */
  lemma ListBlockRoundTrip(xs: seq<string>)
    requires xs != []
    requires forall i :: 0 <= i < |xs| ==> '\n' !in xs[i]
    ensures SplitLines(ListBlock(Some(xs))) == Bullets(xs)
  {
    var b := Bullets(xs);
    forall i | 0 <= i < |b| ensures '\n' !in b[i] {
      assert b[i] == "- " + xs[i];
    }
    SplitJoin(b);
  }

  /** Missing and empty lists both render as the placeholder line. */
  lemma EmptyListPlaceholder()
    ensures ListBlock(None) == ListBlock(Some([])) == "- N/A\n"
  {
  }

  // ---------------------------------------------------------------- the serialiser

  /** `format_symptom_analysis_to_markdown`: fixed headings, per-key defaults. */
  function FormatMarkdown(a: Analysis): (md: string)
    ensures "**" + a.disclaimer.GetOr(DefaultDisclaimer) + "**\n\n" + Heading1 <= md
    ensures var tail := Separator + a.finalStatement.GetOr("N/A");
      |tail| <= |md| && md[|md| - |tail|..] == tail
  {
    ChainPrefix("**" + a.disclaimer.GetOr(DefaultDisclaimer) + "**\n\n" + Heading1, a.condition.GetOr("N/A"), "\n\n",
      Heading2, ListBlock(a.problems), "\n\n", Heading3, ListBlock(a.actions), "\n\n",
      Heading4, SpecialistLead, a.specialist.GetOr(DefaultSpecialist), "\n\n", Separator, a.finalStatement.GetOr("N/A"));
    "**" + a.disclaimer.GetOr(DefaultDisclaimer) + "**\n\n"
    + Heading1 + a.condition.GetOr("N/A") + "\n\n"
    + Heading2 + ListBlock(a.problems) + "\n\n"
    + Heading3 + ListBlock(a.actions) + "\n\n"
    + Heading4 + SpecialistLead + a.specialist.GetOr(DefaultSpecialist) + "\n\n"
    + Separator + a.finalStatement.GetOr("N/A")
  }

  lemma ChainPrefix(p: string, x1: string, x2: string, x3: string, x4: string, x5: string, x6: string, x7: string,
                    x8: string, x9: string, x10: string, x11: string, x12: string, x13: string, x14: string)
    ensures p <= p + x1 + x2 + x3 + x4 + x5 + x6 + x7 + x8 + x9 + x10 + x11 + x12 + x13 + x14
  {
    assert p + x1 + x2 + x3 + x4 + x5 + x6 + x7 + x8 + x9 + x10 + x11 + x12 + x13 + x14
      == p + (x1 + x2 + x3 + x4 + x5 + x6 + x7 + x8 + x9 + x10 + x11 + x12 + x13 + x14);
  }

  /** An analysis with no keys at all renders every default. */
  lemma AllDefaults()
    ensures FormatMarkdown(Analysis(None, None, None, None, None, None, None))
      == "**" + DefaultDisclaimer + "**\n\n" + Heading1 + "N/A" + "\n\n"
       + Heading2 + "- N/A\n" + "\n\n" + Heading3 + "- N/A\n" + "\n\n"
       + Heading4 + SpecialistLead + DefaultSpecialist + "\n\n" + Separator + "N/A"
  {
    assert ListBlock(None) == "- N/A\n";
  }

  // ---------------------------------------------------------------- replies

  /** A reply body: `{"status": "error", "message": m}`, or the success object. */
  datatype ApiBody =
    | ErrorBody(message: string)
    | SuccessBody(inputSymptoms: string, analysisJson: Analysis, analysisMarkdown: string)

  datatype ApiResponse = ApiResponse(code: int, body: ApiBody)

  /** `generate_error_response`: the error shape, with 400 unless a code is given. */
  function ErrorResponse(message: string, code: int := 400): (r: ApiResponse)
    ensures r.body.ErrorBody? && r.body.message == message && r.code == code
  {
    ApiResponse(code, ErrorBody(message))
  }

  // ---------------------------------------------------------------- the route

  /** The `symptoms` value: a string, or some other JSON value (`truthy` as Python sees it). */
  datatype SymptomsValue = Text(text: string) | NonText(truthy: bool)

  /** The request body as `get_json(silent=True)` gives it. */
  datatype Request = NotJson | JsonObject(symptoms: Option<SymptomsValue>)

  /** What one call of the agent does: raise, or return text that may or may not parse. */
  datatype AgentResult = Raised(message: string) | Returned(parsed: Option<Analysis>)

  const MissingSymptoms := "Missing 'symptoms' field " + "in request JSON."
  const EmptySymptoms := "Symptoms must be a " + "non-empty string."
  const NotInitialised := "System Error: Symptom Analysis " + "Agent failed to initialize."
  const UnexpectedPrefix := "An unexpected server error " + "occurred during symptom " + "analysis: "
  const InvalidJson := "Analysis Error: AI failed " + "to generate valid JSON."
  const FailedPrefix := "Symptom Analysis Failed: "

  /** The symptoms that pass validation, if they do. */
  function ValidSymptoms(req: Request): (r: Option<string>)
    ensures r.Some? <==> req.JsonObject? && req.symptoms.Some? && req.symptoms.value.Text? && req.symptoms.value.text != []
    ensures r.Some? ==> r.value == req.symptoms.value.text
  {
    if req.JsonObject? && req.symptoms.Some? && req.symptoms.value.Text? && req.symptoms.value.text != [] then
      Some(req.symptoms.value.text)
    else None
  }

  /**
   * `analyze_symptoms_route`: the missing field first, then an empty or non-string value, then
   * the agent's absence, then what the agent does; a success carries the serialised analysis.
   */
  function Route(req: Request, agentReady: bool, analyze: string -> AgentResult): (r: ApiResponse)
    ensures req.NotJson? || req.symptoms.None? ==> r == ErrorResponse(MissingSymptoms)
    ensures req.JsonObject? && req.symptoms.Some? && ValidSymptoms(req).None? ==> r == ErrorResponse(EmptySymptoms)
    ensures ValidSymptoms(req).Some? && !agentReady ==> r == ErrorResponse(NotInitialised, 500)
    ensures ValidSymptoms(req).Some? && agentReady ==>
      var t := ValidSymptoms(req).value;
      match analyze(t)
      case Raised(m) => r == ErrorResponse(UnexpectedPrefix + m, 500)
      case Returned(None) => r == ErrorResponse(InvalidJson, 500)
      case Returned(Some(a)) =>
        && (a.error.Some? ==> r == ErrorResponse(FailedPrefix + a.error.value, 500))
        && (a.error.None? ==> r == ApiResponse(200, SuccessBody(t, a, FormatMarkdown(a))))
    ensures r.body.SuccessBody? <==> r.code == 200
    ensures r.body.SuccessBody? ==>
      && ValidSymptoms(req) == Some(r.body.inputSymptoms)
      && r.body.analysisJson.error.None?
      && r.body.analysisMarkdown == FormatMarkdown(r.body.analysisJson)
  {
    match req
    case NotJson => ErrorResponse(MissingSymptoms)
    case JsonObject(None) => ErrorResponse(MissingSymptoms)
    case JsonObject(Some(v)) =>
      if !v.Text? || v.text == [] then ErrorResponse(EmptySymptoms)
      else if !agentReady then ErrorResponse(NotInitialised, 500)
      else match analyze(v.text)
        case Raised(msg) => ErrorResponse(UnexpectedPrefix + msg, 500)
        case Returned(None) => ErrorResponse(InvalidJson, 500)
        case Returned(Some(a)) =>
          if a.error.Some? then ErrorResponse(FailedPrefix + a.error.value, 500)
          else ApiResponse(200, SuccessBody(v.text, a, FormatMarkdown(a)))
  }

  /** Every refusal has the error shape with 400 or 500, and 400 only for a bad request. */
  lemma ErrorCodes(req: Request, agentReady: bool, analyze: string -> AgentResult)
    ensures var r := Route(req, agentReady, analyze);
      r.body.ErrorBody? ==> (r.code == 400 <==> ValidSymptoms(req).None?) && (r.code == 400 || r.code == 500)
  {
  }

  /** A bad request is answered the same way whatever state the agent is in: validation comes first. */
  lemma ValidationFirst(req: Request, ready1: bool, analyze1: string -> AgentResult,
                        ready2: bool, analyze2: string -> AgentResult)
    requires ValidSymptoms(req).None?
    ensures Route(req, ready1, analyze1) == Route(req, ready2, analyze2)
  {
  }

  /** A non-string value is refused with the same text as an empty one, whatever its truthiness. */
  lemma NonStringRefused(truthy: bool, agentReady: bool, analyze: string -> AgentResult)
    ensures Route(JsonObject(Some(NonText(truthy))), agentReady, analyze) == ErrorResponse(EmptySymptoms)
  {
  }
}
