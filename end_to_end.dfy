/**
 * What happens to the service's markdown (Backend/app.py) once the chat screen
 * (Frontend/src/aiAgent/DoctorAgent.jsx) receives it: which rewrite rules fire on it, and how
 * every reply of the `/doctor_assistant` route ends up on screen.
 *
 * The lemmas hold for analyses whose texts carry no heading marker `#` of their own and whose
 * disclaimer is one line without `*` or `$`. That is a restriction the lemmas need; the agent
 * is not held to it. A disclaimer that spans lines, for one, is no bold span for rule 1, which
 * then turns the next single-line bold span, `**Specialist:**`, into the alert.
 */
module EndToEnd {

  import opened Wrappers
  import opened Text
  import opened Patterns
  import opened BubbleRewrite
  import Api = SymptomApi
  import Chat = DoctorAgent

  /** No heading marker of its own. */
  predicate Clean(x: string) {
    '#' !in x
  }

  /** Every text of the analysis is clean, and the disclaimer is one line without `*` or `$`. */
  predicate Tidy(a: Api.Analysis) {
    && Clean(a.disclaimer.GetOr(Api.DefaultDisclaimer))
    && '*' !in a.disclaimer.GetOr(Api.DefaultDisclaimer)
    && '$' !in a.disclaimer.GetOr(Api.DefaultDisclaimer)
    && OneLine(a.disclaimer.GetOr(Api.DefaultDisclaimer))
    && Clean(a.condition.GetOr("N/A"))
    && (forall x :: x in a.problems.GetOr([]) ==> Clean(x))
    && (forall x :: x in a.actions.GetOr([]) ==> Clean(x))
    && Clean(a.specialist.GetOr(Api.DefaultSpecialist))
    && Clean(a.finalStatement.GetOr("N/A"))
  }

  // ---------------------------------------------------------------- the pieces of the markdown

  const Title1 := "What You Might Be Experiencing"
  const Title2 := "Possible Medical Problems"
  const Title3 := "Immediate Actions to Take"

  function Disclaimer(a: Api.Analysis): string { a.disclaimer.GetOr(Api.DefaultDisclaimer) }

  /** The text between the headings, each with the blank line that follows it. */
  function Gap1(a: Api.Analysis): string { a.condition.GetOr("N/A") + "\n\n" }
  function Gap2(a: Api.Analysis): string { Api.ListBlock(a.problems) + "\n\n" }
  function Gap3(a: Api.Analysis): string { Api.ListBlock(a.actions) + "\n\n" }
  function Gap4(a: Api.Analysis): string {
    Api.SpecialistLead + a.specialist.GetOr(Api.DefaultSpecialist) + "\n\n" + Api.Separator + a.finalStatement.GetOr("N/A")
  }

  /** The markdown after the disclaimer's closing `**`. */
  function AfterDisclaimer(a: Api.Analysis): string {
    "\n\n" + Api.Heading1 + Gap1(a) + Api.Heading2 + Gap2(a) + Api.Heading3 + Gap3(a) + Api.Heading4 + Gap4(a)
  }

  lemma RegroupFormat(d: string, nl: string, h1: string, c: string, h2: string, l2: string, h3: string,
                      l3: string, h4: string, sl: string, sp: string, sep: string, f: string)
    ensures "**" + d + ("**" + nl) + h1 + c + nl + h2 + l2 + nl + h3 + l3 + nl + h4 + sl + sp + nl + sep + f
         == [] + "**" + d + "**" + (nl + h1 + (c + nl) + h2 + (l2 + nl) + h3 + (l3 + nl) + h4 + (sl + sp + nl + sep + f))
  {
    var t := sl + sp + nl + sep + f;
    var d0 := [] + "**" + d + "**";
    assert "**" + d + ("**" + nl) == d0 + nl;
    Tail5("**" + d + ("**" + nl) + h1 + c + nl + h2 + l2 + nl + h3 + l3 + nl + h4, sl, sp, nl, sep, f);
    ConcatAssoc(nl + h1, c, nl);
    ConcatAssoc(nl + h1 + c + nl + h2, l2, nl);
    ConcatAssoc(nl + h1 + c + nl + h2 + l2 + nl + h3, l3, nl);
    ConcatAssoc(d0, nl + h1 + c + nl + h2 + l2 + nl + h3 + l3 + nl + h4, t);
    ConcatAssoc(d0, nl + h1 + c + nl + h2 + l2 + nl + h3 + l3 + nl, h4);
    ConcatAssoc(d0, nl + h1 + c + nl + h2 + l2 + nl + h3 + l3, nl);
    ConcatAssoc(d0, nl + h1 + c + nl + h2 + l2 + nl + h3, l3);
    ConcatAssoc(d0, nl + h1 + c + nl + h2 + l2 + nl, h3);
    ConcatAssoc(d0, nl + h1 + c + nl + h2 + l2, nl);
    ConcatAssoc(d0, nl + h1 + c + nl + h2, l2);
    ConcatAssoc(d0, nl + h1 + c + nl, h2);
    ConcatAssoc(d0, nl + h1 + c, nl);
    ConcatAssoc(d0, nl + h1, c);
    ConcatAssoc(d0, nl, h1);
  }

  lemma Tail5(x: string, a: string, b: string, c: string, d: string, e: string)
    ensures x + a + b + c + d + e == x + (a + b + c + d + e)
  {
  }

  lemma Regroup9(p: string, l1: string, g1: string, l2: string, g2: string, l3: string, g3: string, l4: string, g4: string)
    ensures p + l1 + g1 + l2 + g2 + l3 + g3 + l4 + g4 == p + l1 + (g1 + l2 + (g2 + l3 + (g3 + l4 + g4)))
  {
  }

  lemma Regroup10(x: string, nl: string, l1: string, g1: string, l2: string, g2: string, l3: string, g3: string,
                  l4: string, g4: string)
    ensures x + (nl + l1 + g1 + l2 + g2 + l3 + g3 + l4 + g4) == (x + nl) + l1 + g1 + l2 + g2 + l3 + g3 + l4 + g4
  {
  }

  /** The service's markdown is its disclaimer in `**` markers, then the rest. */
  lemma FormatShape(a: Api.Analysis)
    ensures Api.FormatMarkdown(a) == [] + "**" + Disclaimer(a) + "**" + AfterDisclaimer(a)
  {
    assert "**\n\n" == "**" + "\n\n";
    RegroupFormat(Disclaimer(a), "\n\n", Api.Heading1, a.condition.GetOr("N/A"), Api.Heading2,
      Api.ListBlock(a.problems), Api.Heading3, Api.ListBlock(a.actions), Api.Heading4, Api.SpecialistLead,
      a.specialist.GetOr(Api.DefaultSpecialist), Api.Separator, a.finalStatement.GetOr("N/A"));
  }

  lemma Heading1Line()
    ensures Api.Heading1 == HeaderLine(' ', "1", ' ', Title1) && Digits("1") && OneLine(Title1)
  {
    assert "##" + [' '] + "1" + "." + [' '] == "## 1. ";
  }

  lemma Heading2Line()
    ensures Api.Heading2 == HeaderLine(' ', "2", ' ', Title2) && Digits("2") && OneLine(Title2)
  {
    assert "##" + [' '] + "2" + "." + [' '] == "## 2. ";
  }

  lemma Heading3Line()
    ensures Api.Heading3 == HeaderLine(' ', "3", ' ', Title3) && Digits("3") && OneLine(Title3)
  {
    assert "##" + [' '] + "3" + "." + [' '] == "## 3. ";
  }

  lemma Heading4Line()
    ensures Api.Heading4 == HeaderLine(' ', "4", ' ', SpecialistTitle) && Digits("4") && OneLine(SpecialistTitle)
  {
    assert "##" + [' '] + "4" + "." + [' '] == "## 4. ";
  }

  /** A clean list renders clean. */
  lemma {:induction false} JoinClean(lines: seq<string>)
    requires forall i :: 0 <= i < |lines| ==> '#' !in lines[i]
    ensures '#' !in Api.JoinLines(lines)
  {
    if |lines| > 1 {
      JoinClean(lines[1..]);
    }
  }

  lemma ListBlockClean(items: Option<seq<string>>)
    requires forall x :: x in items.GetOr([]) ==> Clean(x)
    ensures '#' !in Api.ListBlock(items)
  {
    var xs := items.GetOr([]);
    var b := Api.Bullets(xs);
    forall i | 0 <= i < |b| ensures '#' !in b[i] {
      assert xs[i] in xs;
    }
    JoinClean(b);
  }

  lemma GapsClean(a: Api.Analysis)
    requires Tidy(a)
    ensures '#' !in Gap1(a) && '#' !in Gap2(a) && '#' !in Gap3(a) && '#' !in Gap4(a)
  {
    ListBlockClean(a.problems);
    ListBlockClean(a.actions);
  }

  // ---------------------------------------------------------------- rule 1 on the markdown

  lemma EmptyPrefix(x: string, y: string)
    ensures [] + x + y == x + y
  {
  }

  /** Rule 1 on a text that starts with a one-line bold span. */
  lemma Rule1Front(d: string, rest: string)
    requires '*' !in d && '$' !in d && OneLine(d)
    ensures Rule1([] + "**" + d + "**" + rest) == Alert(d) + rest
  {
    var e: string := [];
    Rule1PlainDisclaimer(e, d, rest);
    EmptyPrefix(Alert(d), rest);
  }

  /** Rule 1 turns exactly the service's disclaimer into the alert block; nothing else changes. */
  lemma DisclaimerBecomesAlert(a: Api.Analysis)
    requires Tidy(a)
    ensures Rule1(Api.FormatMarkdown(a)) == Alert(Disclaimer(a)) + AfterDisclaimer(a)
  {
    FormatShape(a);
    Rule1Front(Disclaimer(a), AfterDisclaimer(a));
  }

  // ---------------------------------------------------------------- rule 2 on the markdown

  /** Rule 2 skips a clean prefix and rewrites the header line after it. */
  lemma Rule2Step(pre: string, n: string, title: string, rest: string)
    requires '#' !in pre && Digits(n) && OneLine(title)
    ensures Rule2(pre + HeaderLine(' ', n, ' ', title) + rest)
         == pre + HeaderBlock(n + ".", title) + Rule2(rest)
  {
    var line := HeaderLine(' ', n, ' ', title);
    var block := HeaderBlock(n + ".", title);
    assert pre + line + rest == pre + (line + rest);
    Rule2Skip(pre, line + rest);
    Rule2Header(' ', n, ' ', title, rest);
    assert pre + (block + Rule2(rest)) == pre + block + Rule2(rest);
  }

  lemma Rule2Clean(s: string)
    requires '#' !in s
    ensures Rule2(s) == s
  {
    NoLeadNoMatch(NumberedHeader, s);
    ReplaceAllNoMatch(NumberedHeader, s, HeaderRewrite);
  }

  /** Four header lines between clean stretches: each becomes its block, the stretches stay. */
  lemma Rule2Four(p: string, g1: string, g2: string, g3: string, g4: string,
                  n1: string, n2: string, n3: string, n4: string,
                  t1: string, t2: string, t3: string, t4: string)
    requires '#' !in p && '#' !in g1 && '#' !in g2 && '#' !in g3 && '#' !in g4
    requires Digits(n1) && Digits(n2) && Digits(n3) && Digits(n4)
    requires OneLine(t1) && OneLine(t2) && OneLine(t3) && OneLine(t4)
    ensures Rule2(p + HeaderLine(' ', n1, ' ', t1) + g1 + HeaderLine(' ', n2, ' ', t2) + g2
                    + HeaderLine(' ', n3, ' ', t3) + g3 + HeaderLine(' ', n4, ' ', t4) + g4)
         == p + HeaderBlock(n1 + ".", t1) + g1 + HeaderBlock(n2 + ".", t2) + g2
              + HeaderBlock(n3 + ".", t3) + g3 + HeaderBlock(n4 + ".", t4) + g4
  {
    var l1, l2, l3, l4 := HeaderLine(' ', n1, ' ', t1), HeaderLine(' ', n2, ' ', t2),
                          HeaderLine(' ', n3, ' ', t3), HeaderLine(' ', n4, ' ', t4);
    var b1, b2, b3, b4 := HeaderBlock(n1 + ".", t1), HeaderBlock(n2 + ".", t2),
                          HeaderBlock(n3 + ".", t3), HeaderBlock(n4 + ".", t4);
    Regroup9(p, l1, g1, l2, g2, l3, g3, l4, g4);
    Rule2Step(p, n1, t1, g1 + l2 + (g2 + l3 + (g3 + l4 + g4)));
    Rule2Step(g1, n2, t2, g2 + l3 + (g3 + l4 + g4));
    Rule2Step(g2, n3, t3, g3 + l4 + g4);
    Rule2Step(g3, n4, t4, g4);
    Rule2Clean(g4);
    Regroup9(p, b1, g1, b2, g2, b3, g3, b4, g4);
  }

  /** The markdown after rule 1 and rule 2: every numbered heading is a header block. */
  function Headed(a: Api.Analysis): string {
    Alert(Disclaimer(a)) + "\n\n"
    + HeaderBlock("1.", Title1) + Gap1(a) + HeaderBlock("2.", Title2) + Gap2(a)
    + HeaderBlock("3.", Title3) + Gap3(a) + HeaderBlock("4.", SpecialistTitle) + Gap4(a)
  }

  /** Rule 2 rewrites the four headings of the service's markdown, and nothing else. */
  lemma HeadingsBecomeBlocks(a: Api.Analysis)
    requires Tidy(a)
    ensures Rule2(Rule1(Api.FormatMarkdown(a))) == Headed(a)
  {
    DisclaimerBecomesAlert(a);
    GapsClean(a);
    AlertInert();
    assert '#' !in Alert(Disclaimer(a));
    HeadingsBetween(Alert(Disclaimer(a)), Gap1(a), Gap2(a), Gap3(a), Gap4(a));
  }

  /** The four headings the service writes, between clean stretches, become header blocks. */
  lemma HeadingsBetween(x: string, g1: string, g2: string, g3: string, g4: string)
    requires '#' !in x && '#' !in g1 && '#' !in g2 && '#' !in g3 && '#' !in g4
    ensures Rule2(x + ("\n\n" + Api.Heading1 + g1 + Api.Heading2 + g2 + Api.Heading3 + g3 + Api.Heading4 + g4))
         == x + "\n\n" + HeaderBlock("1.", Title1) + g1 + HeaderBlock("2.", Title2) + g2
              + HeaderBlock("3.", Title3) + g3 + HeaderBlock("4.", SpecialistTitle) + g4
  {
    Heading1Line();
    Heading2Line();
    Heading3Line();
    Heading4Line();
    Regroup10(x, "\n\n", Api.Heading1, g1, Api.Heading2, g2, Api.Heading3, g3, Api.Heading4, g4);
    assert "1" + "." == "1." && "2" + "." == "2." && "3" + "." == "3." && "4" + "." == "4.";
    Rule2Four(x + "\n\n", g1, g2, g3, g4, "1", "2", "3", "4", Title1, Title2, Title3, SpecialistTitle);
  }

  // ---------------------------------------------------------------- rule 5 never fires

  lemma HeaderBlockClean(ordinal: string, title: string)
    requires '#' !in ordinal && '#' !in title
    ensures '#' !in HeaderBlock(ordinal, title)
  {
    HeaderInert();
    assert HeaderBlock(ordinal, title) == HeaderOpen + ordinal + HeaderMid + title + ("\n" + HeaderTail);
  }

  lemma HeadedClean(a: Api.Analysis)
    requires Tidy(a)
    ensures '#' !in Headed(a)
  {
    AlertInert();
    GapsClean(a);
    HeaderBlockClean("1.", Title1);
    HeaderBlockClean("2.", Title2);
    HeaderBlockClean("3.", Title3);
    HeaderBlockClean("4.", SpecialistTitle);
    assert Clean(Alert(Disclaimer(a)));
    CleanJoin(Alert(Disclaimer(a)), "\n\n", HeaderBlock("1.", Title1), Gap1(a), HeaderBlock("2.", Title2), Gap2(a),
      HeaderBlock("3.", Title3), Gap3(a), HeaderBlock("4.", SpecialistTitle), Gap4(a));
  }

  lemma CleanJoin(x1: string, x2: string, x3: string, x4: string, x5: string, x6: string, x7: string, x8: string,
                  x9: string, x10: string)
    requires Clean(x1) && Clean(x2) && Clean(x3) && Clean(x4) && Clean(x5)
    requires Clean(x6) && Clean(x7) && Clean(x8) && Clean(x9) && Clean(x10)
    ensures Clean(x1 + x2 + x3 + x4 + x5 + x6 + x7 + x8 + x9 + x10)
  {
  }

  lemma FindingKeepsOutHash()
    ensures forall t :: '#' !in t ==> '#' !in FindingRewrite(t)
  {
    forall t | '#' !in t ensures '#' !in FindingRewrite(t) {
      match FindingLen(t)
      case None =>
      case Some(n) =>
        FindingInert();
        var x := t[|FindingLead|..n - 1];
        assert forall c :: c in x ==> c in t;
    }
  }

  /**
   * The service writes its specialist section in exactly the shape rule 5 is written for:
   * `Rule5Card` turns it into the specialist card when rule 5 sees it.
   */
  lemma SpecialistSectionShape(a: Api.Analysis)
    ensures Api.Heading4 + Gap4(a) == SpecialistSection(a.specialist.GetOr(Api.DefaultSpecialist))
      + Api.Separator + a.finalStatement.GetOr("N/A")
  {
    var sp, f := a.specialist.GetOr(Api.DefaultSpecialist), a.finalStatement.GetOr("N/A");
    assert Api.Heading4 == "## 4. " + SpecialistTitle + "\n";
    assert Api.SpecialistLead == SpecialistLabel + " ";
    RegroupSection("## 4. " + SpecialistTitle + "\n", SpecialistLabel, " ", sp, "\n\n", Api.Separator, f);
  }

  lemma RegroupSection(h: string, lab: string, gap: string, sp: string, nl: string, sep: string, f: string)
    ensures h + (lab + gap + sp + nl + sep + f) == h + lab + gap + sp + nl + sep + f
  {
  }

  /**
   * Yet in the chain rule 2 has already turned the `## 4.` heading into a header block: no `#`
   * is left, rule 5 matches nothing, and the `**Specialist:**` line stays as markdown.
   */
  lemma SpecialistCardNeverFires(a: Api.Analysis)
    requires Tidy(a)
    ensures var x := Rule4(Rule3(Rule2(Rule1(Api.FormatMarkdown(a)))));
      Rule5(x) == x
  {
    HeadingsBecomeBlocks(a);
    HeadedClean(a);
    NoHashStaysIdle(Headed(a));
  }

  /** Rules 3 and 4 bring in no `#`, so after them rule 5 still has nothing to match. */
  lemma NoHashStaysIdle(h: string)
    requires '#' !in h
    ensures Rule5(Rule4(Rule3(h))) == Rule4(Rule3(h))
  {
    Rule3KeepsOutHash(h);
    Rule4KeepsOutHash(Rule3(h));
    Rule5Idle(Rule4(Rule3(h)));
  }

  lemma Rule3KeepsOutHash(h: string)
    requires '#' !in h
    ensures '#' !in Rule3(h)
  {
    FindingKeepsOutHash();
    ReplaceFirstKeepsOut(LikelyFinding, h, FindingRewrite, '#');
  }

  lemma Rule4KeepsOutHash(h: string)
    requires '#' !in h
    ensures '#' !in Rule4(h)
  {
    AnchorWithImageClean();
    ConstKeepsOut(AnchorWithImage, '#');
    ReplaceAllKeepsOut(Literal(Anchor), h, Const(AnchorWithImage), '#');
  }

  lemma AnchorWithImageClean()
    ensures '#' !in AnchorWithImage
  {
    assert '#' !in ImageLine;
  }

  /** Without a `#` rule 5 has nothing to match. */
  lemma Rule5Idle(h: string)
    requires '#' !in h
    ensures Rule5(h) == h
  {
    NoLeadNoMatch(SpecialistCard, h);
    ReplaceFirstNoMatch(SpecialistCard, h, CardRewrite);
  }

  // ---------------------------------------------------------------- rule 6 on the closing line

  /**
   * The closing statement the agent is told to use is the call to action, and the service
   * writes it right after `***` and a line break: rule 6 consumes all three.
   */
  lemma ClosingBecomesButton()
    ensures Rule6(Api.Separator + ActionSentence) == CtaBlock
  {
    assert AllSpace("\n");
    assert Api.Separator + ActionSentence == HorizontalRule + "\n" + ActionSentence + [];
    Rule6AtFront(HorizontalRule, "\n", []);
  }

  /**
   * The same two closing lines at the end of a longer text: when the sentence does not occur in
   * the text before them, rule 6 turns them into the button and keeps that text as it is.
   */
  lemma ClosingAfterText(x: string)
    requires forall k :: 0 <= k < |x| ==> !(ActionSentence <= x[k..])
    ensures Rule6(x + (Api.Separator + ActionSentence)) == x + CtaBlock
  {
    assert AllSpace("\n");
    assert Api.Separator + ActionSentence == HorizontalRule + "\n" + ActionSentence + [];
    Rule6AfterRule(x, "\n", []);
    assert CtaBlock + [] == CtaBlock;
  }

  // ---------------------------------------------------------------- from the route to the screen

  /** What the chat screen reads from a route reply: only `status`, `message` and the markdown. */
  function ToReply(r: Api.ApiResponse): (reply: Chat.Reply)
    ensures reply.Body?
    ensures r.body.ErrorBody? ==> reply.body == Chat.OtherBody(Some(r.body.message))
    ensures r.body.SuccessBody? ==> reply.body == Chat.SuccessBody(r.body.analysisMarkdown)
  {
    match r.body
    case ErrorBody(m) => Chat.Body(Chat.OtherBody(Some(m)))
    case SuccessBody(_, _, md) => Chat.Body(Chat.SuccessBody(md))
  }

  /**
   * Every reply of the route is shown: a success as the rewrite chain's HTML of the
   * serialised analysis, an error as plain text "Error: " + its message.
   */
  lemma RouteReplyShown(req: Api.Request, agentReady: bool, analyze: string -> Api.AgentResult)
    ensures var r := Api.Route(req, agentReady, analyze);
      var shown := Chat.Render(Chat.Normalise(ToReply(r)));
      (r.body.SuccessBody? ==> shown == Chat.RichHtml(Pipeline(Api.FormatMarkdown(r.body.analysisJson))))
      && (r.body.ErrorBody? ==> shown == Chat.PlainText("Error: " + r.body.message))
  {
  }

  /** The screen sends trimmed, non-empty text, so it never gets a 400 back. */
  lemma SentNeverBadRequest(symptoms: string, agentReady: bool, analyze: string -> Api.AgentResult)
    requires symptoms != []
    ensures Api.Route(Api.JsonObject(Some(Api.Text(symptoms))), agentReady, analyze).code != 400
  {
    Api.ErrorCodes(Api.JsonObject(Some(Api.Text(symptoms))), agentReady, analyze);
  }
}
