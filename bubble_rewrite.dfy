/**
 * The chat bubble's rewrite chain for agent markdown (Frontend/src/aiAgent/DoctorAgent.jsx,
 * `ChatBubble`): six ordered replacements that turn the symptom report into styled HTML, then
 * the removal of one leftover horizontal rule.
 *
 * The HTML/SVG/Tailwind markup of each template is an opaque constant here. The stand-ins keep
 * the source's line breaks where they matter to later rules (the alert block and the call to
 * action open with a line break; the header block puts one right after its title) and carry no
 * character that starts a later pattern (`*`, `#`, `Y`, `P`, `C`) except where the source's
 * own text does (the specialist label and the call-to-action sentence).
 */
module BubbleRewrite {

  import opened Wrappers
  import opened Text
  import opened Patterns

  // ---------------------------------------------------------------- markup stand-ins

  const AlertOpen := "\n<div alert><span>"
  const AlertClose := "</span></div>\n"
  const HeaderOpen := "<div header><span>"
  const HeaderMid := "</span> "
  const HeaderTail := "</div>"
  const FindingOpen := "<span mark>"
  const FindingClose := "</span>."
  const Anchor := "Possible Medical Problems\n"
  const ImageLine := "[Image of Human Respiratory " + "System and Viral Infection Spread]"
  /** Rule 4's template: two escaped and two literal line breaks, the image line, three more. */
  const AnchorWithImage := "Possible Medical Problems" + "\n\n\n\n" + ImageLine + "\n\n\n"
  const CardOpen := "\n<div card><p>4. " + "Recommended Specialist" + "</p><p>"
  const BadgeOpen := "<span badge>"
  const BadgeClose := "</span>"
  const CardClose := "</p></div>\n"
  const CtaOpen := "\n<div cta><span>"
  const CtaClose := "</span></div>\n"
  /** Rule 6's template, which spells the sentence out again. */
  const CtaBlock := CtaOpen + ActionSentence + CtaClose
  const HorizontalRule := "***"

  // ---------------------------------------------------------------- rule 1: the disclaimer

  function Alert(text: string): string {
    AlertOpen + text + AlertClose
  }

  /** Every `**` of `x` removed, scanning left to right (a global replace with the empty string). */
  function StripBold(x: string): string {
    ReplaceAll(Literal("**"), x, Const(""))
  }

  /**
   * Rule 1: the first single-line `**…**` span is found with `match`, and then that span's TEXT
   * is replaced (a plain-string `replace`, so its first occurrence) by the alert block holding
   * the span without its `**` markers. The block is passed as a replacement string, so `$`
   * patterns in it are expanded; the block's own markup holds none, so only the disclaimer text
   * is (`AlertReplacerIsString`).
   */
  function Rule1(s: string): string {
    match FirstAt(BoldSpan, s)
    case None => s
    case Some(i) => Rule1At(s, i, MatchLen(BoldSpan, s[i..]).value)
  }

  /** The string replace of rule 1 once the bold span `s[i..i + n]` has been found. */
  function Rule1At(s: string, i: nat, n: nat): string
    requires i <= |s| && MatchLen(BoldSpan, s[i..]) == Some(n)
  {
    var span := s[i..i + n];
    ReplaceFirst(Literal(span), s, AlertReplacer(s, span))
  }

  /** The replacer the alert string for the span `x` of `s` makes: the alert, its text expanded. */
  function AlertReplacer(s: string, x: string): string -> string {
    t => Alert(Replacement(s, x, StripBold(x), t))
  }

  /** It is the replacer of the alert block as one replacement string. */
  lemma AlertReplacerIsString(s: string, x: string, t: string)
    ensures AlertReplacer(s, x)(t) == StringReplacer(s, x, Alert(StripBold(x)))(t)
  {
    if |x| <= |t| <= |s| {
      ExpandAlert(StripBold(x), s[..|s| - |t|], x, t[|x|..]);
    }
  }

  // ---------------------------------------------------------------- rule 2: numbered headers

  function HeaderBlock(ordinal: string, title: string): string {
    HeaderOpen + ordinal + HeaderMid + title + "\n" + HeaderTail
  }

  /** `p1.replace(/##/g, '').trim()`. */
  function Ordinal(p1: string): string {
    Trim(ReplaceAll(Literal("##"), p1, Const("")))
  }

  /** The replacer of rule 2, applied where a header line starts. */
  function HeaderRewrite(t: string): string {
    match HeaderSpan(t)
    case None => []
    case Some((a, e)) => HeaderBlock(Ordinal(t[..a]), t[a..e])
  }

  /** Rule 2: every `## <digits>. <title>\n` line becomes a header block. */
  function Rule2(s: string): string {
    ReplaceAll(NumberedHeader, s, HeaderRewrite)
  }

  // ---------------------------------------------------------------- rule 3: the likely condition

  function Highlight(condition: string): string {
    FindingOpen + condition + FindingClose
  }

  /** The replacer of rule 3: only the capture survives, the lead-in phrase is not re-emitted. */
  function FindingRewrite(t: string): string {
    match FindingLen(t)
    case None => []
    case Some(n) => Highlight(t[|FindingLead|..n - 1])
  }

  function Rule3(s: string): string {
    ReplaceFirst(LikelyFinding, s, FindingRewrite)
  }

  // ---------------------------------------------------------------- rule 4: the image tag

  function Rule4(s: string): string {
    ReplaceAll(Literal(Anchor), s, Const(AnchorWithImage))
  }

  // ---------------------------------------------------------------- rule 5: the specialist card

  /** `p2` is always the label itself, so its own replace wraps it in the badge. */
  const Badge := BadgeOpen + SpecialistLabel + BadgeClose

  function Card(name: string): string {
    CardOpen + Badge + " " + name + CardClose
  }

  function CardRewrite(t: string): string {
    match CardSpan(t)
    case None => []
    case Some((c, q)) => Card(t[c..q])
  }

  function Rule5(s: string): string {
    ReplaceFirst(SpecialistCard, s, CardRewrite)
  }

  // ---------------------------------------------------------------- rule 6 and the final strip

  function Rule6(s: string): string {
    ReplaceFirst(CallToAction, s, Const(CtaBlock))
  }

  /** `.replace('***', '')`: a plain-string replace, so only the first `***` goes. */
  function StripRule(s: string): string {
    ReplaceFirst(Literal(HorizontalRule), s, Const(""))
  }

  /** The whole chain, in the order the bubble applies it. */
  function Pipeline(s: string): string {
    StripRule(Rule6(Rule5(Rule4(Rule3(Rule2(Rule1(s)))))))
  }

  // ---------------------------------------------------------------- the markup starts no pattern

  predicate SafeChar(c: char) {
    'a' <= c <= 'z' || '0' <= c <= '9' || c in " <>/=\"\n-."
  }

  /** Lower-case markup: no character that starts a pattern of the chain. */
  predicate Plain(s: string) {
    forall i :: 0 <= i < |s| ==> SafeChar(s[i])
  }

  predicate Inert(s: string) {
    '#' !in s && '*' !in s && 'Y' !in s && 'P' !in s && 'C' !in s
  }

  lemma PlainConcat(a: string, b: string)
    requires Plain(a) && Plain(b)
    ensures Plain(a + b)
  {
    forall i | 0 <= i < |a + b| ensures SafeChar((a + b)[i]) {
      if i >= |a| { assert (a + b)[i] == b[i - |a|]; }
    }
  }

  lemma PlainIsInert(s: string)
    requires Plain(s)
    ensures Inert(s)
  {
  }

  lemma AlertInert()
    ensures Inert(AlertOpen) && Inert(AlertClose)
  {
    assert Plain(AlertOpen);
    PlainIsInert(AlertOpen);
    assert Plain(AlertClose);
    PlainIsInert(AlertClose);
  }

  lemma HeaderInert()
    ensures Inert(HeaderOpen) && Inert(HeaderMid) && Inert("\n" + HeaderTail)
  {
    assert Plain(HeaderOpen);
    PlainIsInert(HeaderOpen);
    assert Plain(HeaderMid);
    PlainIsInert(HeaderMid);
    assert Plain("\n" + HeaderTail);
    PlainIsInert("\n" + HeaderTail);
  }

  lemma FindingInert()
    ensures Inert(FindingOpen) && Inert(FindingClose)
  {
    assert Plain(FindingOpen);
    PlainIsInert(FindingOpen);
    assert Plain(FindingClose);
    PlainIsInert(FindingClose);
  }

  // ---------------------------------------------------------------- rule 1

  /**
   * Rule 1 replaces exactly the leftmost single-line bold span: the plain-string replace of its
   * text cannot land earlier, because an earlier copy of the span would itself be a bold span.
   * The alert is expanded against the text before the span, the span and the text after it;
   * everything after the span, later bold spans included, is kept as it was.
   */
  lemma Rule1Splice(s: string, i: nat, n: nat)
    requires FirstAt(BoldSpan, s) == Some(i) && MatchLen(BoldSpan, s[i..]) == Some(n)
    ensures i + n <= |s|
    ensures Rule1(s) == s[..i] + Alert(Expand(StripBold(s[i..i + n]), s[..i], s[i..i + n], s[i + n..])) + s[i + n..]
  {
    FirstAtFacts(BoldSpan, s, i);
    var x := s[i..i + n];
    Rule1Replaces(s, i, n, x);
    SpanFirstAt(s, i, n, x);
    AlertSplice(s, i, n, x);
  }

  /** Rule 1 is the replace of the leftmost bold span's text by the alert. */
  lemma Rule1Replaces(s: string, i: nat, n: nat, x: string)
    requires FirstAt(BoldSpan, s) == Some(i) && MatchLen(BoldSpan, s[i..]) == Some(n)
    requires i + n <= |s| && x == s[i..i + n]
    ensures Rule1(s) == ReplaceFirst(Literal(x), s, AlertReplacer(s, x))
  {
    Rule1Found(s, i, n);
  }

  /** Replacing the first occurrence of `x`, found at `i`, splices in the alert, its text expanded. */
  lemma AlertSplice(s: string, i: nat, n: nat, x: string)
    requires i < |s| && |x| == n && MatchLen(Literal(x), s[i..]) == Some(n)
    requires forall j :: 0 <= j < i ==> MatchLen(Literal(x), s[j..]).None?
    ensures ReplaceFirst(Literal(x), s, AlertReplacer(s, x))
         == s[..i] + Alert(Expand(StripBold(x), s[..i], x, s[i + n..])) + s[i + n..]
  {
    AlertReplacerAt(s, i, n, x);
    ReplaceFirstWith(Literal(x), s, AlertReplacer(s, x), i, n, Alert(Expand(StripBold(x), s[..i], x, s[i + n..])));
  }

  lemma AlertReplacerAt(s: string, i: nat, n: nat, x: string)
    requires i + n <= |s| && |x| == n
    ensures AlertReplacer(s, x)(s[i..]) == Alert(Expand(StripBold(x), s[..i], x, s[i + n..]))
  {
    ReplacementAt(s, i, n, x, StripBold(x));
  }

  lemma Rule1Found(s: string, i: nat, n: nat)
    requires FirstAt(BoldSpan, s) == Some(i) && MatchLen(BoldSpan, s[i..]) == Some(n)
    ensures i <= |s| && Rule1(s) == Rule1At(s, i, n)
  {
  }

  /** The text of the leftmost bold span first occurs where that span is. */
  lemma SpanFirstAt(s: string, i: nat, n: nat, x: string)
    requires i + n <= |s| && MatchLen(BoldSpan, s[i..]) == Some(n) && x == s[i..i + n]
    requires forall j :: 0 <= j < i ==> MatchLen(BoldSpan, s[j..]).None?
    ensures MatchLen(Literal(x), s[i..]) == Some(n)
    ensures forall j :: 0 <= j < i ==> MatchLen(Literal(x), s[j..]).None?
  {
    assert x == s[i..][..n];
    NoEarlierCopy(s, i, s[i..], n, x);
    assert x <= s[i..];
  }

  /** Before the leftmost bold span, its text does not occur. */
  lemma NoEarlierCopy(s: string, i: nat, u: string, n: nat, x: string)
    requires i <= |s| && MatchLen(BoldSpan, u) == Some(n) && x == u[..n]
    requires forall j :: 0 <= j < i ==> MatchLen(BoldSpan, s[j..]).None?
    ensures forall j :: 0 <= j < i ==> MatchLen(Literal(x), s[j..]).None?
  {
    forall j | 0 <= j < i ensures MatchLen(Literal(x), s[j..]).None? {
      BoldSpanCopy(u, n, x, s[j..]);
    }
  }

  /** Wherever the text of a bold span occurs, a bold span starts. */
  lemma BoldSpanCopy(u: string, n: nat, x: string, t: string)
    requires MatchLen(BoldSpan, u) == Some(n) && x == u[..n]
    ensures x <= t ==> MatchLen(BoldSpan, t).Some?
  {
    assert CloseBold(u, 2) == Some(n);
    if x <= t {
      assert t[..n] == x;
      forall k | 0 <= k < n ensures t[k] == u[k] {
        assert t[..n][k] == x[k];
      }
      assert t[..2] == u[..2];
      assert t[n - 2..n] == u[n - 2..n];
      CloseBoldFinds(t, 2, n - 2);
    }
  }

  /** The alert's text is the span with its markers removed: a star-free body comes out whole. */
  lemma StripBoldSpan(body: string)
    requires '*' !in body
    ensures StripBold("**" + body + "**") == body
  {
    var f := Const("");
    assert "**" + body + "**" == "**" + (body + "**");
    ReplaceAllAtStart(Literal("**"), "**", body + "**", f);
    NoLiteralInPrefix("**", body, "**");
    ReplaceAllSkip(Literal("**"), body, "**", f);
    assert "**" == "**" + [];
    ReplaceAllAtStart(Literal("**"), "**", [], f);
  }

  /**
   * On a text whose first bold span is `**body**` on one line after a star-free prefix, rule 1
   * puts the alert block holding `body`, its `$` patterns expanded, in its place and keeps the
   * rest.
   */
  lemma Rule1Disclaimer(a: string, body: string, rest: string)
    requires '*' !in a && '*' !in body
    requires forall i :: 0 <= i < |body| ==> !IsLineTerminator(body[i])
    ensures Rule1(a + "**" + body + "**" + rest) == a + Alert(Expand(body, a, "**" + body + "**", rest)) + rest
  {
    var x := "**" + body + "**";
    ConcatAssocMid(a, "**", body, "**", rest);
    DisclaimerFirst(a, body, rest);
    StripBoldSpan(body);
    Rule1Span(a, x, rest, body);
  }

  /** The disclaimer's bold span is the first one, and it sits right after the prefix. */
  lemma DisclaimerFirst(a: string, body: string, rest: string)
    requires '*' !in a && '*' !in body
    requires forall i :: 0 <= i < |body| ==> !IsLineTerminator(body[i])
    ensures var x := "**" + body + "**"; var s := a + x + rest;
      FirstAt(BoldSpan, s) == Some(|a|) && MatchLen(BoldSpan, s[|a|..]) == Some(|x|)
  {
    var x := "**" + body + "**";
    var s := a + x + rest;
    SplitAround(a, x, rest);
    BoldAtFront(body, rest);
    ConcatAssoc(a, x, rest);
    NoLeadInPrefix(BoldSpan, a, x + rest);
    FirstAtIs(BoldSpan, s, |a|);
  }

  /** Rule 1 on a text whose first bold span `x` follows `a`. */
  lemma Rule1Span(a: string, x: string, rest: string, body: string)
    requires FirstAt(BoldSpan, a + x + rest) == Some(|a|)
    requires MatchLen(BoldSpan, (a + x + rest)[|a|..]) == Some(|x|) && StripBold(x) == body
    ensures Rule1(a + x + rest) == a + Alert(Expand(body, a, x, rest)) + rest
  {
    SplitAround(a, x, rest);
    Rule1Splice(a + x + rest, |a|, |x|);
  }

  /** The alert's own markup holds no `$`: only the text inside it is expanded. */
  lemma ExpandAlert(text: string, before: string, matched: string, after: string)
    ensures Expand(Alert(text), before, matched, after)
         == AlertOpen + Expand(text, before, matched, after) + AlertClose
  {
    AlertMarkupPlain();
    ExpandWrapped(AlertOpen, text, AlertClose, before, matched, after);
  }

  lemma AlertMarkupPlain()
    ensures '$' !in AlertOpen && '$' !in AlertClose && AlertClose != [] && AlertClose[0] == '<'
  {
  }

  lemma ExpandWrapped(open: string, text: string, close: string, before: string, matched: string, after: string)
    requires '$' !in open && '$' !in close && close != [] && close[0] !in "$&`'"
    ensures Expand(open + text + close, before, matched, after)
         == open + Expand(text, before, matched, after) + close
  {
    ExpandAppend(open + text, close, before, matched, after);
    ExpandPlainPrefix(open, text, before, matched, after);
    ExpandPlain(close, before, matched, after);
  }

  /** A disclaimer without `$` becomes the alert holding exactly its text. */
  lemma Rule1PlainDisclaimer(a: string, body: string, rest: string)
    requires '*' !in a && '*' !in body && '$' !in body
    requires forall i :: 0 <= i < |body| ==> !IsLineTerminator(body[i])
    ensures Rule1(a + "**" + body + "**" + rest) == a + Alert(body) + rest
  {
    Rule1Disclaimer(a, body, rest);
    ExpandPlain(body, a, "**" + body + "**", rest);
  }

  /**
   * A disclaimer reading `$&` shows the whole bold span, markers included: the replacement
   * string is not taken literally.
   */
  lemma Rule1WholeSpan(a: string, rest: string)
    requires '*' !in a
    ensures Rule1(a + "**" + "$&" + "**" + rest) == a + Alert("**" + "$&" + "**") + rest
  {
    Rule1Disclaimer(a, "$&", rest);
    ExpandPatterns(a, "**" + "$&" + "**", rest);
  }

  /** A disclaimer reading `$'` shows everything after the bold span. */
  lemma Rule1AfterSpan(a: string, rest: string)
    requires '*' !in a
    ensures Rule1(a + "**" + "$'" + "**" + rest) == a + Alert(rest) + rest
  {
    Rule1Disclaimer(a, "$'", rest);
    ExpandPatterns(a, "**" + "$'" + "**", rest);
  }

  /** A one-line, star-free body between two markers is a bold span, markers included. */
  lemma BoldAtFront(body: string, rest: string)
    requires '*' !in body
    requires forall i :: 0 <= i < |body| ==> !IsLineTerminator(body[i])
    ensures MatchLen(BoldSpan, "**" + body + "**" + rest) == Some(4 + |body|)
  {
    var t := "**" + body + "**" + rest;
    SliceAround("**", body, "**", rest);
    assert t[2 + |body|..4 + |body|] == "**";
    assert forall i :: 2 <= i < 2 + |body| ==> t[i] == body[i - 2];
    CloseBoldOf(t, 2, 2 + |body|);
  }

  // ---------------------------------------------------------------- rule 2

  /** A header line `##<sp1><digits>.<sp2><title>\n` as the service writes them. */
  function HeaderLine(sp1: char, digits: string, sp2: char, title: string): string {
    "##" + [sp1] + digits + "." + [sp2] + title + "\n"
  }

  predicate Digits(d: string) {
    d != [] && forall i :: 0 <= i < |d| ==> IsDigit(d[i])
  }

  predicate OneLine(s: string) {
    forall i :: 0 <= i < |s| ==> !IsLineTerminator(s[i])
  }

  /** The header number comes out as `<digits>.`: the `##` removed and the spaces trimmed. */
  lemma OrdinalOf(sp1: char, digits: string, sp2: char)
    requires IsSpace(sp1) && IsSpace(sp2) && Digits(digits)
    ensures Ordinal("##" + [sp1] + digits + "." + [sp2]) == digits + "."
  {
    HashesRemoved(sp1, digits, sp2);
    assert [sp1] + digits + "." + [sp2] == [sp1] + (digits + ".") + [sp2];
    TrimPadded([sp1], digits + ".", [sp2]);
  }

  lemma HashesRemoved(sp1: char, digits: string, sp2: char)
    requires IsSpace(sp1) && IsSpace(sp2) && Digits(digits)
    ensures ReplaceAll(Literal("##"), "##" + [sp1] + digits + "." + [sp2], Const(""))
         == [sp1] + digits + "." + [sp2]
  {
    var f := Const("");
    var rest := [sp1] + digits + "." + [sp2];
    assert "##" + [sp1] + digits + "." + [sp2] == "##" + rest;
    assert MatchLen(Literal("##"), "##" + rest) == Some(2);
    ReplaceAllAtStart(Literal("##"), "##", rest, f);
    NoHashIn(sp1, digits, sp2);
    NoLiteralWithoutChar("##", rest, '#');
    ReplaceAllNoMatch(Literal("##"), rest, f);
  }

  lemma NoHashIn(sp1: char, digits: string, sp2: char)
    requires IsSpace(sp1) && IsSpace(sp2) && Digits(digits)
    ensures '#' !in [sp1] + digits + "." + [sp2]
  {
    var rest := [sp1] + digits + "." + [sp2];
    forall i | 0 <= i < |rest| ensures rest[i] != '#' {
      if 1 <= i < 1 + |digits| { assert rest[i] == digits[i - 1]; }
    }
  }

  /** Where a header line starts, its title span is found exactly. */
  lemma HeaderSpanOf(sp1: char, digits: string, sp2: char, title: string, rest: string)
    requires IsSpace(sp1) && IsSpace(sp2) && Digits(digits) && OneLine(title)
    ensures var t := HeaderLine(sp1, digits, sp2, title) + rest;
      HeaderSpan(t) == Some((5 + |digits|, 5 + |digits| + |title|))
  {
    var t := HeaderLine(sp1, digits, sp2, title) + rest;
    var k := |digits|;
    assert t[..2] == "##";
    assert t[2] == sp1;
    assert t[3..3 + k] == digits;
    assert t[3 + k] == '.';
    DigitRunOf(t, 3, digits);
    assert t[4 + k] == sp2;
    assert t[5 + k..5 + k + |title|] == title;
    assert t[5 + k + |title|] == '\n';
    LineBreakOf(t, 5 + k, title);
  }

  /** The replacer of rule 2 on a header line. */
  lemma HeaderRewriteOf(sp1: char, digits: string, sp2: char, title: string, rest: string)
    requires IsSpace(sp1) && IsSpace(sp2) && Digits(digits) && OneLine(title)
    ensures HeaderRewrite(HeaderLine(sp1, digits, sp2, title) + rest) == HeaderBlock(digits + ".", title)
  {
    var t := HeaderLine(sp1, digits, sp2, title) + rest;
    var p1 := "##" + [sp1] + digits + "." + [sp2];
    var after := "\n" + rest;
    assert t == p1 + title + after;
    HeaderSpanOf(sp1, digits, sp2, title, rest);
    assert t[..|p1|] == p1;
    assert t[|p1|..|p1| + |title|] == title;
    OrdinalOf(sp1, digits, sp2);
  }

  /**
   * Rule 2 turns a header line into a header block holding `<digits>.` and the title, and goes
   * on after the line.
   */
  lemma Rule2Header(sp1: char, digits: string, sp2: char, title: string, rest: string)
    requires IsSpace(sp1) && IsSpace(sp2) && Digits(digits) && OneLine(title)
    ensures Rule2(HeaderLine(sp1, digits, sp2, title) + rest)
         == HeaderBlock(digits + ".", title) + Rule2(rest)
  {
    var line := HeaderLine(sp1, digits, sp2, title);
    HeaderSpanOf(sp1, digits, sp2, title, rest);
    assert MatchLen(NumberedHeader, line + rest) == Some(|line|);
    ReplaceAllAtStart(NumberedHeader, line, rest, HeaderRewrite);
    HeaderRewriteOf(sp1, digits, sp2, title, rest);
  }

  /** Rule 2 copies a stretch without `#`. */
  lemma Rule2Skip(a: string, rest: string)
    requires '#' !in a
    ensures Rule2(a + rest) == a + Rule2(rest)
  {
    NoLeadInPrefix(NumberedHeader, a, rest);
    ReplaceAllSkip(NumberedHeader, a, rest, HeaderRewrite);
  }

  // ---------------------------------------------------------------- rule 4 after rule 2

  /**
   * The header block keeps the line break after its title, so a "Possible Medical Problems"
   * header still carries rule 4's anchor, and the image text lands inside the header block,
   * before its closing tag.
   */
  lemma ImageInsideHeader(ordinal: string)
    requires 'P' !in ordinal
    ensures Rule4(HeaderBlock(ordinal, "Possible Medical Problems"))
         == HeaderOpen + ordinal + HeaderMid + AnchorWithImage + HeaderTail
  {
    var a := HeaderOpen + ordinal + HeaderMid;
    HeaderInert();
    assert 'P' !in a;
    assert HeaderBlock(ordinal, "Possible Medical Problems") == a + (Anchor + HeaderTail);
    assert Anchor[0] == 'P';
    assert 'P' !in HeaderTail by { assert "\n" + HeaderTail == ['\n'] + HeaderTail; }
    ReplaceAllLone(Anchor, a, HeaderTail, AnchorWithImage);
    ConcatAssoc(a, AnchorWithImage, HeaderTail);
  }

  // ---------------------------------------------------------------- rule 3

  /** The finding runs greedily to the last `.` of its line. */
  lemma FindingLenOf(cond: string, tail: string, rest: string)
    requires OneLine(cond) && OneLine(tail) && '.' !in tail
    requires rest == [] || IsLineTerminator(rest[0])
    ensures FindingLen(FindingLead + cond + "." + tail + rest) == Some(|FindingLead| + |cond| + 1)
  {
    var u := FindingLead + cond + "." + tail + rest;
    LineAfterLead(FindingLead, cond, tail, rest);
    LeadPrefix(FindingLead, cond, ".", tail, rest);
  }

  lemma LeadPrefix(a: string, b: string, c: string, d: string, e: string)
    ensures a <= a + b + c + d + e
  {
    assert a + b + c + d + e == a + (b + c + d + e);
  }

  /** The line after `lead` ends after `tail`, and its last `.` is the one after `cond`. */
  lemma LineAfterLead(lead: string, cond: string, tail: string, rest: string)
    requires OneLine(cond) && OneLine(tail) && '.' !in tail
    requires rest == [] || IsLineTerminator(rest[0])
    ensures var u := lead + cond + "." + tail + rest;
      var L := |lead|;
      L + |cond| + 1 + |tail| <= |u| &&
      LineEnd(u, L) == L + |cond| + 1 + |tail| &&
      LastDot(u, L, L + |cond| + 1 + |tail|) == Some(L + |cond|)
  {
    LineEndAfterLead(lead, cond, tail, rest);
    LastDotAfterLead(lead, cond, tail, rest);
  }

  /** The finding's line ends after the tail. */
  lemma LineEndAfterLead(lead: string, cond: string, tail: string, rest: string)
    requires OneLine(cond) && OneLine(tail)
    requires rest == [] || IsLineTerminator(rest[0])
    ensures var u := lead + cond + "." + tail + rest;
      var L := |lead|;
      L + |cond| + 1 + |tail| <= |u| && LineEnd(u, L) == L + |cond| + 1 + |tail|
  {
    var u := lead + cond + "." + tail + rest;
    var L := |lead|;
    var line := cond + "." + tail;
    assert u == lead + line + rest;
    assert u[L..L + |line|] == line;
    assert OneLine(line) by {
      forall i | 0 <= i < |line| ensures !IsLineTerminator(line[i]) {
        if i < |cond| { assert line[i] == cond[i]; }
        else if i > |cond| { assert line[i] == tail[i - |cond| - 1]; }
      }
    }
    if rest != [] { assert u[L + |line|] == rest[0]; }
    LineEndOf(u, L, line);
  }

  /** With no `.` in the tail, the last `.` of the line is the one after the condition. */
  lemma LastDotAfterLead(lead: string, cond: string, tail: string, rest: string)
    requires '.' !in tail
    ensures var u := lead + cond + "." + tail + rest;
      var L := |lead|;
      L + |cond| + 1 + |tail| <= |u| && LastDot(u, L, L + |cond| + 1 + |tail|) == Some(L + |cond|)
  {
    var u := lead + cond + "." + tail + rest;
    var L := |lead|;
    var e := L + |cond| + 1 + |tail|;
    assert u[L + |cond|] == '.';
    forall i | L + |cond| < i < e ensures u[i] != '.' {
      assert u[i] == tail[i - L - |cond| - 1];
    }
    LastDotOf(u, L, L + |cond|, e);
  }

  lemma Rule3AtFront(cond: string, tail: string, rest: string)
    requires OneLine(cond) && OneLine(tail) && '.' !in tail
    requires rest == [] || IsLineTerminator(rest[0])
    ensures Rule3(FindingLead + cond + "." + tail + rest) == Highlight(cond) + tail + rest
  {
    var u := FindingLead + cond + "." + tail + rest;
    FindingLenOf(cond, tail, rest);
    ReplaceFirstAtStart(LikelyFinding, u, FindingRewrite);
    ConcatAssoc(FindingLead + cond + ".", tail, rest);
    SliceAround(FindingLead, cond, ".", tail + rest);
    ConcatAssoc(Highlight(cond), tail, rest);
  }

  /**
   * Rule 3 replaces the whole sentence "You are likely experiencing symptoms consistent with a
   * <condition>." by the highlighted condition and its full stop: the lead-in phrase is dropped,
   * and the highlight runs to the last `.` on the line, not the first.
   */
  lemma Rule3Finding(a: string, cond: string, tail: string, rest: string)
    requires 'Y' !in a && OneLine(cond) && OneLine(tail) && '.' !in tail
    requires rest == [] || IsLineTerminator(rest[0])
    ensures Rule3(a + FindingLead + cond + "." + tail + rest) == a + Highlight(cond) + tail + rest
  {
    ConcatAssoc6(a, FindingLead, cond, ".", tail, rest);
    Rule3Skip(a, FindingLead + cond + "." + tail + rest);
    Rule3AtFront(cond, tail, rest);
    ConcatAssoc4(a, Highlight(cond), tail, rest);
  }

  /** Rule 3 copies a stretch without `Y`. */
  lemma Rule3Skip(a: string, rest: string)
    requires 'Y' !in a
    ensures Rule3(a + rest) == a + Rule3(rest)
  {
    NoLeadInPrefix(LikelyFinding, a, rest);
    ReplaceFirstSkip(LikelyFinding, a, rest, FindingRewrite);
  }

  // ---------------------------------------------------------------- rule 5

  /** The specialist section in the shape the service writes it. */
  function SpecialistSection(name: string): string {
    "## 4. " + SpecialistTitle + "\n" + SpecialistLabel + " " + name + "\n\n"
  }

  lemma CardTitleOf(r: string)
    ensures var u := "## 4. " + SpecialistTitle + r;
      "##" <= u && 6 + |SpecialistTitle| <= |u| && IsSpace(u[2]) && u[3] == '4' && u[4] == '.'
      && IsSpace(u[5]) && u[6..6 + |SpecialistTitle|] == SpecialistTitle
  {
    var u := "## 4. " + SpecialistTitle + r;
    assert u[..2] == "##";
    assert u[2] == ' ' && u[3] == '4' && u[4] == '.' && u[5] == ' ';
    assert u[6..6 + |SpecialistTitle|] == SpecialistTitle;
  }

  /** After the title: one line break, then the label. */
  lemma CardBreakOf(name: string, rest: string)
    ensures var u := SpecialistSection(name) + rest;
      var a := 6 + |SpecialistTitle|;
      SpaceRun(u, a) == 1 && '\n' in u[a..a + 1] && SpecialistLabel <= u[a + 1..]
  {
    var u := SpecialistSection(name) + rest;
    var a := 6 + |SpecialistTitle|;
    var tail := SpecialistLabel + " " + name + "\n\n" + rest;
    assert u == ("## 4. " + SpecialistTitle) + "\n" + tail;
    assert u[a..a + 1] == "\n";
    assert u[a + 1..] == tail;
    assert u[a + 1] == '*';
    SpaceRunOf(u, a, "\n");
  }

  /** After the label: one space, then the name. */
  lemma CardGapOf(name: string, rest: string)
    requires name != [] && !IsSpace(name[0])
    ensures var u := SpecialistSection(name) + rest;
      SpaceRun(u, 6 + |SpecialistTitle| + 1 + |SpecialistLabel|) == 1
  {
    var u := SpecialistSection(name) + rest;
    var b := 6 + |SpecialistTitle| + 1 + |SpecialistLabel|;
    var head := "## 4. " + SpecialistTitle + "\n" + SpecialistLabel;
    assert |head| == b;
    assert u == head + " " + name + ("\n\n" + rest);
    assert u[b..b + 1] == " ";
    assert u[b + 1] == name[0];
    SpaceRunOf(u, b, " ");
  }

  lemma NameRunOf(name: string, rest: string)
    requires '\n' !in name
    ensures var u := SpecialistSection(name) + rest;
      var e := 6 + |SpecialistTitle| + 2 + |SpecialistLabel|;
      FindFrom(u, "\n\n", e) == Some(e + |name|)
  {
    var u := SpecialistSection(name) + rest;
    var e := 6 + |SpecialistTitle| + 2 + |SpecialistLabel|;
    var head := "## 4. " + SpecialistTitle + "\n" + SpecialistLabel + " ";
    assert |head| == e;
    assert u == head + name + ("\n\n" + rest);
    assert u[e + |name|..e + |name| + 2] == "\n\n";
    forall i | e <= i < e + |name| ensures !("\n\n" <= u[i..]) {
      assert u[i] == name[i - e];
    }
    FindFromOf(u, "\n\n", e, e + |name|);
  }

  lemma CardSpanOf(name: string, rest: string)
    requires name != [] && !IsSpace(name[0]) && '\n' !in name
    ensures var n := 6 + |SpecialistTitle| + 2 + |SpecialistLabel|;
      CardSpan(SpecialistSection(name) + rest) == Some((n, n + |name|))
  {
    var r := "\n" + SpecialistLabel + " " + name + "\n\n" + rest;
    assert SpecialistSection(name) + rest == "## 4. " + SpecialistTitle + r;
    CardTitleOf(r);
    CardBreakOf(name, rest);
    CardGapOf(name, rest);
    NameRunOf(name, rest);
  }

  /**
   * Rule 5 on the raw specialist section: the heading line, the label and the name become the
   * specialist card, and the blank line after the name is consumed with them.
   */
  lemma Rule5Card(a: string, name: string, rest: string)
    requires '#' !in a
    requires name != [] && !IsSpace(name[0]) && '\n' !in name
    ensures Rule5(a + SpecialistSection(name) + rest) == a + Card(name) + rest
  {
    ConcatAssoc(a, SpecialistSection(name), rest);
    Rule5Skip(a, SpecialistSection(name) + rest);
    Rule5AtFront(name, rest);
    ConcatAssoc(a, Card(name), rest);
  }

  lemma Rule5AtFront(name: string, rest: string)
    requires name != [] && !IsSpace(name[0]) && '\n' !in name
    ensures Rule5(SpecialistSection(name) + rest) == Card(name) + rest
  {
    var head := "## 4. " + SpecialistTitle + "\n" + SpecialistLabel + " ";
    var u := SpecialistSection(name) + rest;
    var n := 6 + |SpecialistTitle| + 2 + |SpecialistLabel|;
    assert |head| == n;
    SliceAround(head, name, "\n\n", rest);
    CardSpanOf(name, rest);
    assert CardRewrite(u) == Card(name);
    ReplaceFirstFront(SpecialistCard, u, CardRewrite, n + |name| + 2, Card(name), rest);
  }

  /** Rule 5 copies a stretch without `#`. */
  lemma Rule5Skip(a: string, rest: string)
    requires '#' !in a
    ensures Rule5(a + rest) == a + Rule5(rest)
  {
    NoLeadInPrefix(SpecialistCard, a, rest);
    ReplaceFirstSkip(SpecialistCard, a, rest, CardRewrite);
  }

  // ---------------------------------------------------------------- rule 6 and the strip

  /**
   * Rule 6 at the leftmost call to action: the sentence, the whitespace before it and a `***`
   * right before that (when present) all become the call-to-action block.
   */
  lemma Rule6AtFront(stars: string, ws: string, rest: string)
    requires stars == HorizontalRule || stars == []
    requires AllSpace(ws)
    ensures Rule6(stars + ws + ActionSentence + rest) == CtaBlock + rest
  {
    var t := stars + ws + ActionSentence + rest;
    var n := |stars| + |ws| + |ActionSentence|;
    ActionAt(stars, ws, rest);
    if stars == [] {
      assert t != [] && t[0] != '*' by {
        if ws != [] { assert t[0] == ws[0]; } else { assert t[0] == ActionSentence[0] == 'C'; }
      }
    } else {
      assert "***" <= t;
    }
    assert MatchLen(CallToAction, t) == Some(n);
    ReplaceFirstConstFront(CallToAction, t, n, CtaBlock, rest);
  }

  /**
   * Rule 6 after a text in which no call to action starts: the leftmost match is the one
   * after that text, so the text is kept and the match becomes the call-to-action block.
   */
  lemma Rule6After(p: string, stars: string, ws: string, rest: string)
    requires stars == HorizontalRule || stars == []
    requires AllSpace(ws)
    requires forall i :: 0 <= i < |p| ==> MatchLen(CallToAction, (p + (stars + ws + ActionSentence + rest))[i..]).None?
    ensures Rule6(p + (stars + ws + ActionSentence + rest)) == p + (CtaBlock + rest)
  {
    ReplaceFirstSkip(CallToAction, p, stars + ws + ActionSentence + rest, Const(CtaBlock));
    Rule6AtFront(stars, ws, rest);
  }

  /**
   * The closing lines as the service writes them, `***`, a line break and the sentence, after
   * any text in which the sentence does not occur: they become the block, and the text before
   * them is kept. Whitespace at the end of that text is no match: after it comes `***`.
   */
  lemma Rule6AfterRule(p: string, ws: string, rest: string)
    requires AllSpace(ws)
    requires forall k :: 0 <= k < |p| ==> !(ActionSentence <= p[k..])
    ensures Rule6(p + (HorizontalRule + ws + ActionSentence + rest)) == p + (CtaBlock + rest)
  {
    NoActionBeforeRule(p, HorizontalRule + ws + ActionSentence + rest);
    Rule6After(p, HorizontalRule, ws, rest);
  }

  /** No call to action starts in a text without the sentence that is followed by `***`. */
  lemma NoActionBeforeRule(p: string, q: string)
    requires HorizontalRule <= q
    requires forall k :: 0 <= k < |p| ==> !(ActionSentence <= p[k..])
    ensures forall i :: 0 <= i < |p| ==> MatchLen(CallToAction, (p + q)[i..]).None?
  {
    forall i | 0 <= i < |p| ensures MatchLen(CallToAction, (p + q)[i..]).None? {
      NoSentenceFrom(p, q, i, 0);
      if 3 <= |(p + q)[i..]| {
        NoSentenceFrom(p, q, i, 3);
      }
    }
  }

  /**
   * From offset `j` (0, or 3 past a leading `***`) of the text at `i`, whitespace and then the
   * sentence are not found: the whitespace stops at a `*` of the `***` at the latest, and the
   * sentence does not start there or before it.
   */
  lemma NoSentenceFrom(p: string, q: string, i: nat, j: nat)
    requires HorizontalRule <= q
    requires forall k :: 0 <= k < |p| ==> !(ActionSentence <= p[k..])
    requires i < |p| && j <= 3 && j <= |p + q| - i
    ensures ActionAfter((p + q)[i..], j).None?
  {
    var s := p + q;
    var t := s[i..];
    var m := if i + j <= |p| then |p| else i + j;
    assert s[m] == q[m - |p|] == '*';
    assert t[m - i] == s[m];
    RunBefore(t, j, m - i);
    var k := i + j + SpaceRun(t, j);
    assert t[j + SpaceRun(t, j)..] == s[k..];
    SentenceNotAt(p, q, k);
  }

  /** A run of whitespace from `j` ends at the latest at a character that is not whitespace. */
  lemma {:induction false} RunBefore(t: string, j: nat, m: nat)
    requires j <= m < |t| && !IsSpace(t[m])
    ensures j + SpaceRun(t, j) <= m
    decreases m - j
  {
    if IsSpace(t[j]) {
      RunBefore(t, j + 1, m);
    }
  }

  /** The sentence starts neither inside `p` nor on the `***` after it. */
  lemma SentenceNotAt(p: string, q: string, k: nat)
    requires HorizontalRule <= q
    requires forall k :: 0 <= k < |p| ==> !(ActionSentence <= p[k..])
    requires k < |p| + 3
    ensures !(ActionSentence <= (p + q)[k..])
  {
    var s := p + q;
    var n := |ActionSentence|;
    assert ActionSentence[0] == 'C' && '*' !in ActionSentence;
    if k < |p| && k + n <= |p| {
      assert !(ActionSentence <= p[k..]);
      assert s[k..][..n] == p[k..][..n];
    } else if k < |p| {
      assert s[|p|] == q[0] == '*';
      assert |s[k..]| > |p| - k ==> s[k..][|p| - k] == s[|p|];
    } else {
      assert s[k] == q[k - |p|] == '*';
    }
  }

  /** After the stars, the whitespace and then the sentence. */
  lemma ActionAt(stars: string, ws: string, rest: string)
    requires AllSpace(ws)
    ensures var t := stars + ws + ActionSentence + rest;
      var n := |stars| + |ws| + |ActionSentence|;
      ActionAfter(t, |stars|) == Some(n) && t[n..] == rest
  {
    ActionStart();
    SentenceAt(stars, ws, ActionSentence, rest);
  }

  /** After the stars, the whitespace and then a text `x` that starts with no whitespace. */
  lemma SentenceAt(stars: string, ws: string, x: string, rest: string)
    requires AllSpace(ws) && x != [] && !IsSpace(x[0])
    ensures var t := stars + ws + x + rest;
      var n := |stars| + |ws| + |x|;
      SentenceAfter(t, |stars|, x) == Some(n) && t[n..] == rest
  {
    RunThen(stars, ws, x, rest);
  }

  lemma ActionStart()
    ensures ActionSentence != [] && !IsSpace(ActionSentence[0])
  {
    assert ActionSentence[0] == 'C';
  }

  /** A run of whitespace after `stars`, ended by the first character of `x`. */
  lemma RunThen(stars: string, ws: string, x: string, rest: string)
    requires AllSpace(ws) && x != [] && !IsSpace(x[0])
    ensures var t := stars + ws + x + rest;
      var j := |stars| + |ws|;
      SpaceRun(t, |stars|) == |ws| && t[j..] == x + rest && x <= t[j..] && t[j + |x|..] == rest
  {
    var t := stars + ws + x + rest;
    var j := |stars| + |ws|;
    SliceAround(stars, ws, x, rest);
    ConcatAssoc(stars + ws, x, rest);
    assert t[j..] == x + rest;
    assert t[j] == x[0];
    SpaceRunOf(t, |stars|, ws);
  }

  /** The final strip removes the first `***` only; any later one stays in the text. */
  lemma StripFirstOnly(a: string, b: string)
    requires '*' !in a
    ensures StripRule(a + HorizontalRule + b) == a + b
  {
    assert HorizontalRule[0] == '*';
    ReplaceFirstLone(HorizontalRule, a, b, "");
    ConcatAssoc(a, HorizontalRule, b);
    assert "" + b == b;
  }

  // ---------------------------------------------------------------- the whole chain

  /** With none of the patterns present, every rule is a no-op and the text comes out as it was. */
  lemma PipelineUnchanged(s: string)
    requires NoMatch(BoldSpan, s) && NoMatch(NumberedHeader, s) && NoMatch(LikelyFinding, s)
    requires NoMatch(Literal(Anchor), s) && NoMatch(SpecialistCard, s)
    requires NoMatch(CallToAction, s) && NoMatch(Literal(HorizontalRule), s)
    ensures Pipeline(s) == s
  {
    assert Rule1(s) == s;
    ReplaceAllNoMatch(NumberedHeader, s, HeaderRewrite);
    ReplaceFirstNoMatch(LikelyFinding, s, FindingRewrite);
    ReplaceAllNoMatch(Literal(Anchor), s, Const(AnchorWithImage));
    ReplaceFirstNoMatch(SpecialistCard, s, CardRewrite);
    ReplaceFirstNoMatch(CallToAction, s, Const(CtaBlock));
    ReplaceFirstNoMatch(Literal(HorizontalRule), s, Const(""));
  }

  /** A text without `*`, `#`, `Y`, `M` and `C` comes out of the chain unchanged. */
  lemma PipelineUnchangedWithout(s: string)
    requires '*' !in s && '#' !in s && 'Y' !in s && 'M' !in s && 'C' !in s
    ensures Pipeline(s) == s
  {
    NoLeadNoMatch(BoldSpan, s);
    NoLeadNoMatch(NumberedHeader, s);
    NoLeadNoMatch(LikelyFinding, s);
    assert Anchor[9] == 'M';
    NoLiteralWithoutChar(Anchor, s, 'M');
    NoLeadNoMatch(SpecialistCard, s);
    NoActionWithoutC(s);
    NoLiteralWithoutChar(HorizontalRule, s, '*');
    PipelineUnchanged(s);
  }
}
