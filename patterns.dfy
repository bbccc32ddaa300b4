/**
 * The regular expressions of the chat bubble's rewrite chain, each written out as a matcher
 * with JavaScript's backtracking semantics resolved for that one expression, plus
 * `String.prototype.replace` in its two forms: without the `g` flag (the leftmost match is
 * replaced) and with it (matches are replaced left to right without overlapping).
 *
 * A matcher looks only forward: `MatchLen(p, t)` says whether `p` matches at the start of `t`
 * and how many characters the match takes. A match at index `i` of `s` is `MatchLen(p, s[i..])`.
 */
module Patterns {

  import opened Wrappers
  import opened Text

  datatype Pattern =
    | Literal(lit: string)   // a plain string, or a regex without metacharacters
    | BoldSpan               // /(\*\*.*?\*\*)/
    | NumberedHeader         // /(##\s\d+\.\s)(.*?)\n/
    | LikelyFinding          // /You are likely experiencing symptoms consistent with a (.*)\./
    | SpecialistCard         // /(##\s4\.\sRecommended Specialist\s*\n\s*)(\*\*Specialist:\*\*)\s*(.*?)\n\n/s
    | CallToAction           // /(\*\*\*)?\s*Connect the doctor\/hospital near your location\./
    | TagSpan                // /<[^>]*>/

  const FindingLead := "You are likely experiencing " + "symptoms consistent with a "
  const SpecialistTitle := "Recommended Specialist"
  const SpecialistLabel := "**Specialist:**"
  const ActionSentence := "Connect the doctor/hospital " + "near your location."

  /** Length of the match of `p` at the start of `t`, if `p` matches there. */
  function MatchLen(p: Pattern, t: string): (r: Option<nat>)
    ensures r.Some? ==> 0 < r.value <= |t|
  {
    match p
    case Literal(lit) => LiteralLen(lit, t)
    case BoldSpan => BoldLen(t)
    case NumberedHeader => HeaderLen(t)
    case LikelyFinding => FindingLen(t)
    case SpecialistCard => CardLen(t)
    case CallToAction => ActionLen(t)
    case TagSpan => TagLen(t)
  }

  function LiteralLen(lit: string, t: string): (r: Option<nat>)
    ensures r.Some? ==> 0 < r.value <= |t|
  {
    if lit != [] && lit <= t then Some(|lit|) else None
  }

  function BoldLen(t: string): (r: Option<nat>)
    ensures r.Some? ==> 0 < r.value <= |t|
  {
    if "**" <= t then CloseBold(t, 2) else None
  }

  function ActionLen(t: string): (r: Option<nat>)
    ensures r.Some? ==> 0 < r.value <= |t|
  {
    if "***" <= t && ActionAfter(t, 3).Some? then ActionAfter(t, 3) else ActionAfter(t, 0)
  }

  function TagLen(t: string): (r: Option<nat>)
    ensures r.Some? ==> 0 < r.value <= |t|
  {
    if t != [] && t[0] == '<' then CloseTag(t, 1) else None
  }

  // ---------------------------------------------------------------- scanning helpers

  /** Length of the run of whitespace starting at `j` (greedy `\s*`). */
  function SpaceRun(t: string, j: nat): (n: nat)
    requires j <= |t|
    ensures j + n <= |t|
    ensures AllSpace(t[j..j + n])
    ensures j + n == |t| || !IsSpace(t[j + n])
    decreases |t| - j
  {
    if j < |t| && IsSpace(t[j]) then
      var n := 1 + SpaceRun(t, j + 1);
      assert t[j..j + n] == [t[j]] + t[j + 1..j + n];
      n
    else 0
  }

  /** Length of the run of decimal digits starting at `j` (greedy `\d+` before a `.`). */
  function DigitRun(t: string, j: nat): (n: nat)
    requires j <= |t|
    ensures j + n <= |t|
    ensures forall i :: j <= i < j + n ==> IsDigit(t[i])
    ensures j + n == |t| || !IsDigit(t[j + n])
    decreases |t| - j
  {
    if j < |t| && IsDigit(t[j]) then 1 + DigitRun(t, j + 1) else 0
  }

  /** Lazy `.*?\*\*` from `j`: the end of the first `**` reached without crossing a line end. */
  function CloseBold(t: string, j: nat): (r: Option<nat>)
    requires j <= |t|
    ensures r.Some? ==> j + 2 <= r.value <= |t| && t[r.value - 2..r.value] == "**"
    ensures r.Some? ==> forall i :: j <= i < r.value - 2 ==> !IsLineTerminator(t[i])
    decreases |t| - j
  {
    if "**" <= t[j..] then Some(j + 2)
    else if j < |t| && !IsLineTerminator(t[j]) then CloseBold(t, j + 1)
    else None
  }

  /** Lazy `.*?\n` from `j`: one past the first line terminator, which must be `\n`. */
  function LineBreak(t: string, j: nat): (r: Option<nat>)
    requires j <= |t|
    ensures r.Some? ==> j < r.value <= |t| && t[r.value - 1] == '\n'
    ensures r.Some? ==> forall i :: j <= i < r.value - 1 ==> !IsLineTerminator(t[i])
    decreases |t| - j
  {
    if j == |t| then None
    else if t[j] == '\n' then Some(j + 1)
    else if IsLineTerminator(t[j]) then None
    else LineBreak(t, j + 1)
  }

  /** Index of the first line terminator at or after `j`, or `|t|` (how far `.*` can reach). */
  function LineEnd(t: string, j: nat): (e: nat)
    requires j <= |t|
    ensures j <= e <= |t|
    ensures forall i :: j <= i < e ==> !IsLineTerminator(t[i])
    ensures e == |t| || IsLineTerminator(t[e])
    decreases |t| - j
  {
    if j == |t| || IsLineTerminator(t[j]) then j else LineEnd(t, j + 1)
  }

  /** Index of the last `.` in `t[lo..hi]` (where greedy `(.*)\.` backtracks to). */
  function LastDot(t: string, lo: nat, hi: nat): (r: Option<nat>)
    requires lo <= hi <= |t|
    ensures r.Some? ==> lo <= r.value < hi && t[r.value] == '.'
    ensures r.Some? ==> forall i :: r.value < i < hi ==> t[i] != '.'
    ensures r.None? ==> forall i :: lo <= i < hi ==> t[i] != '.'
    decreases hi
  {
    if hi == lo then None
    else if t[hi - 1] == '.' then Some(hi - 1)
    else LastDot(t, lo, hi - 1)
  }

  /** Index of the first occurrence of `pat` at or after `j`. */
  function FindFrom(t: string, pat: string, j: nat): (r: Option<nat>)
    requires j <= |t|
    ensures r.Some? ==> j <= r.value && r.value + |pat| <= |t| && t[r.value..r.value + |pat|] == pat
    ensures r.Some? ==> forall i :: j <= i < r.value ==> !(pat <= t[i..])
    decreases |t| - j
  {
    if |t| < j + |pat| then None
    else if pat <= t[j..] then Some(j)
    else FindFrom(t, pat, j + 1)
  }

  /** Index of the last blank-line pair `\n\n` lying entirely inside `t[lo..hi]`. */
  function LastBlankPair(t: string, lo: nat, hi: nat): (r: Option<nat>)
    requires lo <= hi <= |t|
    ensures r.Some? ==> lo <= r.value && r.value + 2 <= hi && t[r.value..r.value + 2] == "\n\n"
    decreases hi
  {
    if hi < lo + 2 then None
    else if t[hi - 2..hi] == "\n\n" then Some(hi - 2)
    else LastBlankPair(t, lo, hi - 1)
  }

  /** Greedy `[^>]*>` from `j`: one past the first `>`. */
  function CloseTag(t: string, j: nat): (r: Option<nat>)
    requires j <= |t|
    ensures r.Some? ==> j < r.value <= |t| && t[r.value - 1] == '>'
    ensures r.Some? ==> forall i :: j <= i < r.value - 1 ==> t[i] != '>'
    ensures r.None? ==> forall i :: j <= i < |t| ==> t[i] != '>'
    decreases |t| - j
  {
    if j == |t| then None
    else if t[j] == '>' then Some(j + 1)
    else CloseTag(t, j + 1)
  }

  // ---------------------------------------------------------------- the matchers

  /**
   * `(##\s\d+\.\s)(.*?)\n`. Backtracking in `\d+` cannot help (the character after a shorter
   * run would be a digit, not `.`), so the digits are the maximal run. The result is the span of
   * the second group; the first group is everything before it and the match ends one past it.
   */
  function HeaderSpan(t: string): (r: Option<(nat, nat)>)
    ensures r.Some? ==> 6 <= r.value.0 <= r.value.1 < |t| && t[r.value.1] == '\n'
  {
    if "##" <= t && 2 < |t| && IsSpace(t[2]) then
      var k := DigitRun(t, 3);
      if 0 < k && 4 + k < |t| && t[3 + k] == '.' && IsSpace(t[4 + k]) then
        match LineBreak(t, 5 + k)
        case Some(e) => Some((5 + k, e - 1))
        case None => None
      else None
    else None
  }

  function HeaderLen(t: string): (r: Option<nat>)
    ensures r.Some? ==> 6 < r.value <= |t|
  {
    match HeaderSpan(t)
    case Some((_, e)) => Some(e + 1)
    case None => None
  }

  /** `You are likely … with a (.*)\.`: greedy, so the capture runs to the line's last `.`. */
  function FindingLen(t: string): (r: Option<nat>)
    ensures r.Some? ==> |FindingLead| < r.value <= |t|
  {
    if FindingLead <= t then
      match LastDot(t, |FindingLead|, LineEnd(t, |FindingLead|))
      case Some(d) => Some(d + 1)
      case None => None
    else None
  }

  /**
   * The specialist card, with dot-all `.`. The whitespace around the line break must be the
   * maximal run after the title and be followed by the bold label. After the label, greedy `\s*`
   * takes the maximal run; lazy `(.*?)\n\n` then stops at the first blank-line pair after it, and
   * when there is none, backtracking gives the last pair inside that run and an empty capture.
   * The result is the span of the third group; the match ends two past its end.
   */
  function CardSpan(t: string): (r: Option<(nat, nat)>)
    ensures r.Some? ==> r.value.0 <= r.value.1 && r.value.1 + 2 <= |t|
    ensures r.Some? ==> t[r.value.1..r.value.1 + 2] == "\n\n"
  {
    var a := 6 + |SpecialistTitle|;
    if "##" <= t && a <= |t| && IsSpace(t[2]) && t[3] == '4' && t[4] == '.' && IsSpace(t[5])
      && t[6..a] == SpecialistTitle
    then
      var w := SpaceRun(t, a);
      if '\n' in t[a..a + w] && SpecialistLabel <= t[a + w..] then
        var b := a + w + |SpecialistLabel|;
        var e := b + SpaceRun(t, b);
        match FindFrom(t, "\n\n", e)
        case Some(q) => Some((e, q))
        case None =>
          match LastBlankPair(t, b, e)
          case Some(q) => Some((q, q))
          case None => None
      else None
    else None
  }

  function CardLen(t: string): (r: Option<nat>)
    ensures r.Some? ==> 0 < r.value <= |t|
  {
    match CardSpan(t)
    case Some((_, q)) => Some(q + 2)
    case None => None
  }

  /** `\s*Connect the doctor/hospital near your location\.` from `j`. */
  function ActionAfter(t: string, j: nat): (r: Option<nat>)
    requires j <= |t|
    ensures r.Some? ==> j < r.value <= |t|
  {
    SentenceAfter(t, j, ActionSentence)
  }

  /** `\s*` and then the text `x`, from `j`: where the match ends. */
  function SentenceAfter(t: string, j: nat, x: string): (r: Option<nat>)
    requires j <= |t|
    ensures r.Some? ==> r.value == j + SpaceRun(t, j) + |x| <= |t| && x <= t[j + SpaceRun(t, j)..]
  {
    var w := SpaceRun(t, j);
    if x <= t[j + w..] then Some(j + w + |x|) else None
  }

  // ---------------------------------------------------------------- replace

  /** A replacement string with nothing to expand: it ignores the match. */
  function Const(r: string): string -> string {
    _ => r
  }

  /** A constant replacement brings in only its own characters. */
  lemma ConstKeepsOut(r: string, c: char)
    requires c !in r
    ensures forall t :: c !in t ==> c !in Const(r)(t)
  {
  }

  /**
   * The replacement string of a `replace` whose pattern is a plain string, as JavaScript reads
   * it: `$$` gives `$`, `$&` the matched text, `` $` `` the text before the match and `$'` the
   * text after it; any other `$` stands for itself, as a string pattern has no groups.
   */
  function Expand(r: string, before: string, matched: string, after: string): string
    decreases |r|
  {
    if r == [] then []
    else if r[0] == '$' && |r| >= 2 && r[1] in "$&`'" then
      (if r[1] == '$' then "$" else if r[1] == '&' then matched else if r[1] == '`' then before else after)
      + Expand(r[2..], before, matched, after)
    else [r[0]] + Expand(r[1..], before, matched, after)
  }

  /**
   * `s.replace(x, r)` with a string `x` and a replacement string `r`, as a replacer for
   * ReplaceFirst: it is handed the text from the match on, so the text before the match is
   * the rest of `s`.
   */
  function StringReplacer(s: string, x: string, r: string): string -> string {
    t => Replacement(s, x, r, t)
  }

  /** What StringReplacer gives for the text `t` from the match on. */
  function Replacement(s: string, x: string, r: string, t: string): string {
    if |x| <= |t| <= |s| then Expand(r, s[..|s| - |t|], x, t[|x|..]) else r
  }

  /** A replacement string without `$` is inserted as it is. */
  lemma {:induction false} ExpandPlain(r: string, before: string, matched: string, after: string)
    requires '$' !in r
    ensures Expand(r, before, matched, after) == r
  {
    if r != [] {
      assert r[0] in r;
      assert forall c :: c in r[1..] ==> c in r;
      ExpandPlain(r[1..], before, matched, after);
      assert r == [r[0]] + r[1..];
    }
  }

  /** A `$`-free front of a replacement string is inserted as it is. */
  lemma {:induction false} ExpandPlainPrefix(x: string, y: string, before: string, matched: string, after: string)
    requires '$' !in x
    ensures Expand(x + y, before, matched, after) == x + Expand(y, before, matched, after)
  {
    if x != [] {
      var s := x + y;
      assert x[0] in x && s[0] == x[0] && s[1..] == x[1..] + y;
      assert Expand(s, before, matched, after) == [x[0]] + Expand(x[1..] + y, before, matched, after);
      assert forall c :: c in x[1..] ==> c in x;
      ExpandPlainPrefix(x[1..], y, before, matched, after);
      ConcatAssoc([x[0]], x[1..], Expand(y, before, matched, after));
      assert x == [x[0]] + x[1..];
    } else {
      assert x + y == y;
    }
  }

  /**
   * Expansion works piece by piece, provided the second piece does not start with a
   * character a `$` at the end of the first would pair with.
   */
  lemma {:induction false} ExpandAppend(x: string, y: string, before: string, matched: string, after: string)
    requires y == [] || y[0] !in "$&`'"
    ensures Expand(x + y, before, matched, after)
         == Expand(x, before, matched, after) + Expand(y, before, matched, after)
    decreases |x|
  {
    var s := x + y;
    if x == [] {
      assert s == y;
    } else if x[0] == '$' && |x| >= 2 && x[1] in "$&`'" {
      assert s[0] == '$' && s[1] == x[1] && s[2..] == x[2..] + y;
      ExpandAppend(x[2..], y, before, matched, after);
      ConcatAssoc(if x[1] == '$' then "$" else if x[1] == '&' then matched else if x[1] == '`' then before else after,
        Expand(x[2..], before, matched, after), Expand(y, before, matched, after));
    } else {
      assert s[0] == x[0] && s[1..] == x[1..] + y;
      assert |x| == 1 ==> s[1..] == y;
      ExpandAppend(x[1..], y, before, matched, after);
      ConcatAssoc([x[0]], Expand(x[1..], before, matched, after), Expand(y, before, matched, after));
    }
  }

  /** `$&` stands for the match and `$'` for the text after it. */
  lemma ExpandPatterns(before: string, matched: string, after: string)
    ensures Expand("$&", before, matched, after) == matched
    ensures Expand("$'", before, matched, after) == after
  {
    assert Expand("$&", before, matched, after) == matched + Expand([], before, matched, after);
    assert Expand("$'", before, matched, after) == after + Expand([], before, matched, after);
  }

  /** `p` matches at no index of `s`. */
  predicate NoMatch(p: Pattern, s: string) {
    forall i :: 0 <= i < |s| ==> MatchLen(p, s[i..]).None?
  }

  /** Leftmost index at or after `j` where `p` matches (what `RegExp.exec` finds). */
  function FirstFrom(p: Pattern, s: string, j: nat): (r: Option<nat>)
    requires j <= |s|
    ensures r.Some? ==> j <= r.value < |s| && MatchLen(p, s[r.value..]).Some?
    ensures r.Some? ==> forall i :: j <= i < r.value ==> MatchLen(p, s[i..]).None?
    ensures r.None? ==> forall i :: j <= i < |s| ==> MatchLen(p, s[i..]).None?
    decreases |s| - j
  {
    if j == |s| then None
    else
      var m := MatchLen(p, s[j..]);
      if m.Some? then Some(j)
      else
        var r := FirstFrom(p, s, j + 1);
        // no match at `j` itself, the one index the recursive call does not cover
        assert forall i :: j <= i <= j ==> MatchLen(p, s[i..]) == m;
        r
  }

  function FirstAt(p: Pattern, s: string): Option<nat> {
    FirstFrom(p, s, 0)
  }

  /**
   * `s.replace(p, f)` without the `g` flag: only the leftmost match is replaced. The
   * replacement `f` is given the text from the start of the match on, from which the match
   * and its capture groups are determined.
   */
  function ReplaceFirst(p: Pattern, s: string, f: string -> string): string
    decreases |s|
  {
    if s == [] then []
    else match MatchLen(p, s)
      case Some(n) => f(s) + s[n..]
      case None => [s[0]] + ReplaceFirst(p, s[1..], f)
  }

  /** `s.replace(p, f)` with the `g` flag: scanning resumes after each replaced match. */
  function ReplaceAll(p: Pattern, s: string, f: string -> string): string
    decreases |s|
  {
    if s == [] then []
    else match MatchLen(p, s)
      case Some(n) => f(s) + ReplaceAll(p, s[n..], f)
      case None => [s[0]] + ReplaceAll(p, s[1..], f)
  }

  // ---------------------------------------------------------------- lemmas

  /** A replace whose pattern never matches leaves the text as it was. */
  lemma ReplaceFirstNoMatch(p: Pattern, s: string, f: string -> string)
    requires NoMatch(p, s)
    ensures ReplaceFirst(p, s, f) == s
  {
    assert s + [] == s;
    ReplaceFirstSkip(p, s, [], f);
  }

  /** Global replacing copies a prefix in which no match starts and carries on after it. */
  lemma ReplaceAllSkip(p: Pattern, a: string, b: string, f: string -> string)
    requires forall i :: 0 <= i < |a| ==> MatchLen(p, (a + b)[i..]).None?
    ensures ReplaceAll(p, a + b, f) == a + ReplaceAll(p, b, f)
  {
    var s := a + b;
    ReplaceAllFrom(p, s, f, 0, |a|);
    assert s[0..] == s && s[0..|a|] == a && s[|a|..] == b;
  }

  /** The same, between two positions of one text. */
  lemma {:induction false} ReplaceAllFrom(p: Pattern, s: string, f: string -> string, k: nat, i: nat)
    requires k <= i <= |s|
    requires forall j :: k <= j < i ==> MatchLen(p, s[j..]).None?
    ensures ReplaceAll(p, s[k..], f) == s[k..i] + ReplaceAll(p, s[i..], f)
    decreases i - k
  {
    if k < i {
      var u := s[k..];
      assert MatchLen(p, u).None?;
      ReplaceAllStep(p, u, f);
      assert u[0] == s[k] && u[1..] == s[k + 1..];
      ReplaceAllFrom(p, s, f, k + 1, i);
      ConcatAssoc([s[k]], s[k + 1..i], ReplaceAll(p, s[i..], f));
      assert [s[k]] + s[k + 1..i] == s[k..i];
    } else {
      assert s[k..i] == [];
    }
  }

  /** One step past a position where nothing matches. */
  lemma ReplaceAllStep(p: Pattern, s: string, f: string -> string)
    requires s != [] && MatchLen(p, s).None?
    ensures ReplaceAll(p, s, f) == [s[0]] + ReplaceAll(p, s[1..], f)
  {
  }

  /** With no match anywhere, the global replace is the identity. */
  lemma ReplaceAllNoMatch(p: Pattern, s: string, f: string -> string)
    requires NoMatch(p, s)
    ensures ReplaceAll(p, s, f) == s
  {
    assert s + [] == s;
    ReplaceAllSkip(p, s, [], f);
  }

  /** A replacer that brings in no `c` of its own keeps `c` out of a global replace. */
  lemma {:induction false} ReplaceAllKeepsOut(p: Pattern, s: string, f: string -> string, c: char)
    requires c !in s
    requires forall t :: c !in t ==> c !in f(t)
    ensures c !in ReplaceAll(p, s, f)
    decreases |s|
  {
    if s != [] {
      match MatchLen(p, s)
      case Some(n) =>
        assert forall x :: x in s[n..] ==> x in s;
        ReplaceAllKeepsOut(p, s[n..], f, c);
      case None =>
        assert forall x :: x in s[1..] ==> x in s;
        ReplaceAllKeepsOut(p, s[1..], f, c);
    }
  }

  /** The same for a replace of the first match only. */
  lemma {:induction false} ReplaceFirstKeepsOut(p: Pattern, s: string, f: string -> string, c: char)
    requires c !in s
    requires forall t :: c !in t ==> c !in f(t)
    ensures c !in ReplaceFirst(p, s, f)
    decreases |s|
  {
    if s != [] {
      match MatchLen(p, s)
      case Some(n) =>
        assert forall x :: x in s[n..] ==> x in s;
      case None =>
        assert forall x :: x in s[1..] ==> x in s;
        ReplaceFirstKeepsOut(p, s[1..], f, c);
    }
  }

  /** A global replace whose first match is at the start replaces it and carries on after it. */
  lemma ReplaceAllAtStart(p: Pattern, m: string, rest: string, f: string -> string)
    requires MatchLen(p, m + rest) == Some(|m|)
    ensures ReplaceAll(p, m + rest, f) == f(m + rest) + ReplaceAll(p, rest, f)
  {
    assert (m + rest)[|m|..] == rest;
  }

  /** Every character a matched span consumes lies in the text (a literal match needs each of its characters). */
  lemma LiteralNeedsChars(lit: string, t: string, c: char)
    ensures MatchLen(Literal(lit), t).Some? && c in lit ==> c in t
  {
    PrefixKeepsChar(lit, t, c);
  }

  /** Every character of a prefix occurs in the whole. */
  lemma PrefixKeepsChar(a: string, b: string, c: char)
    ensures a <= b && c in a ==> c in b
  {
    if a <= b && c in a {
      var k :| 0 <= k < |a| && a[k] == c;
      assert b[k] == c;
    }
  }

  /** The first character of every match of the structured patterns. */
  function Lead(p: Pattern): char
    requires !p.Literal? && !p.CallToAction?
  {
    match p
    case BoldSpan => '*'
    case NumberedHeader => '#'
    case LikelyFinding => 'Y'
    case SpecialistCard => '#'
    case TagSpan => '<'
  }

  lemma MatchStartsWithLead(p: Pattern, t: string)
    requires !p.Literal? && !p.CallToAction?
    ensures MatchLen(p, t).Some? ==> t != [] && t[0] == Lead(p)
  {
    assert "**"[0] == '*' && "##"[0] == '#' && FindingLead[0] == 'Y';
  }

  /** A pattern whose leading character is absent from the text never matches in it. */
  lemma NoLeadNoMatch(p: Pattern, s: string)
    requires !p.Literal? && !p.CallToAction?
    requires Lead(p) !in s
    ensures NoMatch(p, s)
  {
    forall i | 0 <= i < |s| ensures MatchLen(p, s[i..]).None? {
      MatchStartsWithLead(p, s[i..]);
      assert s[i..][0] == s[i];
    }
  }

  /** The call to action always contains the sentence, so it cannot match without its `C`. */
  lemma NoActionWithoutC(s: string)
    requires 'C' !in s
    ensures NoMatch(CallToAction, s)
  {
    forall i | 0 <= i < |s| ensures MatchLen(CallToAction, s[i..]).None? {
      var t := s[i..];
      forall j | 0 <= j <= |t| ensures ActionAfter(t, j).None? {
        var w := SpaceRun(t, j);
        assert ActionSentence[0] == 'C';
        PrefixKeepsChar(ActionSentence, t[j + w..], 'C');
        assert 'C' in t[j + w..] ==> 'C' in s;
      }
    }
  }

  /** A literal containing a character absent from the text never matches in it. */
  lemma NoLiteralWithoutChar(lit: string, s: string, c: char)
    requires c in lit && c !in s
    ensures NoMatch(Literal(lit), s)
  {
    forall i | 0 <= i < |s| ensures MatchLen(Literal(lit), s[i..]).None? {
      LiteralNeedsChars(lit, s[i..], c);
      assert c in s[i..] ==> c in s;
    }
  }

  // ---------------------------------------------------------------- where the leftmost match is

  /** The leftmost search passes over indices where nothing matches. */
  lemma {:induction false} FirstFromSkip(p: Pattern, s: string, j: nat, m: nat)
    requires j <= m <= |s|
    requires forall i :: j <= i < m ==> MatchLen(p, s[i..]).None?
    ensures FirstFrom(p, s, j) == FirstFrom(p, s, m)
    decreases m - j
  {
    if j < m {
      assert MatchLen(p, s[j..]).None?;
      assert FirstFrom(p, s, j) == FirstFrom(p, s, j + 1);
      FirstFromSkip(p, s, j + 1, m);
    }
  }

  /** The leftmost match is at `i` exactly when `p` matches at `i` and nowhere before. */
  /** What a leftmost match found by `FirstAt` guarantees. */
  lemma FirstAtFacts(p: Pattern, s: string, i: nat)
    requires FirstAt(p, s) == Some(i)
    ensures i < |s| && MatchLen(p, s[i..]).Some?
    ensures forall j :: 0 <= j < i ==> MatchLen(p, s[j..]).None?
  {
  }

  lemma FirstAtIs(p: Pattern, s: string, i: nat)
    requires i < |s| && MatchLen(p, s[i..]).Some?
    requires forall j :: 0 <= j < i ==> MatchLen(p, s[j..]).None?
    ensures FirstAt(p, s) == Some(i)
  {
    FirstFromSkip(p, s, 0, i);
  }

  /** A single replace copies a prefix in which no match starts and replaces in the rest. */
  lemma ReplaceFirstSkip(p: Pattern, a: string, b: string, f: string -> string)
    requires forall i :: 0 <= i < |a| ==> MatchLen(p, (a + b)[i..]).None?
    ensures ReplaceFirst(p, a + b, f) == a + ReplaceFirst(p, b, f)
  {
    var s := a + b;
    ReplaceFirstFrom(p, s, f, 0, |a|);
    assert s[0..] == s && s[0..|a|] == a && s[|a|..] == b;
  }

  /** The same, between two positions of one text. */
  lemma {:induction false} ReplaceFirstFrom(p: Pattern, s: string, f: string -> string, k: nat, i: nat)
    requires k <= i <= |s|
    requires forall j :: k <= j < i ==> MatchLen(p, s[j..]).None?
    ensures ReplaceFirst(p, s[k..], f) == s[k..i] + ReplaceFirst(p, s[i..], f)
    decreases i - k
  {
    if k < i {
      var u := s[k..];
      assert MatchLen(p, u).None?;
      ReplaceFirstStep(p, u, f);
      assert u[0] == s[k] && u[1..] == s[k + 1..];
      ReplaceFirstFrom(p, s, f, k + 1, i);
      ConcatAssoc([s[k]], s[k + 1..i], ReplaceFirst(p, s[i..], f));
      assert [s[k]] + s[k + 1..i] == s[k..i];
    } else {
      assert s[k..i] == [];
    }
  }

  /** One step past a position where nothing matches. */
  lemma ReplaceFirstStep(p: Pattern, s: string, f: string -> string)
    requires s != [] && MatchLen(p, s).None?
    ensures ReplaceFirst(p, s, f) == [s[0]] + ReplaceFirst(p, s[1..], f)
  {
  }

  /** A single replace whose pattern matches at the start replaces that match only. */
  lemma ReplaceFirstAtStart(p: Pattern, s: string, f: string -> string)
    requires MatchLen(p, s).Some?
    ensures ReplaceFirst(p, s, f) == f(s) + s[MatchLen(p, s).value..]
  {
    assert s[0..] == s;
  }

  /** The same, with the replacement and what follows the match named. */
  lemma ReplaceFirstFront(p: Pattern, s: string, f: string -> string, n: nat, r: string, rest: string)
    requires MatchLen(p, s) == Some(n) && f(s) == r && s[n..] == rest
    ensures ReplaceFirst(p, s, f) == r + rest
  {
    ReplaceFirstAtStart(p, s, f);
  }

  /** A constant replacement of a match at the start. */
  lemma ReplaceFirstConstFront(p: Pattern, s: string, n: nat, r: string, rest: string)
    requires MatchLen(p, s) == Some(n) && s[n..] == rest
    ensures ReplaceFirst(p, s, Const(r)) == r + rest
  {
    ReplaceFirstAtStart(p, s, Const(r));
  }

  /** Nothing whose leading character is missing from `a` starts inside `a`. */
  lemma NoLeadInPrefix(p: Pattern, a: string, b: string)
    requires !p.Literal? && !p.CallToAction?
    requires Lead(p) !in a
    ensures forall i :: 0 <= i < |a| ==> MatchLen(p, (a + b)[i..]).None?
  {
    forall i | 0 <= i < |a| ensures MatchLen(p, (a + b)[i..]).None? {
      MatchStartsWithLead(p, (a + b)[i..]);
      assert (a + b)[i..][0] == a[i];
    }
  }

  /** No literal starts inside `a` when `a` lacks the literal's first character. */
  lemma NoLiteralInPrefix(lit: string, a: string, b: string)
    requires lit != [] && lit[0] !in a
    ensures forall i :: 0 <= i < |a| ==> MatchLen(Literal(lit), (a + b)[i..]).None?
  {
    forall i | 0 <= i < |a| ensures MatchLen(Literal(lit), (a + b)[i..]).None? {
      assert (a + b)[i..][0] == a[i];
    }
  }

  // ---------------------------------------------------------------- the scanners on known shapes

  /** The lazy close finds a `**` reached without crossing a line end. */
  lemma {:induction false} CloseBoldFinds(t: string, j: nat, k: nat)
    requires j <= k && k + 2 <= |t| && t[k..k + 2] == "**"
    requires forall i :: j <= i < k ==> !IsLineTerminator(t[i])
    ensures CloseBold(t, j).Some?
    decreases k - j
  {
    if j == k {
      assert t[j..][..2] == t[k..k + 2];
    } else if !("**" <= t[j..]) {
      CloseBoldFinds(t, j + 1, k);
    }
  }

  /** The digit run over a known block of digits followed by a non-digit. */
  lemma {:induction false} DigitRunOf(t: string, j: nat, d: string)
    requires j + |d| < |t| && t[j..j + |d|] == d
    requires forall i :: 0 <= i < |d| ==> IsDigit(d[i])
    requires !IsDigit(t[j + |d|])
    ensures DigitRun(t, j) == |d|
    decreases |d|
  {
    if d != [] {
      assert t[j] == d[0];
      assert t[j + 1..j + 1 + |d[1..]|] == d[1..];
      DigitRunOf(t, j + 1, d[1..]);
    }
  }

  /** The lazy line scan over a known line ending in `\n`. */
  lemma {:induction false} LineBreakOf(t: string, j: nat, line: string)
    requires j + |line| < |t| && t[j..j + |line|] == line && t[j + |line|] == '\n'
    requires forall i :: 0 <= i < |line| ==> !IsLineTerminator(line[i])
    ensures LineBreak(t, j) == Some(j + |line| + 1)
    decreases |line|
  {
    if line != [] {
      assert t[j] == line[0];
      assert t[j + 1..j + 1 + |line[1..]|] == line[1..];
      LineBreakOf(t, j + 1, line[1..]);
    }
  }

  /** The greedy whitespace run over a known block of whitespace followed by a non-space. */
  lemma {:induction false} SpaceRunOf(t: string, j: nat, w: string)
    requires j + |w| <= |t| && t[j..j + |w|] == w && AllSpace(w)
    requires j + |w| == |t| || !IsSpace(t[j + |w|])
    ensures SpaceRun(t, j) == |w|
    decreases |w|
  {
    if w != [] {
      assert t[j] == w[0];
      assert t[j + 1..j + 1 + |w[1..]|] == w[1..];
      SpaceRunOf(t, j + 1, w[1..]);
    }
  }

  /** The line end over a known line followed by a line terminator or the end of the text. */
  lemma {:induction false} LineEndOf(t: string, j: nat, line: string)
    requires j + |line| <= |t| && t[j..j + |line|] == line
    requires forall i :: 0 <= i < |line| ==> !IsLineTerminator(line[i])
    requires j + |line| == |t| || IsLineTerminator(t[j + |line|])
    ensures LineEnd(t, j) == j + |line|
    decreases |line|
  {
    if line != [] {
      assert t[j] == line[0];
      assert t[j + 1..j + 1 + |line[1..]|] == line[1..];
      LineEndOf(t, j + 1, line[1..]);
    }
  }

  /** The last `.` before `hi` when everything from it to `hi` is dot-free. */
  lemma {:induction false} LastDotOf(t: string, lo: nat, d: nat, hi: nat)
    requires lo <= d < hi <= |t| && t[d] == '.'
    requires forall i :: d < i < hi ==> t[i] != '.'
    ensures LastDot(t, lo, hi) == Some(d)
    decreases hi
  {
    if hi - 1 != d {
      LastDotOf(t, lo, d, hi - 1);
    }
  }

  /** The first occurrence of a pattern when none starts earlier. */
  lemma {:induction false} FindFromOf(t: string, pat: string, j: nat, q: nat)
    requires j <= q && q + |pat| <= |t| && t[q..q + |pat|] == pat
    requires forall i :: j <= i < q ==> !(pat <= t[i..])
    ensures FindFrom(t, pat, j) == Some(q)
    decreases q - j
  {
    if j == q {
      assert t[j..][..|pat|] == pat;
    } else {
      FindFromOf(t, pat, j + 1, q);
    }
  }

  /** A single replace lands on the leftmost match and keeps everything around it. */
  lemma ReplaceFirstAtFirst(p: Pattern, s: string, f: string -> string, i: nat, n: nat)
    requires i < |s| && MatchLen(p, s[i..]) == Some(n)
    requires forall j :: 0 <= j < i ==> MatchLen(p, s[j..]).None?
    ensures i + n <= |s| && ReplaceFirst(p, s, f) == s[..i] + f(s[i..]) + s[i + n..]
  {
    var b := s[i..];
    ReplaceFirstFrom(p, s, f, 0, i);
    assert s[0..] == s && s[0..i] == s[..i];
    ReplaceFirstAtStart(p, b, f);
    assert b[n..] == s[i + n..];
    ConcatAssoc(s[..i], f(b), b[n..]);
  }

  /** The same, once what the replacer gives at the match is known. */
  lemma ReplaceFirstWith(p: Pattern, s: string, f: string -> string, i: nat, n: nat, v: string)
    requires i < |s| && MatchLen(p, s[i..]) == Some(n) && f(s[i..]) == v
    requires forall j :: 0 <= j < i ==> MatchLen(p, s[j..]).None?
    ensures i + n <= |s| && ReplaceFirst(p, s, f) == s[..i] + v + s[i + n..]
  {
    ReplaceFirstAtFirst(p, s, f, i, n);
  }

  /** A text occurring once, its first character nowhere else, is replaced by a global replace. */
  lemma ReplaceAllLone(x: string, a: string, b: string, r: string)
    requires x != [] && x[0] !in a && x[0] !in b
    ensures ReplaceAll(Literal(x), a + (x + b), Const(r)) == a + (r + b)
  {
    var f := Const(r);
    NoLiteralInPrefix(x, a, x + b);
    ReplaceAllSkip(Literal(x), a, x + b, f);
    assert x <= x + b;
    ReplaceAllAtStart(Literal(x), x, b, f);
    NoLiteralWithoutChar(x, b, x[0]);
    ReplaceAllNoMatch(Literal(x), b, f);
  }

  /** A text whose first character does not occur before it is replaced there by a single replace. */
  lemma ReplaceFirstLone(x: string, a: string, b: string, r: string)
    requires x != [] && x[0] !in a
    ensures ReplaceFirst(Literal(x), a + (x + b), Const(r)) == a + (r + b)
  {
    var f := Const(r);
    NoLiteralInPrefix(x, a, x + b);
    ReplaceFirstSkip(Literal(x), a, x + b, f);
    assert x <= x + b && (x + b)[|x|..] == b;
    ReplaceFirstFront(Literal(x), x + b, f, |x|, r, b);
  }

  /** A single replace by a fixed string splices it in at the leftmost match. */
  lemma ReplaceFirstConst(p: Pattern, s: string, i: nat, n: nat, r: string)
    requires i < |s| && MatchLen(p, s[i..]) == Some(n)
    requires forall j :: 0 <= j < i ==> MatchLen(p, s[j..]).None?
    ensures ReplaceFirst(p, s, Const(r)) == s[..i] + r + s[i + n..]
  {
    ReplaceFirstAtFirst(p, s, Const(r), i, n);
  }

  /**
   * A single replace of the text `x` by a replacement string splices in the expansion of that
   * string against the text before the match, the match and the text after it.
   */
  lemma ReplaceFirstString(s: string, i: nat, n: nat, x: string, r: string)
    requires i < |s| && i + n <= |s| && |x| == n && MatchLen(Literal(x), s[i..]) == Some(n)
    requires forall j :: 0 <= j < i ==> MatchLen(Literal(x), s[j..]).None?
    ensures ReplaceFirst(Literal(x), s, StringReplacer(s, x, r))
      == s[..i] + Expand(r, s[..i], x, s[i + n..]) + s[i + n..]
  {
    ReplaceFirstAtFirst(Literal(x), s, StringReplacer(s, x, r), i, n);
    ReplacementAt(s, i, n, x, r);
  }

  /** The replacement for the text from index `i` on. */
  lemma ReplacementAt(s: string, i: nat, n: nat, x: string, r: string)
    requires i + n <= |s| && |x| == n
    ensures StringReplacer(s, x, r)(s[i..]) == Replacement(s, x, r, s[i..]) == Expand(r, s[..i], x, s[i + n..])
  {
    assert |s| - |s[i..]| == i && s[i..][|x|..] == s[i + n..];
  }

  /** The lazy close over a known star-free single line ending in `**`. */
  lemma {:induction false} CloseBoldOf(t: string, j: nat, k: nat)
    requires j <= k && k + 2 <= |t| && t[k..k + 2] == "**"
    requires forall i :: j <= i < k ==> !IsLineTerminator(t[i]) && t[i] != '*'
    ensures CloseBold(t, j) == Some(k + 2)
    decreases k - j
  {
    if j == k {
      assert t[j..][..2] == t[k..k + 2];
    } else {
      assert t[j..][0] == t[j];
      CloseBoldOf(t, j + 1, k);
    }
  }
}
