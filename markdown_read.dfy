/**
 * Reading the symptom service's markdown back line by line (Backend/app.py:52-72): splitting
 * the serialised analysis at its line breaks gives every field back at a fixed place, when no
 * field value holds a line break itself.
 */
module MarkdownRead {
  import opened Wrappers
  import opened SymptomApi

  // ---------------------------------------------------------------- splitting a concatenation

  /** Appending to a text whose lines are known only continues its last line. */
  lemma {:induction false} SplitAppend(x: string, y: string, front: seq<string>, last: string)
    requires SplitLines(x) == front + [last]
    ensures SplitLines(x + y) == front + SplitLines(last + y)
  {
    if x == [] {
      assert SplitLines(x) == [""];
      Single("", front, last);
      assert x + y == last + y;
    } else {
      var c, t := x[0], x[1..];
      var lines := SplitLines(t);
      InitLast(lines);
      SplitAppend(t, y, lines[..|lines| - 1], lines[|lines| - 1]);
      assert x == [c] + t && x + y == [c] + (t + y);
      SplitConsAppend(c, t, y, lines[..|lines| - 1], lines[|lines| - 1], front, last);
    }
  }

  /** One step of SplitLines. */
  lemma SplitCons(c: char, t: string)
    ensures SplitLines([c] + t) == if c == '\n' then [""] + SplitLines(t)
      else [[c] + SplitLines(t)[0]] + SplitLines(t)[1..]
  {
    assert ([c] + t)[0] == c && ([c] + t)[1..] == t;
  }

  /** The inductive step of SplitAppend: one more character in front. */
  lemma SplitConsAppend(c: char, t: string, y: string, front': seq<string>, last': string,
                        front: seq<string>, last: string)
    requires SplitLines(t) == front' + [last']
    requires SplitLines(t + y) == front' + SplitLines(last' + y)
    requires SplitLines([c] + t) == front + [last]
    ensures SplitLines([c] + (t + y)) == front + SplitLines(last + y)
  {
    if c == '\n' {
      SplitBreakAppend(t, y, front', last', front, last);
    } else if front' == [] {
      SplitOneLine(c, t, y, last', front, last);
    } else {
      SplitLetterAppend(c, t, y, front', last', front, last);
    }
  }

  /** The inductive step of SplitAppend at a line break. */
  lemma SplitBreakAppend(t: string, y: string, front': seq<string>, last': string,
                         front: seq<string>, last: string)
    requires SplitLines(t) == front' + [last']
    requires SplitLines(t + y) == front' + SplitLines(last' + y)
    requires SplitLines("\n" + t) == front + [last]
    ensures SplitLines("\n" + (t + y)) == front + SplitLines(last + y)
  {
    SplitCons('\n', t);
    SplitCons('\n', t + y);
    BreakStep("", front', last', SplitLines(last' + y), front, last);
  }

  /** The inductive step of SplitAppend at a letter, when the rest has several lines. */
  lemma SplitLetterAppend(c: char, t: string, y: string, front': seq<string>, last': string,
                          front: seq<string>, last: string)
    requires c != '\n' && front' != []
    requires SplitLines(t) == front' + [last']
    requires SplitLines(t + y) == front' + SplitLines(last' + y)
    requires SplitLines([c] + t) == front + [last]
    ensures SplitLines([c] + (t + y)) == front + SplitLines(last + y)
  {
    LetterFront(c, t, front', last', front, last);
    LetterTail(c, t + y, front', SplitLines(last' + y));
    ConsAssoc([c] + front'[0], front'[1..], SplitLines(last' + y));
  }

  lemma LetterFront(c: char, t: string, front': seq<string>, last': string, front: seq<string>, last: string)
    requires c != '\n' && front' != []
    requires SplitLines(t) == front' + [last']
    requires SplitLines([c] + t) == front + [last]
    ensures front == [[c] + front'[0]] + front'[1..] && last == last'
  {
    SplitCons(c, t);
    HeadOf(front', [last']);
    ConsCancel([c] + front'[0], front'[1..], last', front, last);
  }

  lemma LetterTail(c: char, u: string, front': seq<string>, tail: seq<string>)
    requires c != '\n' && front' != []
    requires SplitLines(u) == front' + tail
    ensures SplitLines([c] + u) == [[c] + front'[0]] + (front'[1..] + tail)
  {
    SplitCons(c, u);
    HeadOf(front', tail);
  }

  lemma HeadOf<T>(xs: seq<T>, ys: seq<T>)
    requires xs != []
    ensures (xs + ys)[0] == xs[0] && (xs + ys)[1..] == xs[1..] + ys
  {
  }

  /** The inductive step of SplitAppend when the rest is a single line. */
  lemma SplitOneLine(c: char, t: string, y: string, last': string, front: seq<string>, last: string)
    requires c != '\n'
    requires SplitLines(t) == [] + [last']
    requires SplitLines(t + y) == [] + SplitLines(last' + y)
    requires SplitLines([c] + t) == front + [last]
    ensures SplitLines([c] + (t + y)) == front + SplitLines(last + y)
  {
    OneLineFront(c, t, last', front, last);
    assert SplitLines(t + y) == SplitLines(last' + y);
    SameTail(c, t + y, last' + y);
    assert last + y == [c] + (last' + y);
  }

  lemma OneLineFront(c: char, t: string, last': string, front: seq<string>, last: string)
    requires c != '\n'
    requires SplitLines(t) == [] + [last']
    requires SplitLines([c] + t) == front + [last]
    ensures front == [] && last == [c] + last'
  {
    SplitCons(c, t);
    assert SplitLines(t) == [last'];
    Single([c] + last', front, last);
  }

  lemma SameTail(c: char, u: string, v: string)
    requires SplitLines(u) == SplitLines(v)
    ensures SplitLines([c] + u) == SplitLines([c] + v)
  {
    SplitCons(c, u);
    SplitCons(c, v);
  }

  lemma Single<T>(e: T, front: seq<T>, last: T)
    requires [e] == front + [last]
    ensures front == [] && last == e
  {
    assert |front| + 1 == |[e]|;
    assert (front + [last])[|front|] == last;
  }

  lemma BreakStep<T>(e: T, front': seq<T>, last': T, tail: seq<T>, front: seq<T>, last: T)
    requires [e] + (front' + [last']) == front + [last]
    ensures [e] + (front' + tail) == front + tail && last == last'
  {
    ConsCancel(e, front', last', front, last);
  }

  lemma ConsCancel<T>(h: T, xs: seq<T>, u: T, front: seq<T>, last: T)
    requires [h] + (xs + [u]) == front + [last]
    ensures front == [h] + xs && last == u
  {
    var whole := front + [last];
    assert |front| == |xs| + 1;
    assert forall i :: 0 <= i < |front| ==> front[i] == whole[i] == ([h] + xs)[i];
    assert last == whole[|front|];
  }

  lemma ConsAssoc<T>(h: T, xs: seq<T>, ys: seq<T>)
    ensures [h] + (xs + ys) == [h] + xs + ys
  {
  }

  lemma InitLast<T>(s: seq<T>)
    requires s != []
    ensures s == s[..|s| - 1] + [s[|s| - 1]]
  {
  }

  lemma ListTail<T>(front: seq<T>, ll: seq<T>, e: T)
    requires ll != []
    ensures front + ll[..|ll| - 1] + [ll[|ll| - 1], e] + [e] == front + ll + [e] + [e]
  {
    InitLast(ll);
  }

  /** A line closed by a break. */
  lemma SplitBreak(x: string)
    requires '\n' !in x
    ensures SplitLines(x + "\n") == [x, ""]
  {
    SplitFirst(x, "");
    assert x + "\n" + "" == x + "\n";
  }

  /** A line closed by two breaks. */
  lemma SplitBreaks(x: string)
    requires '\n' !in x
    ensures SplitLines(x + "\n\n") == [x, "", ""]
  {
    SplitFirst(x, "\n");
    assert x + "\n" + "\n" == x + "\n\n";
    SplitBreak("");
    assert "" + "\n" == "\n";
  }

  // ---------------------------------------------------------------- the serialised analysis

  const Title1 := "## 1. " + "What You Might Be Experiencing"
  const Title2 := "## 2. " + "Possible Medical Problems"
  const Title3 := "## 3. " + "Immediate Actions to Take"
  const Title4 := "## 4. " + "Recommended Specialist"

  /** Each heading is its title on a line of its own. */
  lemma HeadingTitles()
    ensures Heading1 == Title1 + "\n" && Heading2 == Title2 + "\n"
    ensures Heading3 == Title3 + "\n" && Heading4 == Title4 + "\n"
  {
  }

  /** No value the serialiser writes holds a line break. */
  predicate LineFree(a: Analysis) {
    && '\n' !in a.disclaimer.GetOr(DefaultDisclaimer)
    && '\n' !in a.condition.GetOr("N/A")
    && (forall i :: 0 <= i < |a.problems.GetOr([])| ==> '\n' !in a.problems.GetOr([])[i])
    && (forall i :: 0 <= i < |a.actions.GetOr([])| ==> '\n' !in a.actions.GetOr([])[i])
    && '\n' !in a.specialist.GetOr(DefaultSpecialist)
    && '\n' !in a.finalStatement.GetOr("N/A")
  }

  /** The lines of a list section: its bullets, or the placeholder and the blank its break leaves. */
  function ListLines(items: Option<seq<string>>): seq<string> {
    var xs := items.GetOr([]);
    if xs == [] then ["- N/A", ""] else Bullets(xs)
  }

  /** The lines of the serialised analysis, read top to bottom. */
  function MarkdownLines(a: Analysis): seq<string> {
    ["**" + a.disclaimer.GetOr(DefaultDisclaimer) + "**", "", Title1, a.condition.GetOr("N/A"), "", Title2]
    + ListLines(a.problems) + ["", Title3] + ListLines(a.actions)
    + ["", Title4, SpecialistLead + a.specialist.GetOr(DefaultSpecialist), "", "***", a.finalStatement.GetOr("N/A")]
  }

  /** A list section splits into its lines, none of which holds a break. */
  lemma ListLinesSplit(items: Option<seq<string>>)
    requires forall i :: 0 <= i < |items.GetOr([])| ==> '\n' !in items.GetOr([])[i]
    ensures SplitLines(ListBlock(items)) == ListLines(items)
    ensures forall i :: 0 <= i < |ListLines(items)| ==> '\n' !in ListLines(items)[i]
  {
    var xs := items.GetOr([]);
    if xs == [] {
      assert ListBlock(items) == "- N/A" + "\n";
      SplitBreak("- N/A");
    } else {
      ListBlockRoundTrip(xs);
      assert ListBlock(items) == ListBlock(Some(xs));
      forall i | 0 <= i < |xs| ensures '\n' !in ListLines(items)[i] {
        assert ListLines(items)[i] == "- " + xs[i];
      }
    }
  }

  // ---------------------------------------------------------------- section by section

  /** Text appended after a blank last line starts its own lines. */
  lemma AppendFresh(m: string, front: seq<string>, y: string)
    requires SplitLines(m) == front + [""]
    ensures SplitLines(m + y) == front + SplitLines(y)
  {
    SplitAppend(m, y, front, "");
    assert "" + y == y;
  }

  /** Two breaks close the last line and leave a blank line and an open one. */
  lemma AppendBreaks(m: string, front: seq<string>, u: string)
    requires SplitLines(m) == front + [u]
    requires '\n' !in u
    ensures SplitLines(m + "\n\n") == front + [u, ""] + [""]
  {
    SplitAppend(m, "\n\n", front, u);
    SplitBreaks(u);
    Snoc2(front, u, "");
  }

  lemma Snoc2<T>(front: seq<T>, u: T, e: T)
    ensures front + [u, e, e] == front + [u, e] + [e]
  {
  }

  /** A list section after a blank last line: its lines, the last left open. */
  lemma AppendList(m: string, front: seq<string>, items: Option<seq<string>>)
    requires SplitLines(m) == front + [""]
    requires forall i :: 0 <= i < |items.GetOr([])| ==> '\n' !in items.GetOr([])[i]
    ensures var ll := ListLines(items);
      SplitLines(m + ListBlock(items)) == front + ll[..|ll| - 1] + [ll[|ll| - 1]]
      && '\n' !in ll[|ll| - 1]
  {
    var ll := ListLines(items);
    AppendFresh(m, front, ListBlock(items));
    ListLinesSplit(items);
    InitLast(ll);
    AppendAssoc(front, ll[..|ll| - 1], [ll[|ll| - 1]]);
  }

  lemma AppendAssoc<T>(a: seq<T>, b: seq<T>, c: seq<T>)
    ensures a + (b + c) == a + b + c
  {
  }

  /** A list section and two breaks after a blank last line. */
  lemma AppendListBreaks(m: string, front: seq<string>, items: Option<seq<string>>)
    requires SplitLines(m) == front + [""]
    requires forall i :: 0 <= i < |items.GetOr([])| ==> '\n' !in items.GetOr([])[i]
    ensures SplitLines(m + ListBlock(items) + "\n\n") == front + ListLines(items) + [""] + [""]
  {
    var ll := ListLines(items);
    AppendList(m, front, items);
    AppendBreaks(m + ListBlock(items), front + ll[..|ll| - 1], ll[|ll| - 1]);
    ListTail(front, ll, "");
  }

  /** A heading after a blank last line: its title, then an open blank line. */
  lemma AppendHeading(m: string, front: seq<string>, title: string)
    requires SplitLines(m) == front + [""]
    requires '\n' !in title
    ensures SplitLines(m + (title + "\n")) == front + [title] + [""]
  {
    AppendFresh(m, front, title + "\n");
    SplitBreak(title);
    AppendAssoc(front, [title], [""]);
  }

  /** A one-line value after a blank last line, then two breaks. */
  lemma AppendValue(m: string, front: seq<string>, v: string)
    requires SplitLines(m) == front + [""]
    requires '\n' !in v
    ensures SplitLines(m + v + "\n\n") == front + [v, ""] + [""]
  {
    AppendFresh(m, front, v);
    SplitNone(v);
    AppendBreaks(m + v, front, v);
  }

  /** The bold disclaimer line and the blank after it. */
  lemma DisclaimerSplit(d: string)
    requires '\n' !in d
    ensures SplitLines("**" + d + "**\n\n") == ["**" + d + "**", ""] + [""]
  {
    var b := "**" + d + "**";
    assert "**" + d + "**\n\n" == b + "\n\n";
    SplitNone(b);
    AppendBreaks(b, [], b);
  }

  /** A heading, a one-line value, two breaks and the next heading, after a blank last line. */
  lemma HeadedValueSplit(m: string, front: seq<string>, t1: string, c: string, t2: string)
    requires SplitLines(m) == front + [""]
    requires '\n' !in t1 && '\n' !in c && '\n' !in t2
    ensures SplitLines(m + (t1 + "\n") + c + "\n\n" + (t2 + "\n")) == front + [t1, c, "", t2] + [""]
  {
    AppendHeading(m, front, t1);
    AppendValue(m + (t1 + "\n"), front + [t1], c);
    AppendHeading(m + (t1 + "\n") + c + "\n\n", front + [t1] + [c, ""], t2);
    OpeningGroup(front, t1, c, "", t2);
  }

  /** The disclaimer, the first section and the second heading. */
  lemma OpeningSplit(d: string, t1: string, c: string, t2: string)
    requires '\n' !in d && '\n' !in t1 && '\n' !in c && '\n' !in t2
    ensures SplitLines("**" + d + "**\n\n" + (t1 + "\n") + c + "\n\n" + (t2 + "\n"))
         == ["**" + d + "**", "", t1, c, "", t2] + [""]
  {
    DisclaimerSplit(d);
    HeadedValueSplit("**" + d + "**\n\n", ["**" + d + "**", ""], t1, c, t2);
    OpeningDisplay("**" + d + "**", "", t1, c, t2);
  }

  lemma OpeningDisplay<T>(b: T, e: T, t1: T, c: T, t2: T)
    ensures [b, e] + [t1, c, e, t2] + [e] == [b, e, t1, c, e, t2] + [e]
  {
  }

  lemma ClosingDisplay<T>(front: seq<T>, e: T, t4: T, line: T, st: T, f: T)
    ensures front + [e, t4] + [line, e, st, f] == front + [e, t4, line, e, st, f]
  {
  }

  lemma OpeningGroup<T>(front: seq<T>, t1: T, c: T, e: T, t2: T)
    ensures front + [t1] + [c, e] + [t2] + [e] == front + [t1, c, e, t2] + [e]
  {
  }

  /** A list section, two breaks and the next heading, after a blank last line. */
  lemma SectionSplit(m: string, front: seq<string>, items: Option<seq<string>>, title: string)
    requires SplitLines(m) == front + [""]
    requires forall i :: 0 <= i < |items.GetOr([])| ==> '\n' !in items.GetOr([])[i]
    requires '\n' !in title
    ensures SplitLines(m + ListBlock(items) + "\n\n" + (title + "\n"))
         == front + ListLines(items) + ["", title] + [""]
  {
    AppendListBreaks(m, front, items);
    AppendHeading(m + ListBlock(items) + "\n\n", front + ListLines(items) + [""], title);
    SectionGroup(front, ListLines(items), "", title);
  }

  lemma SectionGroup<T>(front: seq<T>, ll: seq<T>, e: T, t: T)
    ensures front + ll + [e] + [t] + [e] == front + ll + [e, t] + [e]
  {
  }

  /** The specialist line, the separator and the closing statement, after a blank last line. */
  lemma ClosingSplit(m: string, front: seq<string>, sp: string, f: string)
    requires SplitLines(m) == front + [""]
    requires '\n' !in sp && '\n' !in f
    ensures SplitLines(m + SpecialistLead + sp + "\n\n" + Separator + f)
         == front + [SpecialistLead + sp, "", "***", f]
  {
    var line := SpecialistLead + sp;
    assert m + SpecialistLead + sp == m + line;
    AppendValue(m, front, line);
    var m2 := m + line + "\n\n";
    AppendHeading(m2, front + [line, ""], "***");
    AppendFresh(m2 + Separator, front + [line, ""] + ["***"], f);
    SplitNone(f);
    ClosingGroup(front, line, "", "***", f);
  }

  lemma ClosingGroup<T>(front: seq<T>, line: T, e: T, st: T, f: T)
    ensures front + [line, e] + [st] + [f] == front + [line, e, st, f]
  {
  }

  // ---------------------------------------------------------------- the whole text

  /** The serialised text up to the third heading. */
  lemma UpperSplit(a: Analysis)
    requires LineFree(a)
    ensures SplitLines("**" + a.disclaimer.GetOr(DefaultDisclaimer) + "**\n\n" + Heading1 + a.condition.GetOr("N/A")
                       + "\n\n" + Heading2 + ListBlock(a.problems) + "\n\n" + Heading3)
         == ["**" + a.disclaimer.GetOr(DefaultDisclaimer) + "**", "", Title1, a.condition.GetOr("N/A"), "", Title2]
            + ListLines(a.problems) + ["", Title3] + [""]
  {
    var d, c := a.disclaimer.GetOr(DefaultDisclaimer), a.condition.GetOr("N/A");
    HeadingTitles();
    OpeningSplit(d, Title1, c, Title2);
    SectionSplit("**" + d + "**\n\n" + Heading1 + c + "\n\n" + Heading2,
      ["**" + d + "**", "", Title1, c, "", Title2], a.problems, Title3);
  }

  /** Reading the serialised analysis line by line gives every field back in place. */
  lemma MarkdownSplit(a: Analysis)
    requires LineFree(a)
    ensures SplitLines(FormatMarkdown(a)) == MarkdownLines(a)
  {
    var d, c := a.disclaimer.GetOr(DefaultDisclaimer), a.condition.GetOr("N/A");
    var m9 := "**" + d + "**\n\n" + Heading1 + c + "\n\n" + Heading2 + ListBlock(a.problems) + "\n\n" + Heading3;
    var p9 := ["**" + d + "**", "", Title1, c, "", Title2] + ListLines(a.problems) + ["", Title3];
    UpperSplit(a);
    LowerSplit(m9, p9, a.actions, a.specialist.GetOr(DefaultSpecialist), a.finalStatement.GetOr("N/A"));
  }

  /** The actions, the specialist and the closing statement after the upper part's lines. */
  lemma LowerSplit(m: string, front: seq<string>, actions: Option<seq<string>>, sp: string, f: string)
    requires SplitLines(m) == front + [""]
    requires forall i :: 0 <= i < |actions.GetOr([])| ==> '\n' !in actions.GetOr([])[i]
    requires '\n' !in sp && '\n' !in f
    ensures SplitLines(m + ListBlock(actions) + "\n\n" + Heading4 + SpecialistLead + sp + "\n\n" + Separator + f)
         == front + ListLines(actions) + ["", Title4, SpecialistLead + sp, "", "***", f]
  {
    HeadingTitles();
    SectionSplit(m, front, actions, Title4);
    ClosingSplit(m + ListBlock(actions) + "\n\n" + Heading4, front + ListLines(actions) + ["", Title4], sp, f);
    ClosingDisplay(front + ListLines(actions), "", Title4, SpecialistLead + sp, "***", f);
  }

  /**
   * Where each field sits in the serialised text's lines: the disclaimer on the first, the
   * condition on the fourth, the problem lines from the seventh, the action lines after the
   * third heading, the specialist four lines from the end and the closing statement last.
   */
  lemma MarkdownFields(a: Analysis)
    requires LineFree(a)
    ensures var lines := SplitLines(FormatMarkdown(a));
      var probs, acts := ListLines(a.problems), ListLines(a.actions);
      && |lines| == 14 + |probs| + |acts|
      && lines[0] == "**" + a.disclaimer.GetOr(DefaultDisclaimer) + "**"
      && lines[2] == Title1 && lines[3] == a.condition.GetOr("N/A") && lines[5] == Title2
      && lines[6..6 + |probs|] == probs
      && lines[7 + |probs|] == Title3
      && lines[8 + |probs|..8 + |probs| + |acts|] == acts
      && lines[9 + |probs| + |acts|] == Title4
      && lines[|lines| - 4] == SpecialistLead + a.specialist.GetOr(DefaultSpecialist)
      && lines[|lines| - 2] == "***"
      && lines[|lines| - 1] == a.finalStatement.GetOr("N/A")
  {
    MarkdownSplit(a);
    Positions("**" + a.disclaimer.GetOr(DefaultDisclaimer) + "**", "", Title1, a.condition.GetOr("N/A"), Title2,
      ListLines(a.problems), Title3, ListLines(a.actions), Title4,
      SpecialistLead + a.specialist.GetOr(DefaultSpecialist), "***", a.finalStatement.GetOr("N/A"));
  }

  lemma Positions<T>(b: T, e: T, t1: T, c: T, t2: T, probs: seq<T>, t3: T, acts: seq<T>, t4: T, s: T, st: T, f: T)
    ensures var lines := [b, e, t1, c, e, t2] + probs + [e, t3] + acts + [e, t4, s, e, st, f];
      && |lines| == 14 + |probs| + |acts|
      && lines[0] == b && lines[2] == t1 && lines[3] == c && lines[5] == t2
      && lines[6..6 + |probs|] == probs && lines[7 + |probs|] == t3
      && lines[8 + |probs|..8 + |probs| + |acts|] == acts && lines[9 + |probs| + |acts|] == t4
      && lines[|lines| - 4] == s && lines[|lines| - 2] == st && lines[|lines| - 1] == f
  {
    var lines := [b, e, t1, c, e, t2] + probs + [e, t3] + acts + [e, t4, s, e, st, f];
    assert lines[6..6 + |probs|] == probs;
    assert lines[8 + |probs|..8 + |probs| + |acts|] == acts;
  }
}
