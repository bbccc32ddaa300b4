/**
 * Character classes and small string operations with the meaning JavaScript gives them:
 * `\s`, `.` (which stops at a line terminator), `\d`, `String.prototype.trim` and
 * `String.prototype.substring(0, n)`.
 */
module Text {

  import opened Wrappers

  /** ECMAScript LineTerminator: the characters `.` never matches. */
  predicate IsLineTerminator(c: char) {
    c == '\n' || c == '\r' || c == '\U{2028}' || c == '\U{2029}'
  }

  /** ECMAScript `\s`, which is also exactly the set `trim` removes. */
  predicate IsSpace(c: char) {
    || IsLineTerminator(c)
    || c == ' ' || c == '\t' || c == '\U{000B}' || c == '\U{000C}'
    || c == '\U{00A0}' || c == '\U{FEFF}' || c == '\U{1680}'
    || ('\U{2000}' <= c <= '\U{200A}')
    || c == '\U{202F}' || c == '\U{205F}' || c == '\U{3000}'
  }

  /** ECMAScript `\d`. */
  predicate IsDigit(c: char) {
    '0' <= c <= '9'
  }

  predicate AllSpace(s: string) {
    forall i :: 0 <= i < |s| ==> IsSpace(s[i])
  }

  /** Drops leading whitespace. */
  function TrimStart(s: string): (r: string)
    ensures |r| <= |s| && r == s[|s| - |r|..]
    ensures AllSpace(s[..|s| - |r|])
    ensures r == [] || !IsSpace(r[0])
  {
    if s != [] && IsSpace(s[0]) then
      var r := TrimStart(s[1..]);
      assert s[1..][..|s| - 1 - |r|] == s[1..|s| - |r|];
      r
    else s
  }

  /** Drops trailing whitespace. */
  function TrimEnd(s: string): (r: string)
    ensures |r| <= |s| && r == s[..|r|]
    ensures AllSpace(s[|r|..])
    ensures r == [] || !IsSpace(r[|r| - 1])
  {
    if s != [] && IsSpace(s[|s| - 1]) then
      var r := TrimEnd(s[..|s| - 1]);
      assert s[|r|..] == s[..|s| - 1][|r|..] + [s[|s| - 1]];
      r
    else s
  }

  /** `String.prototype.trim`. */
  function Trim(s: string): string {
    TrimEnd(TrimStart(s))
  }

  /** Trimming a core that neither starts nor ends with whitespace gives back that core. */
  lemma TrimPadded(front: string, core: string, back: string)
    requires AllSpace(front) && AllSpace(back)
    requires core != [] && !IsSpace(core[0]) && !IsSpace(core[|core| - 1])
    ensures Trim(front + core + back) == core
  {
    var s := front + core + back;
    var a := TrimStart(s);
    // TrimStart stops exactly at the first character of `core`.
    var cut := |s| - |a|;
    assert forall i :: 0 <= i < cut ==> IsSpace(s[i]) by {
      forall i | 0 <= i < cut ensures IsSpace(s[i]) { assert s[..cut][i] == s[i]; }
    }
    assert !IsSpace(s[|front|]);
    if cut < |front| {
      assert false;
    }
    assert a == core + back;
    var b := TrimEnd(a);
    assert forall i :: |b| <= i < |a| ==> IsSpace(a[i]) by {
      forall i | |b| <= i < |a| ensures IsSpace(a[i]) { assert a[|b|..][i - |b|] == a[i]; }
    }
    assert !IsSpace(a[|core| - 1]);
    if |b| > |core| {
      assert false;
    }
    assert b == core;
  }

  /** Regrouping a concatenation. */
  lemma ConcatAssoc(a: string, b: string, c: string)
    ensures a + b + c == a + (b + c)
  {
  }

  lemma ConcatAssoc4(a: string, b: string, c: string, d: string)
    ensures a + b + c + d == a + (b + c + d)
  {
  }

  lemma ConcatAssoc6(a: string, b: string, c: string, d: string, e: string, f: string)
    ensures a + b + c + d + e + f == a + (b + c + d + e + f)
  {
  }

  lemma ConcatAssocMid(a: string, b: string, c: string, d: string, e: string)
    ensures a + b + c + d + e == a + (b + c + d) + e
  {
  }

  /** The pieces of `h + x + sep + rest` sit where their lengths put them. */
  lemma SliceAround(h: string, x: string, sep: string, rest: string)
    ensures var u := h + x + sep + rest;
      |h| + |x| + |sep| <= |u| && u[|h|..|h| + |x|] == x && u[|h| + |x| + |sep|..] == rest
  {
  }

  /** The pieces of `a + x + rest` sit where their lengths put them. */
  lemma SplitAround(a: string, x: string, rest: string)
    ensures var s := a + x + rest;
      s[..|a|] == a && s[|a|..] == x + rest && s[|a|..|a| + |x|] == x && s[|a| + |x|..] == rest
  {
    var s := a + x + rest;
    assert s == a + (x + rest);
  }

  /** `s.substring(0, n)`: the first `n` characters, or all of `s` when it is shorter. */
  function Prefix(s: string, n: nat): (r: string)
    ensures |r| == if |s| < n then |s| else n
    ensures r <= s
  {
    if |s| <= n then s else s[..n]
  }

  /** JavaScript's `a || b` on an optional string: an absent or empty string is falsy. */
  function OrElse(a: Option<string>, b: string): (r: string)
    ensures a.Some? && a.value != [] ==> r == a.value
    ensures (a.None? || a.value == []) ==> r == b
  {
    if a.Some? && a.value != [] then a.value else b
  }

  /** What a JSX text slot shows for an optional field: nothing when the field is absent. */
  function Shown(a: Option<string>): string {
    a.GetOr("")
  }
}
