/** Small shared vocabulary: an optional value, JavaScript's String.prototype.trim, and "occurs in". */
module Util {

  /** A value that may be absent (JavaScript's null / undefined). */
  datatype Option<T> = None | Some(value: T) {
    /** `x || d` for a nullable `x` whose present values are never falsy. */
    function GetOr(d: T): T {
      match this
      case Some(v) => v
      case None => d
    }
  }

  /** The code points String.prototype.trim removes: ECMAScript WhiteSpace
      (tab, VT, FF, space, NBSP, ZWNBSP and the Zs category) and LineTerminator. */
  const JsSpaces: set<char> := {
    '\t', '\n', '\U{B}', '\U{C}', '\r', ' ', '\U{A0}', '\U{1680}',
    '\U{2000}', '\U{2001}', '\U{2002}', '\U{2003}', '\U{2004}', '\U{2005}',
    '\U{2006}', '\U{2007}', '\U{2008}', '\U{2009}', '\U{200A}',
    '\U{2028}', '\U{2029}', '\U{202F}', '\U{205F}', '\U{3000}', '\U{FEFF}'}

  /** The leading run of characters from `ws` removed: a suffix of `s`. */
  function StripStart(s: string, ws: set<char>): (r: string)
    ensures |r| <= |s|
  {
    if s != [] && s[0] in ws then StripStart(s[1..], ws) else s
  }

  /** The trailing run of characters from `ws` removed: a prefix of `s`. */
  function StripEnd(s: string, ws: set<char>): (r: string)
    ensures |r| <= |s|
  {
    if s != [] && s[|s| - 1] in ws then StripEnd(s[..|s| - 1], ws) else s
  }

  /** StripStart removes exactly the leading run, and keeps the rest. */
  lemma {:induction false} StripStartRemovesRun(s: string, ws: set<char>)
    ensures var r := StripStart(s, ws);
      && r == s[|s| - |r|..]
      && (r == [] || r[0] !in ws)
      && (forall k :: 0 <= k < |s| - |r| ==> s[k] in ws)
  {
    if s != [] && s[0] in ws {
      StripStartRemovesRun(s[1..], ws);
      var r := StripStart(s, ws);
      forall k | 0 <= k < |s| - |r|
        ensures s[k] in ws
      {
        if k > 0 {
          assert s[k] == s[1..][k - 1];
        }
      }
    }
  }

  /** StripEnd removes exactly the trailing run, and keeps the rest. */
  lemma {:induction false} StripEndRemovesRun(s: string, ws: set<char>)
    ensures var r := StripEnd(s, ws);
      && r == s[..|r|]
      && (r == [] || r[|r| - 1] !in ws)
      && (forall k :: |r| <= k < |s| ==> s[k] in ws)
  {
    if s != [] && s[|s| - 1] in ws {
      StripEndRemovesRun(s[..|s| - 1], ws);
      var r := StripEnd(s, ws);
      forall k | |r| <= k < |s|
        ensures s[k] in ws
      {
        if k < |s| - 1 {
          assert s[k] == s[..|s| - 1][k];
        }
      }
    }
  }

  /** `r` sits in `s` at offset `i` with only characters from `ws` around it. */
  ghost predicate Surrounded(s: string, i: int, r: string, ws: set<char>) {
    && 0 <= i && i + |r| <= |s| && s[i..i + |r|] == r
    && (forall k :: 0 <= k < i ==> s[k] in ws)
    && (forall k :: i + |r| <= k < |s| ==> s[k] in ws)
  }

  /** Stripping both ends keeps a slice of `s` and removes only characters
      from `ws` before and after it. */
  lemma StripBothRemovesOnlyRuns(s: string, ws: set<char>)
    ensures var t := StripStart(s, ws);
      Surrounded(s, |s| - |t|, StripEnd(t, ws), ws)
  {
    var t := StripStart(s, ws);
    var r := StripEnd(t, ws);
    var i := |s| - |t|;
    StripStartRemovesRun(s, ws);
    StripEndRemovesRun(t, ws);
    assert s[i..i + |r|] == r;
    forall k | i + |r| <= k < |s|
      ensures s[k] in ws
    {
      assert s[k] == t[k - i];
    }
  }

  /** String.prototype.trim. */
  function Trim(s: string): (r: string)
    ensures |r| <= |s|
  {
    StripEnd(StripStart(s, JsSpaces), JsSpaces)
  }

  /** Trim removes only white space: what it returns sits in `s` with white
      space alone before and after it. */
  lemma TrimRemovesOnlySpace(s: string)
    ensures Surrounded(s, |s| - |StripStart(s, JsSpaces)|, Trim(s), JsSpaces)
  {
    StripBothRemovesOnlyRuns(s, JsSpaces);
  }

  /** Trim removes all the white space at both ends. */
  lemma TrimLeavesNoSpaceAtEnds(s: string)
    ensures var r := Trim(s); r == [] || (r[0] !in JsSpaces && r[|r| - 1] !in JsSpaces)
  {
    var t := StripStart(s, JsSpaces);
    var r := StripEnd(t, JsSpaces);
    StripStartRemovesRun(s, JsSpaces);
    StripEndRemovesRun(t, JsSpaces);
    if r != [] {
      assert r[0] == t[0];
    }
  }

  /** Trimming twice is trimming once. */
  lemma TrimIdempotent(s: string)
    ensures Trim(Trim(s)) == Trim(s)
  {
    var r := Trim(s);
    TrimLeavesNoSpaceAtEnds(s);
    if r != [] {
      assert StripStart(r, JsSpaces) == r;
      assert StripEnd(r, JsSpaces) == r;
    }
  }

  /** `part` occurs in `text` starting at index `k`. */
  ghost predicate OccursAt(text: string, part: string, k: int) {
    0 <= k && k + |part| <= |text| && text[k..k + |part|] == part
  }

  /** `part` is a substring of `text`. */
  ghost predicate Contains(text: string, part: string) {
    exists k :: OccursAt(text, part, k)
  }

  /** A string glued between a fixed prefix and suffix contains itself. */
  lemma ContainsMiddle(pre: string, mid: string, post: string)
    ensures Contains(pre + mid + post, mid)
  {
    var text := pre + mid + post;
    assert text[|pre|..|pre| + |mid|] == mid;
    assert OccursAt(text, mid, |pre|);
  }
}
