/** The slug engine of the album dashboard (makeSlug): lower-case, canonical
    decomposition, removal of the combining diacritical marks U+0300..U+036F,
    every run of characters outside [a-z0-9] replaced by one '-', and one
    leading and one trailing '-' removed. */
module Slug {

  predicate IsLowerAlnum(c: char) {
    'a' <= c <= 'z' || '0' <= c <= '9'
  }

  /** The block the regular expression /[\u0300-\u036f]/ removes. */
  predicate IsCombiningMark(c: char) {
    '\U{300}' <= c <= '\U{36F}'
  }

  predicate IsAscii(s: string) {
    forall i :: 0 <= i < |s| ==> s[i] < '\U{80}'
  }

  // ---------------------------------------------------------------------
  // The four stages of the pipeline
  // ---------------------------------------------------------------------

  /** String.prototype.toLowerCase on ASCII and on the Latin-1 capitals
      U+00C0..U+00DE (except the multiplication sign U+00D7). */
  function LowerChar(c: char): char {
    if 'A' <= c <= 'Z' || ('\U{C0}' <= c <= '\U{DE}' && c != '\U{D7}')
    then (c as int + 32) as char
    else c
  }

  function Lower(s: string): (r: string)
    ensures |r| == |s| && forall i :: 0 <= i < |s| ==> r[i] == LowerChar(s[i])
  {
    seq(|s|, i requires 0 <= i < |s| => LowerChar(s[i]))
  }

  /** Canonical decompositions (Unicode Standard Annex #15) of the lower-case
      Latin-1 letters that have one: base letter followed by a combining mark. */
  const Decompositions: map<char, string> := map[
    '\U{E0}' := "a\U{300}", '\U{E1}' := "a\U{301}", '\U{E2}' := "a\U{302}",
    '\U{E3}' := "a\U{303}", '\U{E4}' := "a\U{308}", '\U{E5}' := "a\U{30A}",
    '\U{E7}' := "c\U{327}",
    '\U{E8}' := "e\U{300}", '\U{E9}' := "e\U{301}", '\U{EA}' := "e\U{302}",
    '\U{EB}' := "e\U{308}",
    '\U{EC}' := "i\U{300}", '\U{ED}' := "i\U{301}", '\U{EE}' := "i\U{302}",
    '\U{EF}' := "i\U{308}",
    '\U{F1}' := "n\U{303}",
    '\U{F2}' := "o\U{300}", '\U{F3}' := "o\U{301}", '\U{F4}' := "o\U{302}",
    '\U{F5}' := "o\U{303}", '\U{F6}' := "o\U{308}",
    '\U{F9}' := "u\U{300}", '\U{FA}' := "u\U{301}", '\U{FB}' := "u\U{302}",
    '\U{FC}' := "u\U{308}",
    '\U{FD}' := "y\U{301}", '\U{FF}' := "y\U{308}"
  ]

  /** One character under NFD: its decomposition, or itself. */
  function Decompose(c: char): (r: string)
    ensures c !in Decompositions ==> r == [c]
    ensures c in Decompositions ==>
      |r| == 2 && 'a' <= r[0] <= 'z' && IsCombiningMark(r[1]) && '\U{E0}' <= c
  {
    if c in Decompositions then Decompositions[c] else [c]
  }

  /** String.prototype.normalize("NFD") restricted to the table above. */
  function Nfd(s: string): string {
    if s == [] then [] else Decompose(s[0]) + Nfd(s[1..])
  }

  /** replace(/[\u0300-\u036f]/g, "") */
  function StripMarks(s: string): string {
    if s == [] then []
    else if IsCombiningMark(s[0]) then StripMarks(s[1..])
    else [s[0]] + StripMarks(s[1..])
  }

  /** The leading characters outside [a-z0-9] removed: the rest of one run. */
  function SkipRun(s: string): (r: string)
    ensures |r| <= |s|
  {
    if s != [] && !IsLowerAlnum(s[0]) then SkipRun(s[1..]) else s
  }

  /** replace(/[^a-z0-9]+/g, "-"): each maximal run of characters outside
      [a-z0-9] becomes a single '-'. */
  function Collapse(s: string): string
    decreases |s|
  {
    if s == [] then []
    else if IsLowerAlnum(s[0]) then [s[0]] + Collapse(s[1..])
    else "-" + Collapse(SkipRun(s[1..]))
  }

  /** replace(/(^-|-$)+/g, ""): the anchored alternatives can only match the
      first and the last character, so at most one '-' goes from each end. */
  function TrimHyphens(s: string): string {
    var t := if |s| > 0 && s[0] == '-' then s[1..] else s;
    if |t| > 0 && t[|t| - 1] == '-' then t[..|t| - 1] else t
  }

  /** What the slug is made of: lower-cased, decomposed, marks removed. */
  function Folded(v: string): string {
    StripMarks(Nfd(Lower(v)))
  }

  /** makeSlug (Dashboard.jsx). */
  function MakeSlug(v: string): (r: string)
    ensures IsSlug(r)
    ensures Alnums(r) == Alnums(Folded(v))
  {
    var c := Collapse(Folded(v));
    CollapseShape(Folded(v));
    CollapseAlnums(Folded(v));
    TrimHyphensKeepsShape(c);
    TrimHyphens(c)
  }

  // ---------------------------------------------------------------------
  // The shape of a slug
  // ---------------------------------------------------------------------

  predicate InSlugAlphabet(s: string) {
    forall i :: 0 <= i < |s| ==> IsLowerAlnum(s[i]) || s[i] == '-'
  }

  predicate NoDoubleHyphen(s: string) {
    forall i :: 0 <= i < |s| - 1 ==> s[i] != '-' || s[i + 1] != '-'
  }

  /** Only [a-z0-9-], no '-' at either end, never "--". */
  predicate IsSlug(s: string) {
    && InSlugAlphabet(s)
    && NoDoubleHyphen(s)
    && (s != [] ==> s[0] != '-' && s[|s| - 1] != '-')
  }

  /** The [a-z0-9] characters of `s`, in order. */
  function Alnums(s: string): string {
    if s == [] then []
    else if IsLowerAlnum(s[0]) then [s[0]] + Alnums(s[1..])
    else Alnums(s[1..])
  }

  /** `s` with every '-' deleted. */
  function RemoveHyphens(s: string): string {
    if s == [] then []
    else if s[0] == '-' then RemoveHyphens(s[1..])
    else [s[0]] + RemoveHyphens(s[1..])
  }

  // ---------------------------------------------------------------------
  // Lemmas
  // ---------------------------------------------------------------------

  lemma {:induction false} AlnumsAppend(s: string, t: string)
    ensures Alnums(s + t) == Alnums(s) + Alnums(t)
  {
    if s == [] {
      assert s + t == t;
    } else {
      assert (s + t)[0] == s[0];
      assert (s + t)[1..] == s[1..] + t;
      AlnumsAppend(s[1..], t);
    }
  }

  /** SkipRun stops at the first [a-z0-9] character, or at the end. */
  lemma {:induction false} SkipRunShape(s: string)
    ensures SkipRun(s) == [] || IsLowerAlnum(SkipRun(s)[0])
  {
    if s != [] && !IsLowerAlnum(s[0]) {
      SkipRunShape(s[1..]);
    }
  }

  /** Collapse yields a string over [a-z0-9-] with no "--", empty exactly for
      empty input, and starting with '-' exactly when the input starts with a
      character outside [a-z0-9]. */
  lemma {:induction false} CollapseShape(s: string)
    ensures InSlugAlphabet(Collapse(s)) && NoDoubleHyphen(Collapse(s))
    ensures Collapse(s) == [] <==> s == []
    ensures Collapse(s) != [] ==> (Collapse(s)[0] == '-' <==> !IsLowerAlnum(s[0]))
    decreases |s|
  {
    if s != [] {
      if IsLowerAlnum(s[0]) {
        CollapseShape(s[1..]);
      } else {
        var rest := SkipRun(s[1..]);
        SkipRunShape(s[1..]);
        CollapseShape(rest);
      }
    }
  }

  lemma {:induction false} SkipRunAlnums(s: string)
    ensures Alnums(SkipRun(s)) == Alnums(s)
  {
    if s != [] && !IsLowerAlnum(s[0]) {
      SkipRunAlnums(s[1..]);
    }
  }

  /** Collapsing runs keeps every [a-z0-9] character, in order. */
  lemma {:induction false} CollapseAlnums(s: string)
    ensures Alnums(Collapse(s)) == Alnums(s)
    decreases |s|
  {
    if s != [] {
      if IsLowerAlnum(s[0]) {
        CollapseAlnums(s[1..]);
        assert Collapse(s) == [s[0]] + Collapse(s[1..]);
      } else {
        var rest := SkipRun(s[1..]);
        SkipRunAlnums(s[1..]);
        CollapseAlnums(rest);
        assert Collapse(s) == "-" + Collapse(rest);
        AlnumsAppend("-", Collapse(rest));
      }
    }
  }

  /** Removing one '-' from each end keeps the alphabet, keeps "no --", and
      leaves no '-' at either end because no two hyphens were adjacent. */
  lemma TrimHyphensKeepsShape(s: string)
    requires InSlugAlphabet(s) && NoDoubleHyphen(s)
    ensures IsSlug(TrimHyphens(s))
    ensures Alnums(TrimHyphens(s)) == Alnums(s)
  {
    var t := if |s| > 0 && s[0] == '-' then s[1..] else s;
    if |s| > 0 && s[0] == '-' {
      assert s == "-" + t;
      AlnumsAppend("-", t);
    }
    var u := if |t| > 0 && t[|t| - 1] == '-' then t[..|t| - 1] else t;
    if |t| > 0 && t[|t| - 1] == '-' {
      assert t == u + "-";
      AlnumsAppend(u, "-");
    }
    assert TrimHyphens(s) == u;
  }

  /** In the alphabet and without "--", a string is already collapsed. */
  lemma {:induction false} CollapseFixes(w: string)
    requires InSlugAlphabet(w) && NoDoubleHyphen(w)
    ensures Collapse(w) == w
  {
    if w != [] {
      var t := w[1..];
      assert InSlugAlphabet(t) && NoDoubleHyphen(t);
      CollapseFixes(t);
      if !IsLowerAlnum(w[0]) {
        assert t == [] || IsLowerAlnum(t[0]);
        assert SkipRun(t) == t;
      }
    }
  }

  lemma {:induction false} NfdFixes(w: string)
    requires forall i :: 0 <= i < |w| ==> w[i] < '\U{E0}'
    ensures Nfd(w) == w
  {
    if w != [] {
      NfdFixes(w[1..]);
    }
  }

  lemma {:induction false} StripMarksFixes(w: string)
    requires forall i :: 0 <= i < |w| ==> !IsCombiningMark(w[i])
    ensures StripMarks(w) == w
  {
    if w != [] {
      StripMarksFixes(w[1..]);
    }
  }

  /** Every stage is the identity on a slug. */
  lemma SlugFixed(w: string)
    requires IsSlug(w)
    ensures MakeSlug(w) == w
  {
    assert Lower(w) == w;
    NfdFixes(w);
    StripMarksFixes(w);
    assert Folded(w) == w;
    CollapseFixes(w);
  }

  /** makeSlug is idempotent. */
  lemma MakeSlugIdempotent(v: string)
    ensures MakeSlug(MakeSlug(v)) == MakeSlug(v)
  {
    SlugFixed(MakeSlug(v));
  }

  lemma {:induction false} RemoveHyphensIsAlnums(s: string)
    requires InSlugAlphabet(s)
    ensures RemoveHyphens(s) == Alnums(s)
  {
    if s != [] {
      RemoveHyphensIsAlnums(s[1..]);
    }
  }

  lemma {:induction false} AsciiUnchangedByNfd(s: string)
    requires IsAscii(s)
    ensures Folded(s) == Lower(s)
  {
    var l := Lower(s);
    NfdFixes(l);
    StripMarksFixes(l);
  }

  /** Deleting the hyphens of makeSlug(v) leaves exactly the [a-z0-9]
      characters of toLowerCase(v), in order, for ASCII input. */
  lemma MakeSlugKeepsAlnums(v: string)
    requires IsAscii(v)
    ensures RemoveHyphens(MakeSlug(v)) == Alnums(Lower(v))
  {
    RemoveHyphensIsAlnums(MakeSlug(v));
    AsciiUnchangedByNfd(v);
  }

  /** makeSlug yields "" exactly when the folded input holds no [a-z0-9]
      character (input of punctuation only, for one); it never rejects. */
  lemma MakeSlugEmptyIff(v: string)
    ensures MakeSlug(v) == [] <==> Alnums(Folded(v)) == []
  {
    var w := MakeSlug(v);
    if w != [] {
      assert IsLowerAlnum(w[0]);
      assert w == [w[0]] + w[1..];
      AlnumsAppend([w[0]], w[1..]);
    }
  }

  lemma {:induction false} NfdAppend(s: string, t: string)
    ensures Nfd(s + t) == Nfd(s) + Nfd(t)
  {
    if s == [] {
      assert s + t == t;
    } else {
      assert (s + t)[0] == s[0];
      assert (s + t)[1..] == s[1..] + t;
      NfdAppend(s[1..], t);
    }
  }

  lemma {:induction false} StripMarksAppend(s: string, t: string)
    ensures StripMarks(s + t) == StripMarks(s) + StripMarks(t)
  {
    if s == [] {
      assert s + t == t;
    } else {
      assert (s + t)[0] == s[0];
      assert (s + t)[1..] == s[1..] + t;
      StripMarksAppend(s[1..], t);
    }
  }

  /** A run of [a-z0-9] passes through Collapse unchanged. */
  lemma {:induction false} CollapseAlnumsFirst(a: string, t: string)
    requires forall i :: 0 <= i < |a| ==> IsLowerAlnum(a[i])
    ensures Collapse(a + t) == a + Collapse(t)
  {
    if a == [] {
      assert a + t == t;
    } else {
      var s := a + t;
      assert s[0] == a[0] && IsLowerAlnum(s[0]);
      assert s[1..] == a[1..] + t;
      assert Collapse(s) == [a[0]] + Collapse(a[1..] + t);
      CollapseAlnumsFirst(a[1..], t);
      assert a == [a[0]] + a[1..];
    }
  }

  /** A whole run of other characters becomes one '-'. */
  lemma CollapseRunFirst(b: string, t: string)
    requires b != [] && forall i :: 0 <= i < |b| ==> !IsLowerAlnum(b[i])
    requires t == [] || IsLowerAlnum(t[0])
    ensures Collapse(b + t) == "-" + Collapse(t)
  {
    assert (b + t)[0] == b[0];
    assert (b + t)[1..] == b[1..] + t;
    SkipRunPast(b[1..], t);
  }

  lemma {:induction false} SkipRunPast(b: string, t: string)
    requires forall i :: 0 <= i < |b| ==> !IsLowerAlnum(b[i])
    requires t == [] || IsLowerAlnum(t[0])
    ensures SkipRun(b + t) == t
  {
    if b == [] {
      assert b + t == t;
    } else {
      assert (b + t)[0] == b[0];
      assert (b + t)[1..] == b[1..] + t;
      SkipRunPast(b[1..], t);
    }
  }

  lemma LowerAppend(s: string, t: string)
    ensures Lower(s + t) == Lower(s) + Lower(t)
  {
  }

  lemma FoldedAppend(s: string, t: string)
    ensures Folded(s + t) == Folded(s) + Folded(t)
  {
    LowerAppend(s, t);
    NfdAppend(Lower(s), Lower(t));
    StripMarksAppend(Nfd(Lower(s)), Nfd(Lower(t)));
  }

  /** Three words separated and followed by runs of other characters. */
  lemma CollapseThreeWords(a: string, p: string, b: string, q: string, c: string, r: string)
    requires a != [] && b != [] && c != []
    requires forall i :: 0 <= i < |a| ==> IsLowerAlnum(a[i])
    requires forall i :: 0 <= i < |b| ==> IsLowerAlnum(b[i])
    requires forall i :: 0 <= i < |c| ==> IsLowerAlnum(c[i])
    requires p != [] && forall i :: 0 <= i < |p| ==> !IsLowerAlnum(p[i])
    requires q != [] && forall i :: 0 <= i < |q| ==> !IsLowerAlnum(q[i])
    requires r != [] && forall i :: 0 <= i < |r| ==> !IsLowerAlnum(r[i])
    ensures Collapse(a + (p + (b + (q + (c + r))))) == a + ("-" + (b + ("-" + (c + "-"))))
  {
    CollapseRunFirst(r, []);
    assert r + [] == r;
    CollapseAlnumsFirst(c, r);
    CollapseRunFirst(q, c + r);
    CollapseAlnumsFirst(b, q + (c + r));
    CollapseRunFirst(p, b + (q + (c + r)));
    CollapseAlnumsFirst(a, p + (b + (q + (c + r))));
  }

  /** A sample album title, "Eu & Você 2025!", written as its words and
      separators. */
  const ExampleTitle: string := "Eu" + (" & " + ("Voc\U{EA}" + (" " + ("2025" + "!"))))

  lemma ExampleAccented()
    ensures Folded("Voc\U{EA}") == "voce"
  {
    FoldedAppend("Voc", "\U{EA}");
    assert "Voc" + "\U{EA}" == "Voc\U{EA}";
    assert Folded("\U{EA}") == "e";
    assert Folded("Voc") == "voc";
  }

  lemma ExampleAscii()
    ensures Folded("Eu" + " & ") == "eu" + " & "
    ensures Folded(" " + ("2025" + "!")) == " " + ("2025" + "!")
  {
    AsciiUnchangedByNfd("Eu" + " & ");
    AsciiUnchangedByNfd(" " + ("2025" + "!"));
    assert Lower("Eu" + " & ") == "eu" + " & ";
    assert Lower(" " + ("2025" + "!")) == " " + ("2025" + "!");
  }

  lemma ExampleFolded()
    ensures Folded(ExampleTitle) == "eu" + (" & " + ("voce" + (" " + ("2025" + "!"))))
  {
    var tail := " " + ("2025" + "!");
    var rest := "Voc\U{EA}" + tail;
    assert Folded(rest) == "voce" + tail by {
      ExampleAscii();
      ExampleAccented();
      FoldedAppend("Voc\U{EA}", tail);
    }
    assert ExampleTitle == ("Eu" + " & ") + rest;
    ExampleAscii();
    FoldedAppend("Eu" + " & ", rest);
  }

  /** The ampersand and the punctuation become separators, the circumflex is
      dropped, and the trailing separator is trimmed: "eu-voce-2025". */
  lemma PortugueseTitleExample()
    ensures MakeSlug(ExampleTitle) == "eu" + ("-" + ("voce" + ("-" + "2025")))
  {
    ExampleFolded();
    CollapseThreeWords("eu", " & ", "voce", " ", "2025", "!");
    var c := "eu" + ("-" + ("voce" + ("-" + ("2025" + "-"))));
    assert c[1..][|c[1..]| - 1] == '-';
  }

  /** The example of the album form's title placeholder, "Eu & Você 💛",
      written as its words and separators. */
  const PlaceholderTitle: string := "Eu" + (" & " + ("Voc\U{EA}" + " \U{1F49B}"))

  /** The heart is neither an upper-case letter, nor decomposable, nor a mark. */
  lemma PlaceholderHeart()
    ensures Folded(" \U{1F49B}") == " \U{1F49B}"
  {
    var heart := " \U{1F49B}";
    assert Lower(heart) == heart;
    assert '\U{1F49B}' !in Decompositions;
    assert Nfd(heart[1..]) == heart[1..];
    assert Nfd(heart) == heart;
    StripMarksFixes(heart);
  }

  lemma PlaceholderTail()
    ensures Folded("Voc\U{EA}" + " \U{1F49B}") == "voce" + " \U{1F49B}"
  {
    PlaceholderHeart();
    ExampleAccented();
    FoldedAppend("Voc\U{EA}", " \U{1F49B}");
  }

  lemma PlaceholderFolded()
    ensures Folded(PlaceholderTitle) == "eu" + (" & " + ("voce" + " \U{1F49B}"))
  {
    var rest := "Voc\U{EA}" + " \U{1F49B}";
    PlaceholderTail();
    ExampleAscii();
    assert PlaceholderTitle == ("Eu" + " & ") + rest;
    FoldedAppend("Eu" + " & ", rest);
  }

  /** The heart becomes a separator like the ampersand, and the trailing
      separator is trimmed: "eu-voce". */
  lemma PlaceholderExample()
    ensures MakeSlug(PlaceholderTitle) == "eu" + ("-" + "voce")
  {
    PlaceholderFolded();
    var heart := " \U{1F49B}";
    CollapseRunFirst(heart, []);
    assert heart + [] == heart;
    CollapseAlnumsFirst("voce", heart);
    CollapseRunFirst(" & ", "voce" + heart);
    CollapseAlnumsFirst("eu", " & " + ("voce" + heart));
    var c := "eu" + ("-" + ("voce" + "-"));
    assert Collapse(Folded(PlaceholderTitle)) == c;
    assert c[|c| - 1] == '-';
    assert c[..|c| - 1] == "eu" + ("-" + "voce");
  }
}
