/** The three regular-expression replacements that turn the subtitle HTML of the
    legacy player into the plain string handed to the overlay: `<br>` becomes a
    line break, every tag `<…>` is removed, and every run of white space becomes one
    space. */
module Flatten {
  import opened Text

  /** `s.replace(/pat/g, rep)` for a literal, non-empty pattern: the occurrences are
      replaced from left to right, none overlapping the previous one. */
  function ReplaceAll(s: string, pat: string, rep: string): (r: string)
    requires |pat| > 0
    decreases |s|
  {
    match Find(s, pat)
    case None => s
    case Some(k) => s[..k] + rep + ReplaceAll(s[k + |pat|..], pat, rep)
  }

  /** A string without `pat` is left alone. */
  lemma ReplaceAllAbsent(s: string, pat: string, rep: string)
    requires |pat| > 0
    requires forall j :: !OccursAt(s, pat, j)
    ensures ReplaceAll(s, pat, rep) == s
  {
  }

  /** `s.replace(/<[^>]*>/g, "")`: at each `<` that has a `>` somewhere after it,
      everything up to and including the first such `>` is dropped; a `<` with no
      `>` after it stays. */
  function StripTags(s: string): (r: string)
    ensures forall c :: c in r ==> c in s
    decreases |s|
  {
    if |s| == 0 then ""
    else if s[0] == '<' && '>' in s[1..] then
      var k := IndexOf(s[1..], '>');
      StripTags(s[k + 2..])
    else [s[0]] + StripTags(s[1..])
  }

  /** No `<` is followed, anywhere later, by a `>`: no tag is left. */
  predicate NoTag(s: string) {
    forall i, j :: 0 <= i < j < |s| && s[i] == '<' ==> s[j] != '>'
  }

  lemma {:induction false} StripTagsLeavesNoTag(s: string)
    ensures NoTag(StripTags(s))
    decreases |s|
  {
    if |s| == 0 {
    } else if s[0] == '<' && '>' in s[1..] {
      var k := IndexOf(s[1..], '>');
      StripTagsLeavesNoTag(s[k + 2..]);
    } else {
      StripTagsLeavesNoTag(s[1..]);
      NoTagCons(s[0], StripTags(s[1..]));
    }
  }

  /** Text without `<` passes through unchanged. */
  lemma {:induction false} StripTagsKeepsText(text: string, rest: string)
    requires '<' !in text
    ensures StripTags(text + rest) == text + StripTags(rest)
    decreases |text|
  {
    if |text| == 0 {
      assert text + rest == rest;
    } else {
      var s := text + rest;
      assert s[0] == text[0] && s[0] != '<';
      assert s[1..] == text[1..] + rest;
      assert StripTags(s) == [text[0]] + StripTags(text[1..] + rest);
      StripTagsKeepsText(text[1..], rest);
      var t := StripTags(text[1..] + rest);
      assert t == text[1..] + StripTags(rest);
      assert [text[0]] + t == text + StripTags(rest);
    }
  }

  /** A tag `<…>` with no `>` inside disappears. */
  lemma StripTagsDropsTag(inner: string, rest: string)
    requires '>' !in inner
    ensures StripTags("<" + inner + ">" + rest) == StripTags(rest)
  {
    var s := "<" + inner + ">" + rest;
    assert s[1..] == inner + ">" + rest;
    assert s[1..][|inner|] == '>';
    assert forall i :: 0 <= i < |inner| ==> s[1..][i] == inner[i];
    assert IndexOf(s[1..], '>') == |inner|;
    assert s[|inner| + 2..] == rest;
  }

  /** The string after a run of white space at its start. */
  function DropSpaces(s: string): (r: string)
    ensures |r| < |s| || (r == s && (s == [] || !IsJsSpace(s[0])))
  {
    SkipSpacesStops(s, 0);
    s[SkipSpaces(s, 0)..]
  }

  /** `s.replace(/\s+/g, " ")`: every maximal run of white space becomes one space. */
  function Collapse(s: string): (r: string)
    ensures |s| > 0 ==> |r| > 0 && (r[0] == ' ' <==> IsJsSpace(s[0]))
    ensures forall c :: c in r && c != ' ' ==> c in s
    decreases |s|
  {
    if |s| == 0 then ""
    else if IsJsSpace(s[0]) then
      var rest := DropSpaces(s);
      SkipSpacesStops(s, 0);
      assert |rest| < |s|;
      assert forall c :: c in rest ==> c in s;
      " " + Collapse(rest)
    else [s[0]] + Collapse(s[1..])
  }

  /** The only white space left is the plain space, never two in a row. */
  predicate Collapsed(r: string) {
    (forall i :: 0 <= i < |r| ==> r[i] == ' ' || !IsJsSpace(r[i]))
    && (forall i :: 0 <= i < |r| - 1 ==> !(r[i] == ' ' && r[i + 1] == ' '))
  }

  lemma {:induction false} CollapseIsCollapsed(s: string)
    ensures Collapsed(Collapse(s))
    decreases |s|
  {
    if |s| == 0 {
    } else if IsJsSpace(s[0]) {
      var rest := DropSpaces(s);
      SkipSpacesStops(s, 0);
      CollapseIsCollapsed(rest);
      var r := " " + Collapse(rest);
      assert r == Collapse(s);
      assert forall i :: 1 <= i < |r| ==> r[i] == Collapse(rest)[i - 1];
    } else {
      CollapseIsCollapsed(s[1..]);
      var r := [s[0]] + Collapse(s[1..]);
      assert r == Collapse(s);
      assert forall i :: 1 <= i < |r| ==> r[i] == Collapse(s[1..])[i - 1];
    }
  }

  /** A suffix of a string without tags has none. */
  lemma NoTagSuffix(s: string, k: nat)
    requires NoTag(s) && k <= |s|
    ensures NoTag(s[k..])
  {
    forall i, j | 0 <= i < j < |s| - k && s[k..][i] == '<' ensures s[k..][j] != '>' {
      assert s[k..][i] == s[k + i] && s[k..][j] == s[k + j];
    }
  }

  /** A character put in front of a string without tags adds none, unless it
      is a `<` with a `>` after it. */
  lemma NoTagCons(c: char, t: string)
    requires NoTag(t) && (c == '<' ==> '>' !in t)
    ensures NoTag([c] + t)
  {
    var r := [c] + t;
    forall i, j | 0 <= i < j < |r| && r[i] == '<' ensures r[j] != '>' {
      assert r[j] == t[j - 1];
      if i > 0 {
        assert r[i] == t[i - 1];
      }
    }
  }

  /** Collapsing white space keeps the order of the other characters, so it
      cannot put a `>` after a `<` that had none. */
  lemma {:induction false} CollapseKeepsNoTag(s: string)
    requires NoTag(s)
    ensures NoTag(Collapse(s))
    decreases |s|
  {
    if |s| == 0 {
    } else if IsJsSpace(s[0]) {
      SkipSpacesStops(s, 0);
      NoTagSuffix(s, SkipSpaces(s, 0));
      CollapseKeepsNoTag(DropSpaces(s));
      NoTagCons(' ', Collapse(DropSpaces(s)));
    } else {
      NoTagSuffix(s, 1);
      CollapseKeepsNoTag(s[1..]);
      if s[0] == '<' {
        assert forall j :: 1 <= j < |s| ==> s[j] != '>';
        assert '>' !in s[1..];
      }
      NoTagCons(s[0], Collapse(s[1..]));
    }
  }

  /** The whole flattening: `<br>` to a line break, tags removed, white space
      collapsed. */
  function FlattenHtml(html: string): string {
    Collapse(StripTags(ReplaceAll(html, "<br>", "\n")))
  }

  /** The flattened string holds no line break and no tag, and never two spaces in
      a row. */
  lemma FlattenIsFlat(html: string)
    ensures Collapsed(FlattenHtml(html))
    ensures '\n' !in FlattenHtml(html)
    ensures NoTag(FlattenHtml(html))
  {
    var stripped := StripTags(ReplaceAll(html, "<br>", "\n"));
    CollapseIsCollapsed(stripped);
    StripTagsLeavesNoTag(ReplaceAll(html, "<br>", "\n"));
    CollapseKeepsNoTag(stripped);
    var r := FlattenHtml(html);
    assert '\n' in JsSpaces;
    forall i | 0 <= i < |r| ensures r[i] != '\n' {
    }
  }
}
