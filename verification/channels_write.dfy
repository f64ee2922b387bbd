/** The output side of the channel-menu generator: the menu written as the text of
    a JavaScript object literal, and that text spliced into the target file
    between the `// CHANNELS BEGIN` and `// CHANNELS END` markers. String values
    are written as single-quoted JavaScript literals, unescaped by the generator
    as written and escaped by the corrected one; `ReadLiteral` is how
    JavaScript reads one back. */
module ChannelsWrite {
  import opened Text
  import opened ChannelsNames
  import opened ChannelsMenu

  // ---------------------------------------------------------------------------
  // Single-quoted literals
  // ---------------------------------------------------------------------------

  /** A value as the generator writes it: between single quotes, unescaped. */
  function LiteralAsWritten(v: string): string {
    "'" + v + "'"
  }

  /** The escape of one character inside a single-quoted literal. */
  function EscapeChar(c: char): string {
    if c == '\\' then "\\\\"
    else if c == '\'' then "\\'"
    else if c == '\n' then "\\n"
    else if c == '\r' then "\\r"
    else [c]
  }

  function Escape(v: string): string
    decreases |v|
  {
    if |v| == 0 then "" else EscapeChar(v[0]) + Escape(v[1..])
  }

  /** A value as a single-quoted literal with the backslash, the quote and the
      line terminators escaped. */
  function Literal(v: string): string {
    "'" + Escape(v) + "'"
  }

  /** A value as the generator `g` writes it. */
  function Quote(g: Generator, v: string): string {
    if g == AsWritten then LiteralAsWritten(v) else Literal(v)
  }

  /** The character a JavaScript escape sequence `\c` stands for. The escapes
      with digits, `x` or `u`, and a backslash before a line terminator, are not
      read here. */
  function Unescape(c: char): Option<char> {
    if c == 'n' then Some('\n')
    else if c == 'r' then Some('\r')
    else if c == 't' then Some('\t')
    else if c == 'b' then Some('\U{0008}')
    else if c == 'f' then Some('\U{000C}')
    else if c == 'v' then Some('\U{000B}')
    else if IsDigit(c) || c == 'x' || c == 'u' || c == '\n' || c == '\r' then None
    else Some(c)
  }

  /** The rest of a single-quoted literal after its opening quote: its value
      and the text after the closing quote, or `None` when the literal is not
      closed on its line. */
  function ReadBody(s: string): (r: Option<(string, string)>)
    ensures r.Some? ==> |r.value.1| < |s|
    decreases |s|
  {
    if |s| == 0 || s[0] == '\n' || s[0] == '\r' then None
    else if s[0] == '\'' then Some(("", s[1..]))
    else if s[0] == '\\' then
      if |s| < 2 then None
      else match Unescape(s[1])
        case None => None
        case Some(c) =>
          match ReadBody(s[2..])
          case None => None
          case Some(p) => Some(([c] + p.0, p.1))
    else
      match ReadBody(s[1..])
      case None => None
      case Some(p) => Some(([s[0]] + p.0, p.1))
  }

  /** A single-quoted literal at the start of `s`: its value and the text after
      it. */
  function ReadLiteral(s: string): (r: Option<(string, string)>)
    ensures r.Some? ==> |r.value.1| < |s|
  {
    if |s| > 0 && s[0] == '\'' then ReadBody(s[1..]) else None
  }

  lemma {:induction false} ReadEscaped(v: string, rest: string)
    ensures ReadBody(Escape(v) + "'" + rest) == Some((v, rest))
    decreases |v|
  {
    if |v| == 0 {
      assert Escape(v) + "'" + rest == "'" + rest;
    } else {
      ReadEscaped(v[1..], rest);
      var tail := Escape(v[1..]) + "'" + rest;
      assert Escape(v) + "'" + rest == EscapeChar(v[0]) + tail;
      ReadEscapedChar(v[0], tail);
      assert [v[0]] + v[1..] == v;
    }
  }

  /** An escaped character in front of a literal's body adds that character
      to the value read. */
  lemma ReadEscapedChar(c: char, tail: string)
    requires ReadBody(tail).Some?
    ensures ReadBody(EscapeChar(c) + tail)
      == Some(([c] + ReadBody(tail).value.0, ReadBody(tail).value.1))
  {
    var s := EscapeChar(c) + tail;
    if c in {'\\', '\'', '\n', '\r'} {
      assert s[2..] == tail;
    } else {
      assert s[1..] == tail;
    }
  }

  /** Every value, whatever it holds, reads back from its literal, and reading
      stops right after the literal. */
  lemma LiteralRoundTrip(v: string, rest: string)
    ensures ReadLiteral(Literal(v) + rest) == Some((v, rest))
  {
    ReadEscaped(v, rest);
    assert (Literal(v) + rest)[1..] == Escape(v) + "'" + rest;
  }

  /** As written, a value holding a quote ends its literal early: `it's` reads
      back as `it`, followed by text that is not JavaScript. */
  lemma LiteralAsWrittenBreaks()
    ensures ReadLiteral(LiteralAsWritten("it's") + ",") == Some(("it", "s',"))
  {
    var s := LiteralAsWritten("it's") + ",";
    assert s == "'it's',";
    assert s[1..] == "it's',";
    assert "it's',"[1..] == "t's',";
    assert "t's',"[1..] == "'s',";
    assert "'s',"[1..] == "s',";
    assert ReadBody("'s',") == Some(("", "s',"));
    assert ['t'] + "" == "t" && ['i'] + "t" == "it";
    assert ReadBody("t's',") == Some(("t", "s',"));
    assert ReadBody("it's',") == Some(("it", "s',"));
  }

  /** A value with no backslash, quote or line terminator is written the same
      either way. */
  lemma {:induction false} LiteralsAgree(v: string)
    requires PlainValue(v)
    ensures Literal(v) == LiteralAsWritten(v)
    ensures Escape(v) == v
    decreases |v|
  {
    if |v| > 0 {
      LiteralsAgree(v[1..]);
      assert [v[0]] + v[1..] == v;
    }
  }

  // ---------------------------------------------------------------------------
  // The menu as JavaScript text
  // ---------------------------------------------------------------------------

  /** One property line of an item. */
  function Field(g: Generator, name: string, v: string): string {
    "        " + name + ": " + Quote(g, v) + ",\n"
  }

  /** An optional property line: written only when the value is not empty. */
  function OptField(g: Generator, name: string, v: string): string {
    if v == "" then "" else Field(g, name, v)
  }

  const ItemEnd := "      },\n"

  function ItemText(g: Generator, it: GoItem): string {
    "      {\n" + Field(g, "label", it.text) + Field(g, "action", it.action)
      + OptField(g, "target", it.target) + OptField(g, "video", it.video)
      + OptField(g, "audio", it.audio) + OptField(g, "subtitles", it.subtitles)
      + ItemEnd
  }

  function ItemsText(g: Generator, items: seq<GoItem>): string
    decreases |items|
  {
    if |items| == 0 then "" else ItemsText(g, items[..|items| - 1]) + ItemText(g, items[|items| - 1])
  }

  /** The lines of a screen before its items. The key is written bare, as a
      property name. */
  function ScreenHead(g: Generator, s: GoScreen): string {
    "  " + s.key + ": {\n" + "    header: " + Quote(g, s.header) + ",\n" + "    items: [\n"
  }

  const ScreenTail := "    ],\n  },\n"

  function ScreenText(g: Generator, s: GoScreen): string {
    ScreenHead(g, s) + ItemsText(g, s.items) + ScreenTail
  }

  function MenuText(g: Generator, menu: seq<GoScreen>): string
    decreases |menu|
  {
    if |menu| == 0 then "" else MenuText(g, menu[..|menu| - 1]) + ScreenText(g, menu[|menu| - 1])
  }

  lemma AppendAssoc(a: string, b: string, c: string)
    ensures a + b + c == a + (b + c)
  {
  }

  /** The serialisation loop of `main`: each screen, and within it each item,
      is appended to the builder in turn. */
  method Serialise(g: Generator, menu: seq<GoScreen>) returns (data: string)
    ensures data == MenuText(g, menu)
  {
    data := "";
    for i := 0 to |menu|
      invariant data == MenuText(g, menu[..i])
    {
      assert menu[..i + 1][..i] == menu[..i];
      data := WriteScreen(g, data, menu[i]);
    }
    assert menu[..|menu|] == menu;
  }

  /** The lines of one screen appended to the builder. */
  method WriteScreen(g: Generator, data: string, s: GoScreen) returns (out: string)
    ensures out == data + ScreenText(g, s)
  {
    var head := data + ScreenHead(g, s);
    out := head;
    for j := 0 to |s.items|
      invariant out == head + ItemsText(g, s.items[..j])
    {
      ItemsTextStep(g, s.items, j);
      AppendAssoc(head, ItemsText(g, s.items[..j]), ItemText(g, s.items[j]));
      out := WriteItem(g, out, s.items[j]);
    }
    assert s.items[..|s.items|] == s.items;
    ScreenAppended(g, data, s, out);
    out := out + ScreenTail;
  }

  /** One more item adds its lines after those of the items before it. */
  lemma ItemsTextStep(g: Generator, items: seq<GoItem>, j: nat)
    requires j < |items|
    ensures ItemsText(g, items[..j + 1]) == ItemsText(g, items[..j]) + ItemText(g, items[j])
  {
    assert items[..j + 1][..j] == items[..j];
  }

  /** The screen's lines are its head, its items and its tail, in that order. */
  lemma ScreenAppended(g: Generator, data: string, s: GoScreen, out: string)
    requires out == data + ScreenHead(g, s) + ItemsText(g, s.items)
    ensures out + ScreenTail == data + ScreenText(g, s)
  {
    AppendAssoc(data, ScreenHead(g, s), ItemsText(g, s.items));
    AppendAssoc(data, ScreenHead(g, s) + ItemsText(g, s.items), ScreenTail);
  }

  /** The lines of one item appended to the builder: the label and action
      always, the other properties only when not empty. */
  method WriteItem(g: Generator, data: string, it: GoItem) returns (out: string)
    ensures out == data + ItemText(g, it)
  {
    ghost var lines := "      {\n";
    out := data + "      {\n";
    AppendAssoc(data, lines, Field(g, "label", it.text));
    out := out + Field(g, "label", it.text);
    lines := lines + Field(g, "label", it.text);
    AppendAssoc(data, lines, Field(g, "action", it.action));
    out := out + Field(g, "action", it.action);
    lines := lines + Field(g, "action", it.action);
    out := AppendOpt(g, data, lines, out, "target", it.target);
    lines := lines + OptField(g, "target", it.target);
    out := AppendOpt(g, data, lines, out, "video", it.video);
    lines := lines + OptField(g, "video", it.video);
    out := AppendOpt(g, data, lines, out, "audio", it.audio);
    lines := lines + OptField(g, "audio", it.audio);
    out := AppendOpt(g, data, lines, out, "subtitles", it.subtitles);
    lines := lines + OptField(g, "subtitles", it.subtitles);
    AppendAssoc(data, lines, ItemEnd);
    out := out + ItemEnd;
  }

  /** An optional property line appended to the builder when its value is not
      empty. */
  method AppendOpt(g: Generator, ghost data: string, ghost lines: string, out: string, name: string, v: string)
    returns (out': string)
    requires out == data + lines
    ensures out' == data + (lines + OptField(g, name, v))
  {
    if v != "" {
      var f := Field(g, name, v);
      assert OptField(g, name, v) == f;
      AppendAssoc(data, lines, f);
      out' := out + f;
    } else {
      out' := out;
      assert lines + OptField(g, name, v) == lines;
    }
  }

  // ---------------------------------------------------------------------------
  // Reading an item back
  // ---------------------------------------------------------------------------

  /** The item with property `name` set to `v`; `None` for an unknown name. */
  function SetField(it: GoItem, name: string, v: string): Option<GoItem> {
    if name == "label" then Some(it.(text := v))
    else if name == "action" then Some(it.(action := v))
    else if name == "target" then Some(it.(target := v))
    else if name == "video" then Some(it.(video := v))
    else if name == "audio" then Some(it.(audio := v))
    else if name == "subtitles" then Some(it.(subtitles := v))
    else None
  }

  /** The property lines of an item up to its closing line, as JavaScript
      reads them: each property sets its field, and absent ones stay empty. */
  function ReadFields(s: string, it: GoItem): Option<(GoItem, string)>
    decreases |s|
  {
    if StartsWith(s, ItemEnd) then Some((it, s[|ItemEnd|..]))
    else if !StartsWith(s, "        ") then None
    else
      var t := s[8..];
      var k := IndexOf(t, ':');
      if k < 0 || !StartsWith(t[k + 1..], " ") then None
      else match ReadLiteral(t[k + 2..])
        case None => None
        case Some(p) =>
          if !StartsWith(p.1, ",\n") then None
          else match SetField(it, t[..k], p.0)
            case None => None
            case Some(it') => ReadFields(p.1[2..], it')
  }

  const NoItem := GoItem("", "", "", "", "", "")

  /** An item at the start of `s`, and the text after it. */
  function ReadItem(s: string): Option<(GoItem, string)> {
    if StartsWith(s, "      {\n") then ReadFields(s[8..], NoItem) else None
  }

  /** The first `c` after a prefix without one is right after the prefix. */
  lemma IndexAfter(a: string, c: char, b: string)
    requires c !in a
    ensures IndexOf(a + [c] + b, c) == |a|
  {
    var s := a + [c] + b;
    assert s[|a|] == c;
    assert s[..|a|] == a;
  }

  /** How a property line divides: the indent, the name up to the first colon,
      a space, and the value's literal `lit` with the rest of the text after
      it. */
  lemma LineParts(name: string, lit: string, rest: string)
    requires ':' !in name
    ensures var s := "        " + name + ": " + lit + ",\n" + rest;
      !StartsWith(s, ItemEnd) && StartsWith(s, "        ")
      && IndexOf(s[8..], ':') == |name| && s[8..][..|name|] == name
      && StartsWith(s[8..][|name| + 1..], " ")
      && s[8..][|name| + 2..] == lit + (",\n" + rest)
  {
    var after := lit + (",\n" + rest);
    var t := name + [':'] + (" " + after);
    var s := "        " + name + ": " + lit + ",\n" + rest;
    LineIndent(t, s);
    IndexAfter(name, ':', " " + after);
    NameParts(name, after);
  }

  lemma LineIndent(t: string, s: string)
    requires s == "        " + t
    ensures !StartsWith(s, ItemEnd) && StartsWith(s, "        ") && s[8..] == t
  {
    assert s[6] == ' ';
  }

  lemma NameParts(name: string, after: string)
    ensures var t := name + [':'] + (" " + after);
      t[..|name|] == name && StartsWith(t[|name| + 1..], " ") && t[|name| + 2..] == after
  {
    var t := name + [':'] + (" " + after);
    assert t[..|name|] == name;
    assert t[|name| + 1..] == " " + after;
    assert t[|name| + 2..] == after;
  }

  /** Reading one property line sets that property. */
  lemma ReadField(name: string, v: string, rest: string, it: GoItem)
    requires name in {"label", "action", "target", "video", "audio", "subtitles"}
    ensures ReadFields(Field(Corrected, name, v) + rest, it) == ReadFields(rest, SetField(it, name, v).value)
  {
    assert ':' !in name && SetField(it, name, v).Some?;
    ReadLine(name, v, rest, it);
  }

  /** A property line whose name has no colon and names a field is read back
      into that field. */
  lemma ReadLine(name: string, v: string, rest: string, it: GoItem)
    requires ':' !in name && SetField(it, name, v).Some?
    ensures ReadFields(Field(Corrected, name, v) + rest, it) == ReadFields(rest, SetField(it, name, v).value)
  {
    var s := Field(Corrected, name, v) + rest;
    assert s == "        " + name + ": " + Literal(v) + ",\n" + rest;
    LineParts(name, Literal(v), rest);
    LiteralRoundTrip(v, ",\n" + rest);
    ReadFieldsStep(s, it, name, v, rest);
  }

  /** One step of `ReadFields`: a property line naming a field, with its
      literal followed by a comma and a newline. */
  lemma ReadFieldsStep(s: string, it: GoItem, name: string, v: string, after: string)
    requires !StartsWith(s, ItemEnd) && StartsWith(s, "        ")
    requires IndexOf(s[8..], ':') == |name| && s[8..][..|name|] == name
    requires StartsWith(s[8..][|name| + 1..], " ")
    requires ReadLiteral(s[8..][|name| + 2..]) == Some((v, ",\n" + after))
    requires SetField(it, name, v).Some?
    ensures ReadFields(s, it) == ReadFields(after, SetField(it, name, v).value)
  {
    assert StartsWith(",\n" + after, ",\n");
    assert (",\n" + after)[2..] == after;
  }

  /** An optional property line, present or not, leaves the property as it
      was written. */
  lemma ReadOptField(name: string, v: string, rest: string, it: GoItem)
    requires name in {"target", "video", "audio", "subtitles"}
    requires SetField(it, name, "").value == it
    ensures ReadFields(OptField(Corrected, name, v) + rest, it) == ReadFields(rest, SetField(it, name, v).value)
  {
    if v != "" {
      ReadField(name, v, rest, it);
    } else {
      assert OptField(Corrected, name, v) + rest == rest;
    }
  }

  lemma Regroup(a: string, b: string, c: string, d: string, e: string, f: string, g: string, h: string, rest: string)
    ensures a + b + c + d + e + f + g + h + rest == a + (b + (c + (d + (e + (f + (g + (h + rest)))))))
  {
  }

  /** The audio and subtitles lines, and the closing line, read back. */
  lemma LastFieldsRoundTrip(it: GoItem, rest: string)
    ensures ReadFields(OptField(Corrected, "audio", it.audio) + (OptField(Corrected, "subtitles", it.subtitles) + (ItemEnd + rest)),
                       it.(audio := "", subtitles := ""))
            == Some((it, rest))
  {
    var f7 := ItemEnd + rest;
    var i5 := it.(subtitles := "");
    ReadOptField("audio", it.audio, OptField(Corrected, "subtitles", it.subtitles) + f7, it.(audio := "", subtitles := ""));
    ReadOptField("subtitles", it.subtitles, f7, i5);
    assert StartsWith(f7, ItemEnd);
    assert f7[|ItemEnd|..] == rest;
  }

  /** The target and video lines, and everything after them, read back. */
  lemma MiddleFieldsRoundTrip(it: GoItem, rest: string)
    ensures ReadFields(OptField(Corrected, "target", it.target) + (OptField(Corrected, "video", it.video) + (OptField(Corrected, "audio", it.audio)
              + (OptField(Corrected, "subtitles", it.subtitles) + (ItemEnd + rest)))),
                       it.(target := "", video := "", audio := "", subtitles := ""))
            == Some((it, rest))
  {
    var f5 := OptField(Corrected, "audio", it.audio) + (OptField(Corrected, "subtitles", it.subtitles) + (ItemEnd + rest));
    var i3 := it.(video := "", audio := "", subtitles := "");
    ReadOptField("target", it.target, OptField(Corrected, "video", it.video) + f5, it.(target := "", video := "", audio := "", subtitles := ""));
    ReadOptField("video", it.video, f5, i3);
    LastFieldsRoundTrip(it, rest);
  }

  /** The property lines of an item, up to and including its closing line,
      read back as the item. */
  lemma FieldsRoundTrip(it: GoItem, rest: string)
    ensures ReadFields(Field(Corrected, "label", it.text) + (Field(Corrected, "action", it.action) + (OptField(Corrected, "target", it.target)
              + (OptField(Corrected, "video", it.video) + (OptField(Corrected, "audio", it.audio) + (OptField(Corrected, "subtitles", it.subtitles)
              + (ItemEnd + rest)))))), NoItem)
            == Some((it, rest))
  {
    var f3 := OptField(Corrected, "target", it.target) + (OptField(Corrected, "video", it.video) + (OptField(Corrected, "audio", it.audio)
              + (OptField(Corrected, "subtitles", it.subtitles) + (ItemEnd + rest))));
    var f2 := Field(Corrected, "action", it.action) + f3;
    var i1 := NoItem.(text := it.text);
    ReadField("label", it.text, f2, NoItem);
    ReadField("action", it.action, f3, i1);
    assert i1.(action := it.action) == it.(target := "", video := "", audio := "", subtitles := "");
    MiddleFieldsRoundTrip(it, rest);
  }

  /** Every item reads back from its text, and reading stops right after it:
      leaving out the empty properties loses nothing. */
  lemma ItemRoundTrip(it: GoItem, rest: string)
    ensures ReadItem(ItemText(Corrected, it) + rest) == Some((it, rest))
  {
    var f1 := Field(Corrected, "label", it.text) + (Field(Corrected, "action", it.action) + (OptField(Corrected, "target", it.target)
              + (OptField(Corrected, "video", it.video) + (OptField(Corrected, "audio", it.audio) + (OptField(Corrected, "subtitles", it.subtitles)
              + (ItemEnd + rest))))));
    Regroup("      {\n", Field(Corrected, "label", it.text), Field(Corrected, "action", it.action), OptField(Corrected, "target", it.target),
      OptField(Corrected, "video", it.video), OptField(Corrected, "audio", it.audio), OptField(Corrected, "subtitles", it.subtitles), ItemEnd, rest);
    assert ItemText(Corrected, it) + rest == "      {\n" + f1;
    assert (ItemText(Corrected, it) + rest)[8..] == f1;
    FieldsRoundTrip(it, rest);
  }

  /** A value the generator as written quotes the same as the corrected one. */
  predicate PlainValue(v: string) {
    forall i :: 0 <= i < |v| ==> v[i] !in {'\\', '\'', '\n', '\r'}
  }

  /** An item whose values hold no backslash, quote or line terminator is
      written the same by both generators. */
  lemma ItemTextsAgree(it: GoItem)
    requires PlainValue(it.text) && PlainValue(it.action) && PlainValue(it.target)
    requires PlainValue(it.video) && PlainValue(it.audio) && PlainValue(it.subtitles)
    ensures ItemText(AsWritten, it) == ItemText(Corrected, it)
  {
    LiteralsAgree(it.text);
    LiteralsAgree(it.action);
    LiteralsAgree(it.target);
    LiteralsAgree(it.video);
    LiteralsAgree(it.audio);
    LiteralsAgree(it.subtitles);
  }

  /** As written, an item reads back from its text when its values hold no
      backslash, quote or line terminator (`LiteralAsWrittenBreaks` shows a
      quote that does not). */
  lemma ItemRoundTripAsWritten(it: GoItem, rest: string)
    requires PlainValue(it.text) && PlainValue(it.action) && PlainValue(it.target)
    requires PlainValue(it.video) && PlainValue(it.audio) && PlainValue(it.subtitles)
    ensures ReadItem(ItemText(AsWritten, it) + rest) == Some((it, rest))
  {
    ItemTextsAgree(it);
    ItemRoundTrip(it, rest);
  }

  // ---------------------------------------------------------------------------
  // Splicing into the target file
  // ---------------------------------------------------------------------------

  const BeginMarker := "// CHANNELS BEGIN"
  const EndMarker := "// CHANNELS END"

  /** The new file: everything up to the begin marker and the one character
      after it, the generated text, two spaces, then everything from the end
      marker on. A missing marker is fatal, and so is a begin marker with
      nothing after it (the slice is out of range). */
  function Splice(content: string, data: string): (r: Result<string, string>)
    ensures r.Err? <==> Find(content, BeginMarker).None? || Find(content, EndMarker).None?
                        || Find(content, BeginMarker).value + 18 > |content|
  {
    match (Find(content, BeginMarker), Find(content, EndMarker))
    case (Some(b), Some(e)) =>
      if b + 18 > |content| then Err("slice bounds out of range")
      else Ok(content[..b + 18] + data + "  " + content[e..])
    case _ => Err("Could not find // CHANNELS BEGIN or // CHANNELS END")
  }

  /** The first occurrence is the one with none before it. */
  lemma FindIs(s: string, pat: string, k: nat)
    requires OccursAt(s, pat, k)
    requires forall j :: 0 <= j < k ==> !OccursAt(s, pat, j)
    ensures Find(s, pat) == Some(k)
  {
  }

  /** A window of `s` with a character that `pat` does not have at that place
      is not an occurrence of `pat`. */
  lemma WindowDiffers(s: string, pat: string, j: nat, k: nat)
    requires j <= k < j + |pat| <= |s| && s[k] != pat[k - j]
    ensures !OccursAt(s, pat, j)
  {
    assert s[j..j + |pat|][k - j] == s[k];
  }

  /** The begin marker of the original is still the first one after the
      block is replaced: everything up to the character after it is kept. */
  lemma BeginStays(content: string, b: nat, p: string, d: string, tail: string)
    requires Find(content, BeginMarker) == Some(b) && b + 18 <= |content| && p == content[..b + 18]
    ensures Find(p + d + "  " + tail, BeginMarker) == Some(b)
  {
    var c1 := p + d + "  " + tail;
    assert c1[..b + 18] == p;
    assert c1[b..b + 17] == content[b..b + 17];
    forall j | 0 <= j < b ensures !OccursAt(c1, BeginMarker, j) {
      assert FindFrom(content, BeginMarker, 0) == Some(b);
      assert !OccursAt(content, BeginMarker, j);
      assert c1[j..j + 17] == p[j..j + 17] == content[j..j + 17];
    }
    FindIs(c1, BeginMarker, b);
  }

  /** A window of `s` inside a stretch that holds `x` is the matching window
      of `x`. */
  lemma WindowIn(s: string, x: string, off: nat, j: nat, n: nat)
    requires off + |x| <= |s| && s[off..off + |x|] == x && off <= j && j + n <= off + |x|
    ensures s[j..j + n] == x[j - off..j - off + n]
  {
    forall i | j <= i < j + n ensures s[i] == x[i - off] {
      assert s[i] == s[off..off + |x|][i - off];
    }
  }

  /** No end marker starts before the two spaces after the block: not in the
      kept text before the old end marker, not across the line break that ends
      that text, not inside the block, and not across the two spaces. */
  lemma NoEndBefore(content: string, e: nat, p: string, d: string, tail: string, j: nat)
    requires Find(content, EndMarker) == Some(e) && |p| <= e && p == content[..|p|]
    requires |p| > 0 && p[|p| - 1] == '\n'
    requires forall i :: !OccursAt(d, EndMarker, i)
    requires j < |p| + |d| + 2
    ensures !OccursAt(p + d + "  " + tail, EndMarker, j)
  {
    var c1 := p + d + "  " + tail;
    var q := |p| + |d|;
    if j + 15 <= |c1| {
      if j + 15 <= |p| {
        assert c1[..|p|] == p;
        NoEndInKept(content, e, p, c1, j);
      } else if j < |p| {
        assert c1[|p| - 1] == '\n';
        WindowDiffers(c1, EndMarker, j, |p| - 1);
      } else if j + 15 <= q {
        assert c1[|p|..q] == d;
        NoEndInBlock(c1, d, |p|, j);
      } else if j <= q {
        assert c1[q] == ' ' && c1[q + 1] == ' ';
        if EndMarker[q - j] != ' ' {
          WindowDiffers(c1, EndMarker, j, q);
        } else {
          WindowDiffers(c1, EndMarker, j, q + 1);
        }
      } else {
        assert j == q + 1 && c1[q + 1] == ' ';
        WindowDiffers(c1, EndMarker, j, q + 1);
      }
    }
  }

  /** A window inside the kept text before the old end marker holds no end
      marker. */
  lemma NoEndInKept(content: string, e: nat, p: string, c1: string, j: nat)
    requires Find(content, EndMarker) == Some(e) && |p| <= e && p == content[..|p|]
    requires |p| <= |c1| && c1[..|p|] == p && j + 15 <= |p|
    ensures !OccursAt(c1, EndMarker, j)
  {
    assert FindFrom(content, EndMarker, 0) == Some(e);
    assert !OccursAt(content, EndMarker, j);
    WindowIn(c1, p, 0, j, 15);
    assert p[j..j + 15] == content[j..j + 15];
  }

  /** A window inside a generated block without end markers holds none. */
  lemma NoEndInBlock(c1: string, d: string, off: nat, j: nat)
    requires forall i :: !OccursAt(d, EndMarker, i)
    requires off + |d| <= |c1| && c1[off..off + |d|] == d && off <= j && j + 15 <= off + |d|
    ensures !OccursAt(c1, EndMarker, j)
  {
    WindowIn(c1, d, off, j, 15);
    assert !OccursAt(d, EndMarker, j - off);
  }

  /** Regenerating replaces the previous block: when the begin marker ends its
      line, the end marker comes after that line, and the generated text holds
      no end marker, splicing `d2` into the output of splicing `d1` gives what
      splicing `d2` into the original gives. */
  lemma SpliceAgain(content: string, d1: string, d2: string)
    requires Splice(content, d1).Ok?
    requires Find(content, BeginMarker).value + 18 <= Find(content, EndMarker).value
    requires content[Find(content, BeginMarker).value + 17] == '\n'
    requires forall j :: !OccursAt(d1, EndMarker, j)
    ensures Splice(Splice(content, d1).value, d2) == Splice(content, d2)
  {
    var b := Find(content, BeginMarker).value;
    var e := Find(content, EndMarker).value;
    var p := content[..b + 18];
    var tail := content[e..];
    var c1 := Splice(content, d1).value;
    assert c1 == p + d1 + "  " + tail;
    var e1 := |p| + |d1| + 2;
    BeginStays(content, b, p, d1, tail);
    forall j | 0 <= j < e1 ensures !OccursAt(c1, EndMarker, j) {
      NoEndBefore(content, e, p, d1, tail, j);
    }
    assert c1[e1..] == tail;
    assert c1[e1..e1 + 15] == content[e..e + 15];
    FindIs(c1, EndMarker, e1);
    assert c1[..b + 18] == p;
    assert Splice(c1, d2).value == p + d2 + "  " + tail;
  }
}
