/** Worked examples of the renderer's karaoke parser on concrete cues. */
module CueExamples {
  import opened Text
  import opened CueWords

  const ExampleText: string := "<00:01.000>Hello <00:02.000>world"

  const ExampleItems: seq<TimedText> := [TimedText(1000, "Hello "), TimedText(2000, "world")]

  lemma ExampleCodes()
    ensures FormatTimeCode(1000) == "00:01.000" && FormatTimeCode(2000) == "00:02.000"
  {
    assert 1000 / 1000 / 60 == 0 && 1000 / 1000 % 60 == 1 && 1000 % 1000 == 0;
    assert 2000 / 1000 / 60 == 0 && 2000 / 1000 % 60 == 2 && 2000 % 1000 == 0;
  }

  lemma ExampleWritable()
    ensures Writable(ExampleItems) && Writable(ExampleItems[1..])
  {
    assert forall i :: 0 <= i < 6 ==> "Hello "[i] != '<';
    assert forall i :: 0 <= i < 5 ==> "world"[i] != '<';
  }

  lemma ExampleLastWritten()
    ensures Writable(ExampleItems[1..]) && WriteLine(ExampleItems[1..]) == "<00:02.000>world"
  {
    ExampleWritable();
    ExampleCodes();
    assert ExampleItems[1..][1..] == [];
  }

  lemma ExampleWritten()
    ensures Writable(ExampleItems)
    ensures WriteLine(ExampleItems) == ExampleText
  {
    ExampleWritable();
    ExampleCodes();
    ExampleLastWritten();
    assert WriteLine(ExampleItems) == "<" + "00:01.000" + ">" + "Hello " + "<00:02.000>world";
  }

  lemma ExampleMatches()
    ensures Matches(ExampleText, 0) == ExampleItems
  {
    ExampleWritten();
    assert "" + ExampleText == ExampleText;
    MatchesOfWrittenLine("", ExampleItems);
  }

  lemma ExampleTrims()
    ensures Trim("Hello ") == "Hello" && Trim("world") == "world"
  {
    assert SkipSpaces("Hello ", 0) == 0;
    assert SkipSpacesBack("Hello ", 6) == 5;
    assert SkipSpaces("world", 0) == 0;
    assert SkipSpacesBack("world", 5) == 5;
  }

  lemma ExampleBrackets()
    ensures '<' in ExampleText && '>' in ExampleText
    ensures IndexOf(ExampleText, '<') == 0
    ensures '\n' !in ExampleText
  {
    assert ExampleText[0] == '<' && ExampleText[10] == '>';
    assert forall i :: 0 <= i < |ExampleText| ==> ExampleText[i] != '\n';
  }

  lemma ExampleWords()
    ensures LineWords(ExampleText, Cue(1000, 3000, ExampleText))
            == [Word("Hello", 1000, 2000), Word("world", 2000, 3000)]
  {
    ExampleBrackets();
    ExampleTrims();
    ExampleMatches();
  }

  /** The karaoke cue `<00:01.000>Hello <00:02.000>world` from 1 s to 3 s gives one
      line: "Hello" from 1 s to 2 s and "world" from 2 s to 3 s. */
  lemma ExampleKaraokeCue()
    ensures CueLines(Cue(1000, 3000, ExampleText))
            == [[Word("Hello", 1000, 2000), Word("world", 2000, 3000)]]
  {
    ExampleBrackets();
    assert IndexOf(ExampleText, '\n') == -1;
    assert Split(ExampleText, '\n') == [ExampleText];
    ExampleWords();
  }

  /** A cue of plain text, with no brackets, shows nothing. */
  lemma ExamplePlainCue()
    ensures CueLines(Cue(0, 1000, "Hello world")) == []
  {
    var t := "Hello world";
    assert forall i :: 0 <= i < |t| ==> t[i] != '<';
  }
}
