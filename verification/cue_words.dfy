/** The renderer's karaoke subtitle parser: the text of the active WebVTT cue is
    split into lines, and each line into words that carry the interval during which
    they are sung. Inline timestamps have the form `<MM:SS.mmm>`; times are kept in
    whole milliseconds. */
module CueWords {
  import opened Text

  /** A cue as the text track reports it: its interval and its raw text. */
  datatype Cue = Cue(startMs: int, endMs: int, text: string)

  /** One word of a subtitle line and the interval it is highlighted in. */
  datatype Word = Word(text: string, fromMs: int, toMs: int)

  /** One match of the timestamp pattern: the time and the text captured after it,
      up to the next `<`. */
  datatype TimedText = TimedText(timeMs: nat, text: string)

  // ---------------------------------------------------------------------------
  // Time codes
  // ---------------------------------------------------------------------------

  /** `\d{2}:\d{2}\.\d{3}`, the time code the pattern captures. */
  predicate IsTimeCode(code: string) {
    |code| == 9 && IsDigit(code[0]) && IsDigit(code[1]) && code[2] == ':'
    && IsDigit(code[3]) && IsDigit(code[4]) && code[5] == '.'
    && IsDigit(code[6]) && IsDigit(code[7]) && IsDigit(code[8])
  }

  /** A time code splits at its colon into exactly two parts, minutes and
      `SS.mmm`; so the three-part `HH:MM:SS.mmm` branch of the conversion is never
      taken. */
  lemma TimeCodeParts(code: string)
    requires IsTimeCode(code)
    ensures Split(code, ':') == [code[..2], code[3..]]
    ensures |Split(code, ':')| == 2
  {
    assert IndexOf(code, ':') == 2;
    var rest := code[3..];
    assert forall i :: 0 <= i < |rest| ==> rest[i] != ':';
    assert IndexOf(rest, ':') == -1;
  }

  lemma Decimal2(s: string)
    requires |s| == 2 && AllDigits(s)
    ensures Decimal(s) == DigitValue(s[0]) * 10 + DigitValue(s[1])
  {
    var h := s[..1];
    assert h[..0] == [] && h[0] == s[0];
    assert Decimal(h) == DigitValue(s[0]);
  }

  lemma Decimal3(s: string)
    requires |s| == 3 && AllDigits(s)
    ensures Decimal(s) == DigitValue(s[0]) * 100 + DigitValue(s[1]) * 10 + DigitValue(s[2])
  {
    assert s[..2][..1] == s[..1];
    Decimal2(s[..2]);
  }

  /** The time a time code stands for: `parseInt` of the minutes times 60 plus
      `parseFloat` of `SS.mmm`, here in milliseconds. TimeCodeParts shows that
      these are the two parts the conversion splits the code into. */
  function TimeCodeMs(code: string): nat
    requires IsTimeCode(code)
  {
    (DigitValue(code[0]) * 10 + DigitValue(code[1])) * 60_000
    + (DigitValue(code[3]) * 10 + DigitValue(code[4])) * 1000
    + DigitValue(code[6]) * 100 + DigitValue(code[7]) * 10 + DigitValue(code[8])
  }

  /** The time code WebVTT writes for a time below 100 minutes. */
  function FormatTimeCode(ms: nat): (code: string)
    requires ms < 6_000_000
    ensures IsTimeCode(code)
  {
    var m := ms / 1000 / 60;
    var s := ms / 1000 % 60;
    var f := ms % 1000;
    [DigitChar(m / 10), DigitChar(m % 10), ':', DigitChar(s / 10), DigitChar(s % 10), '.',
     DigitChar(f / 100), DigitChar(f / 10 % 10), DigitChar(f % 10)]
  }

  /** Reading a written time code gives back the time. */
  lemma TimeCodeRoundTrip(ms: nat)
    requires ms < 6_000_000
    ensures TimeCodeMs(FormatTimeCode(ms)) == ms
  {
    var code := FormatTimeCode(ms);
    var q := ms / 1000;
    var m := q / 60;
    var s := q % 60;
    var f := ms % 1000;
    TwoDigitsBack(m);
    TwoDigitsBack(s);
    ThreeDigitsBack(f);
    assert q == m * 60 + s;
    assert ms == q * 1000 + f;
  }

  /** The two digits written for a number below 100 read back as it. */
  lemma TwoDigitsBack(n: nat)
    requires n < 100
    ensures DigitValue(DigitChar(n / 10)) * 10 + DigitValue(DigitChar(n % 10)) == n
  {
  }

  /** The three digits written for a number below 1000 read back as it. */
  lemma ThreeDigitsBack(n: nat)
    requires n < 1000
    ensures DigitValue(DigitChar(n / 100)) * 100 + DigitValue(DigitChar(n / 10 % 10)) * 10
            + DigitValue(DigitChar(n % 10)) == n
  {
  }

  // ---------------------------------------------------------------------------
  // The global pattern `<(\d{2}:\d{2}\.\d{3})>([^<]*)` run over one line
  // ---------------------------------------------------------------------------

  /** A timestamp `<MM:SS.mmm>` starts at position `p` of `line`. */
  predicate TimestampAt(line: string, p: int) {
    0 <= p && p + 11 <= |line| && line[p] == '<'
    && IsDigit(line[p + 1]) && IsDigit(line[p + 2]) && line[p + 3] == ':'
    && IsDigit(line[p + 4]) && IsDigit(line[p + 5]) && line[p + 6] == '.'
    && IsDigit(line[p + 7]) && IsDigit(line[p + 8]) && IsDigit(line[p + 9])
    && line[p + 10] == '>'
  }

  /** The time code inside a timestamp. */
  function CodeAt(line: string, p: nat): (code: string)
    requires TimestampAt(line, p)
    ensures IsTimeCode(code)
  {
    line[p + 1..p + 10]
  }

  /** The end of the run of characters other than `<` that starts at `from`. */
  function RunEnd(line: string, from: nat): (e: nat)
    requires from <= |line|
    ensures from <= e <= |line|
    ensures e == |line| || line[e] == '<'
    ensures forall i :: from <= i < e ==> line[i] != '<'
    decreases |line| - from
  {
    if from == |line| || line[from] == '<' then from else RunEnd(line, from + 1)
  }

  lemma RunEndIs(line: string, from: nat, e: nat)
    requires from <= e <= |line|
    requires forall i :: from <= i < e ==> line[i] != '<'
    requires e == |line| || line[e] == '<'
    ensures RunEnd(line, from) == e
  {
  }

  /** The first timestamp at or after `from`. */
  function NextTimestamp(line: string, from: nat): (p: Option<nat>)
    ensures p.Some? ==> from <= p.value && TimestampAt(line, p.value)
    ensures p.Some? ==> forall q :: from <= q < p.value ==> !TimestampAt(line, q)
    ensures p.None? ==> forall q :: from <= q ==> !TimestampAt(line, q)
    decreases |line| - from
  {
    if from + 11 > |line| then None
    else if TimestampAt(line, from) then Some(from)
    else NextTimestamp(line, from + 1)
  }

  /** The match at a timestamp: its time and the text up to the next `<`. */
  function MatchAt(line: string, p: nat): (m: TimedText)
    requires TimestampAt(line, p)
  {
    var e := RunEnd(line, p + 11);
    TimedText(TimeCodeMs(CodeAt(line, p)), line[p + 11..e])
  }

  /** The text of a match holds no `<`. */
  lemma MatchTextClean(line: string, p: nat)
    requires TimestampAt(line, p)
    ensures '<' !in MatchAt(line, p).text
  {
  }

  /** The matches `regex.exec` returns, one call after the other, with `lastIndex`
      starting at `from`: each call finds the next timestamp, captures the text up
      to the next `<`, and moves `lastIndex` to the end of that text. */
  function Matches(line: string, from: nat): seq<TimedText>
    requires from <= |line|
    decreases |line| - from
  {
    match NextTimestamp(line, from)
    case None => []
    case Some(p) => [MatchAt(line, p)] + Matches(line, RunEnd(line, p + 11))
  }

  lemma MatchesStep(line: string, from: nat, p: nat)
    requires from <= |line| && NextTimestamp(line, from) == Some(p)
    ensures Matches(line, from) == [MatchAt(line, p)] + Matches(line, RunEnd(line, p + 11))
  {
  }

  /** One round of the matching loop keeps what is collected followed by what is
      left equal to all the matches. */
  lemma ExecStep(line: string, from: nat, matches: seq<TimedText>, p: nat)
    requires from <= |line| && NextTimestamp(line, from) == Some(p)
    requires Matches(line, 0) == matches + Matches(line, from)
    ensures Matches(line, 0) == (matches + [MatchAt(line, p)]) + Matches(line, RunEnd(line, p + 11))
  {
    var m := MatchAt(line, p);
    var rest := Matches(line, RunEnd(line, p + 11));
    MatchesStep(line, from, p);
    MatchesAssoc(matches, [m], rest);
  }

  lemma MatchesAssoc(a: seq<TimedText>, b: seq<TimedText>, c: seq<TimedText>)
    ensures a + (b + c) == (a + b) + c
  {
  }

  /** The loop `while ((match = regex.exec(line)) !== null)` collecting the matches. */
  method ExecAll(line: string) returns (matches: seq<TimedText>)
    ensures matches == Matches(line, 0)
  {
    matches := [];
    var lastIndex := 0;
    while true
      invariant lastIndex <= |line|
      invariant Matches(line, 0) == matches + Matches(line, lastIndex)
      decreases |line| - lastIndex
    {
      var found := NextTimestamp(line, lastIndex);
      if found.None? {
        assert Matches(line, lastIndex) == [];
        assert matches + [] == matches;
        return;
      }
      var p := found.value;
      var next := RunEnd(line, p + 11);
      ExecStep(line, lastIndex, matches, p);
      matches := matches + [MatchAt(line, p)];
      lastIndex := next;
    }
  }

  /** Every position of `line` at or after `from` where a timestamp starts, in order:
      the reference the matcher is compared with. */
  function Positions(line: string, from: nat): (ps: seq<nat>)
    ensures forall i :: 0 <= i < |ps| ==> from <= ps[i] && TimestampAt(line, ps[i])
    ensures forall i, j :: 0 <= i < j < |ps| ==> ps[i] < ps[j]
    ensures forall q :: from <= q && TimestampAt(line, q) ==> q in ps
    decreases |line| - from
  {
    if from >= |line| then []
    else
      var rest := Positions(line, from + 1);
      if TimestampAt(line, from) then
        var ps := [from] + rest;
        assert forall i :: 1 <= i < |ps| ==> ps[i] == rest[i - 1];
        ps
      else rest
  }

  function MatchesAt(line: string, ps: seq<nat>): (ms: seq<TimedText>)
    requires forall i :: 0 <= i < |ps| ==> TimestampAt(line, ps[i])
    ensures |ms| == |ps|
    ensures forall i :: 0 <= i < |ps| ==> ms[i] == MatchAt(line, ps[i])
  {
    if |ps| == 0 then [] else [MatchAt(line, ps[0])] + MatchesAt(line, ps[1..])
  }

  lemma {:induction false} PositionsSkip(line: string, a: nat, b: nat)
    requires a <= b <= |line|
    requires forall q :: a <= q < b ==> !TimestampAt(line, q)
    ensures Positions(line, a) == Positions(line, b)
    decreases b - a
  {
    if a < b {
      PositionsSkip(line, a + 1, b);
    }
  }

  /** No character of a timestamp after its first is a `<`. */
  lemma InsideTimestamp(line: string, p: nat, q: nat)
    requires TimestampAt(line, p) && p < q < p + 11
    ensures line[q] != '<'
  {
    var k := q - p;
    if k == 1 || k == 2 || k == 4 || k == 5 || k == 7 || k == 8 || k == 9 {
      assert IsDigit(line[q]);
    }
  }

  /** From one timestamp, the next one can only start after the text captured
      after it. */
  lemma PositionsStep(line: string, from: nat, p: nat)
    requires from <= |line| && NextTimestamp(line, from) == Some(p)
    ensures Positions(line, from) == [p] + Positions(line, RunEnd(line, p + 11))
  {
    var e := RunEnd(line, p + 11);
    PositionsSkip(line, from, p);
    forall q | p < q < e ensures !TimestampAt(line, q) {
      if q < p + 11 {
        InsideTimestamp(line, p, q);
      }
    }
    PositionsSkip(line, p + 1, e);
    assert Positions(line, p) == [p] + Positions(line, p + 1);
  }

  /** The matcher finds every timestamp of the line, in order, none twice: the text
      captured after one timestamp never swallows the next, since it stops at `<`. */
  lemma {:induction false} ExecFindsEveryTimestamp(line: string, from: nat)
    requires from <= |line|
    ensures Matches(line, from) == MatchesAt(line, Positions(line, from))
    decreases |line| - from
  {
    match NextTimestamp(line, from)
    case None =>
      PositionsSkip(line, from, |line|);
    case Some(p) =>
      var e := RunEnd(line, p + 11);
      PositionsStep(line, from, p);
      MatchesStep(line, from, p);
      ExecFindsEveryTimestamp(line, e);
      var rest := Positions(line, e);
      assert ([p] + rest)[1..] == rest;
  }

  // ---------------------------------------------------------------------------
  // Words of a line
  // ---------------------------------------------------------------------------

  /** The end of the word made from match `j`: the time of the next match, or the
      end of the cue after the last one. */
  function NextTime(ms: seq<TimedText>, j: nat, endMs: int): int
    requires j < |ms|
  {
    if j < |ms| - 1 then ms[j + 1].timeMs else endMs
  }

  /** The words made from the first `n` matches: one per match whose trimmed text
      is not empty. */
  function TimedWords(ms: seq<TimedText>, n: nat, endMs: int): (ws: seq<Word>)
    requires n <= |ms|
    ensures |ws| <= n
    decreases n
  {
    if n == 0 then []
    else
      var text := Trim(ms[n - 1].text);
      TimedWords(ms, n - 1, endMs)
      + (if text != "" then [Word(text, ms[n - 1].timeMs, NextTime(ms, n - 1, endMs))] else [])
  }

  /** The words of one line of a cue that holds both `<` and `>`: a line with both
      brackets gives its timed words, preceded by the text before the first `<`
      (sung from the start of the cue to the first timestamp) when that is not
      blank; any other line is one word spanning the whole cue. */
  function LineWords(line: string, cue: Cue): seq<Word> {
    if '<' in line && '>' in line then
      var ms := Matches(line, 0);
      var words := TimedWords(ms, |ms|, cue.endMs);
      var first := IndexOf(line, '<');
      var initial := if first > 0 then Trim(line[..first]) else "";
      if initial != "" then [Word(initial, cue.startMs, if |ms| > 0 then ms[0].timeMs else cue.endMs)] + words
      else words
    else [Word(Trim(line), cue.startMs, cue.endMs)]
  }

  /** The loop over the matches of a line and the prepended leading text. */
  method LineWordsOf(line: string, cue: Cue) returns (lineData: seq<Word>)
    ensures lineData == LineWords(line, cue)
  {
    if '<' in line && '>' in line {
      var matches := ExecAll(line);
      lineData := [];
      for j := 0 to |matches|
        invariant lineData == TimedWords(matches, j, cue.endMs)
      {
        var text := Trim(matches[j].text);
        if text != "" {
          var to := if j < |matches| - 1 then matches[j + 1].timeMs else cue.endMs;
          lineData := lineData + [Word(text, matches[j].timeMs, to)];
        }
      }
      var first := IndexOf(line, '<');
      if first > 0 {
        var initial := Trim(line[..first]);
        if initial != "" {
          lineData := [Word(initial, cue.startMs, if |matches| > 0 then matches[0].timeMs else cue.endMs)]
                      + lineData;
        }
      }
    } else {
      lineData := [Word(Trim(line), cue.startMs, cue.endMs)];
    }
  }

  // ---------------------------------------------------------------------------
  // Lines of a cue
  // ---------------------------------------------------------------------------

  /** The non-empty word lists of the first `n` lines. */
  function KeptLines(lines: seq<string>, n: nat, cue: Cue): (r: seq<seq<Word>>)
    requires n <= |lines|
    ensures |r| <= n
    ensures forall k :: 0 <= k < |r| ==> |r[k]| > 0
    decreases n
  {
    if n == 0 then []
    else
      var ws := LineWords(lines[n - 1], cue);
      KeptLines(lines, n - 1, cue) + (if |ws| > 0 then [ws] else [])
  }

  /** What the parser hands to the overlay for one cue: nothing unless the text
      holds both `<` and `>`; otherwise the word lists of its non-empty lines. */
  function CueLines(cue: Cue): (r: seq<seq<Word>>)
    ensures ('<' !in cue.text || '>' !in cue.text) ==> r == []
    ensures forall k :: 0 <= k < |r| ==> |r[k]| > 0
    ensures |r| <= |Split(cue.text, '\n')|
  {
    if '<' in cue.text && '>' in cue.text then
      var lines := Split(cue.text, '\n');
      KeptLines(lines, |lines|, cue)
    else []
  }

  /** `updateCustomSubtitles`: with no track nothing is sent to the overlay (None);
      otherwise the lines of the first active cue, or no lines when no cue is
      active. */
  method UpdateCustomSubtitles(hasTrack: bool, activeCues: seq<Cue>) returns (update: Option<seq<seq<Word>>>)
    ensures !hasTrack ==> update == None
    ensures hasTrack ==> update == Some(if |activeCues| > 0 then CueLines(activeCues[0]) else [])
  {
    if !hasTrack {
      return None;
    }
    if |activeCues| > 0 {
      var result := CueLinesOf(activeCues[0]);
      return Some(result);
    }
    return Some([]);
  }

  /** The lines of the first active cue, or none when it lacks `<` or `>`. */
  method CueLinesOf(cue: Cue) returns (result: seq<seq<Word>>)
    ensures result == CueLines(cue)
  {
    result := [];
    if '<' in cue.text && '>' in cue.text {
      result := KeepLines(Split(cue.text, '\n'), cue);
    }
  }

  /** The loop over the lines of a cue, keeping the lines that have words. */
  method KeepLines(lines: seq<string>, cue: Cue) returns (result: seq<seq<Word>>)
    ensures result == KeptLines(lines, |lines|, cue)
  {
    result := [];
    for i := 0 to |lines|
      invariant result == KeptLines(lines, i, cue)
    {
      var lineData := LineWordsOf(lines[i], cue);
      if |lineData| > 0 {
        result := result + [lineData];
      }
    }
  }

  // ---------------------------------------------------------------------------
  // Properties
  // ---------------------------------------------------------------------------

  /** Timestamps that lie in the cue and never go backwards. */
  predicate InOrder(ms: seq<TimedText>, startMs: int, endMs: int) {
    (forall i :: 0 <= i < |ms| ==> startMs <= ms[i].timeMs <= endMs)
    && (forall i, j :: 0 <= i < j < |ms| ==> ms[i].timeMs <= ms[j].timeMs)
  }

  /** Words that lie in the cue, each ending no earlier than it starts and no
      later than the next one starts. */
  predicate Consecutive(ws: seq<Word>, startMs: int, endMs: int) {
    (forall i :: 0 <= i < |ws| ==> startMs <= ws[i].fromMs <= ws[i].toMs <= endMs)
    && (forall i :: 0 <= i < |ws| - 1 ==> ws[i].toMs <= ws[i + 1].fromMs)
  }

  /** A word that ends before the first of some consecutive words starts can be
      put in front of them. */
  lemma ConsecutiveCons(w: Word, ws: seq<Word>, startMs: int, endMs: int)
    requires Consecutive(ws, startMs, endMs)
    requires startMs <= w.fromMs <= w.toMs <= endMs
    requires |ws| > 0 ==> w.toMs <= ws[0].fromMs
    ensures Consecutive([w] + ws, startMs, endMs)
  {
    var r := [w] + ws;
    assert forall i :: 1 <= i < |r| ==> r[i] == ws[i - 1];
  }

  lemma {:induction false} TimedWordsConsecutive(ms: seq<TimedText>, n: nat, startMs: int, endMs: int)
    requires n <= |ms|
    requires InOrder(ms, startMs, endMs)
    ensures Consecutive(TimedWords(ms, n, endMs), startMs, endMs)
    ensures n < |ms| ==> forall i :: 0 <= i < |TimedWords(ms, n, endMs)| ==>
              TimedWords(ms, n, endMs)[i].toMs <= ms[n].timeMs
    ensures |ms| > 0 ==> forall i :: 0 <= i < |TimedWords(ms, n, endMs)| ==>
              ms[0].timeMs <= TimedWords(ms, n, endMs)[i].fromMs
    decreases n
  {
    if n > 0 {
      var prev := TimedWords(ms, n - 1, endMs);
      TimedWordsConsecutive(ms, n - 1, startMs, endMs);
      var lo := ms[0].timeMs;
      var hi := if n < |ms| then ms[n].timeMs else endMs;
      assert lo <= ms[n - 1].timeMs <= hi;
      var text := Trim(ms[n - 1].text);
      if text != "" {
        var w := Word(text, ms[n - 1].timeMs, NextTime(ms, n - 1, endMs));
        assert TimedWords(ms, n, endMs) == prev + [w];
        ConsecutiveSnoc(prev, w, startMs, endMs);
        WithinSnoc(prev, w, lo, hi);
      } else {
        assert TimedWords(ms, n, endMs) == prev;
      }
    }
  }

  /** Words that all start at or after `lo` and end by `hi` keep doing so
      when one more such word is added. */
  lemma WithinSnoc(ws: seq<Word>, w: Word, lo: int, hi: int)
    requires forall i :: 0 <= i < |ws| ==> lo <= ws[i].fromMs && ws[i].toMs <= hi
    requires lo <= w.fromMs && w.toMs <= hi
    ensures forall i :: 0 <= i < |ws + [w]| ==> lo <= (ws + [w])[i].fromMs && (ws + [w])[i].toMs <= hi
  {
    var r := ws + [w];
    assert forall i :: 0 <= i < |ws| ==> r[i] == ws[i];
  }

  /** A word that starts no earlier than some consecutive words end can be put
      after them. */
  lemma ConsecutiveSnoc(ws: seq<Word>, w: Word, startMs: int, endMs: int)
    requires Consecutive(ws, startMs, endMs)
    requires startMs <= w.fromMs <= w.toMs <= endMs
    requires |ws| > 0 ==> ws[|ws| - 1].toMs <= w.fromMs
    ensures Consecutive(ws + [w], startMs, endMs)
  {
    var r := ws + [w];
    assert forall i :: 0 <= i < |ws| ==> r[i] == ws[i];
  }

  /** When a line's timestamps lie in the cue and never go backwards, its words
      follow each other without overlap: each is highlighted until the next
      timestamp, even one whose own text is blank. */
  lemma LineWordsConsecutive(line: string, cue: Cue)
    requires cue.startMs <= cue.endMs
    requires InOrder(Matches(line, 0), cue.startMs, cue.endMs)
    ensures Consecutive(LineWords(line, cue), cue.startMs, cue.endMs)
  {
    if '<' in line && '>' in line {
      var ms := Matches(line, 0);
      var words := TimedWords(ms, |ms|, cue.endMs);
      TimedWordsConsecutive(ms, |ms|, cue.startMs, cue.endMs);
      var first := IndexOf(line, '<');
      var initial := if first > 0 then Trim(line[..first]) else "";
      if initial != "" {
        var w := Word(initial, cue.startMs, if |ms| > 0 then ms[0].timeMs else cue.endMs);
        assert LineWords(line, cue) == [w] + words;
        ConsecutiveCons(w, words, cue.startMs, cue.endMs);
      }
    }
  }

  lemma {:induction false} TimedWordsTexts(ms: seq<TimedText>, n: nat, endMs: int)
    requires n <= |ms|
    requires forall i :: 0 <= i < |ms| ==> '<' !in ms[i].text
    ensures forall i :: 0 <= i < |TimedWords(ms, n, endMs)| ==>
              var t := TimedWords(ms, n, endMs)[i].text; t != "" && IsTrimmed(t) && '<' !in t
    decreases n
  {
    if n > 0 {
      TimedWordsTexts(ms, n - 1, endMs);
      TrimIsTrimmed(ms[n - 1].text);
    }
  }

  /** Every word of a line is trimmed; in a line with brackets every word is
      non-empty and holds no `<`, so tags between timestamps never reach the
      overlay. */
  lemma LineWordsTexts(line: string, cue: Cue)
    ensures forall i :: 0 <= i < |LineWords(line, cue)| ==> IsTrimmed(LineWords(line, cue)[i].text)
    ensures '<' in line && '>' in line ==>
              forall i :: 0 <= i < |LineWords(line, cue)| ==>
                LineWords(line, cue)[i].text != "" && '<' !in LineWords(line, cue)[i].text
  {
    if '<' in line && '>' in line {
      var ms := Matches(line, 0);
      MatchesHaveNoOpenBracket(line);
      TimedWordsTexts(ms, |ms|, cue.endMs);
      var first := IndexOf(line, '<');
      if first > 0 {
        TrimIsTrimmed(line[..first]);
      }
    } else {
      TrimIsTrimmed(line);
    }
  }

  lemma MatchesHaveNoOpenBracket(line: string)
    ensures forall i :: 0 <= i < |Matches(line, 0)| ==> '<' !in Matches(line, 0)[i].text
  {
    ExecFindsEveryTimestamp(line, 0);
    var ps := Positions(line, 0);
    forall i | 0 <= i < |ps| ensures '<' !in MatchAt(line, ps[i]).text {
      MatchTextClean(line, ps[i]);
    }
  }

  // ---------------------------------------------------------------------------
  // Round trip with written karaoke lines
  // ---------------------------------------------------------------------------

  /** Timed texts that can be written as a karaoke line. */
  predicate Writable(items: seq<TimedText>) {
    forall i :: 0 <= i < |items| ==> items[i].timeMs < 6_000_000 && '<' !in items[i].text
  }

  /** A karaoke line: each text preceded by the timestamp of its time. */
  function WriteLine(items: seq<TimedText>): (line: string)
    requires Writable(items)
    ensures line == [] || line[0] == '<'
  {
    if |items| == 0 then ""
    else "<" + FormatTimeCode(items[0].timeMs) + ">" + items[0].text + WriteLine(items[1..])
  }

  lemma WrittenStamp(pre: string, items: seq<TimedText>)
    requires Writable(items) && |items| > 0
    ensures var pre' := pre + "<" + FormatTimeCode(items[0].timeMs) + ">" + items[0].text;
            && pre + WriteLine(items) == pre' + WriteLine(items[1..])
            && TimestampAt(pre + WriteLine(items), |pre|)
            && CodeAt(pre + WriteLine(items), |pre|) == FormatTimeCode(items[0].timeMs)
            && RunEnd(pre + WriteLine(items), |pre| + 11) == |pre'|
  {
    var line := pre + WriteLine(items);
    var p := |pre|;
    var code := FormatTimeCode(items[0].timeMs);
    var t := items[0].text;
    var pre' := pre + "<" + code + ">" + t;
    assert line == pre' + WriteLine(items[1..]);
    assert line[p + 1..p + 10] == code;
    assert forall k :: 0 <= k < 9 ==> line[p + 1 + k] == code[k];
    assert line[p + 11..p + 11 + |t|] == t;
    RunEndIs(line, p + 11, |pre'|);
  }

  lemma WrittenStep(pre: string, items: seq<TimedText>)
    requires Writable(items) && |items| > 0
    ensures var pre' := pre + "<" + FormatTimeCode(items[0].timeMs) + ">" + items[0].text;
            && pre + WriteLine(items) == pre' + WriteLine(items[1..])
            && NextTimestamp(pre + WriteLine(items), |pre|) == Some(|pre|)
            && MatchAt(pre + WriteLine(items), |pre|) == items[0]
            && RunEnd(pre + WriteLine(items), |pre| + 11) == |pre'|
  {
    WrittenStamp(pre, items);
    TimeCodeRoundTrip(items[0].timeMs);
    var line := pre + WriteLine(items);
    var pre' := pre + "<" + FormatTimeCode(items[0].timeMs) + ">" + items[0].text;
    assert line[|pre| + 11..|pre'|] == items[0].text;
  }

  /** Parsing a written karaoke line gives back its times and texts. */
  lemma {:induction false} MatchesOfWrittenLine(pre: string, items: seq<TimedText>)
    requires Writable(items)
    ensures Matches(pre + WriteLine(items), |pre|) == items
    decreases |items|
  {
    var line := pre + WriteLine(items);
    if |items| == 0 {
      assert line == pre;
    } else {
      var pre' := pre + "<" + FormatTimeCode(items[0].timeMs) + ">" + items[0].text;
      WrittenStep(pre, items);
      MatchesOfWrittenLine(pre', items[1..]);
    }
  }
}
