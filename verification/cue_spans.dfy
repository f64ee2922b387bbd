/** The legacy player's subtitle renderer: the text of the active cue becomes HTML
    spans, each marked active once the playback time reaches the timestamp before
    it, and the same HTML flattened to plain text for the overlay. Also the audio
    and subtitle paths the player derives from a video path. Times are whole
    milliseconds. */
module CueSpans {
  import opened Text
  import opened CueWords
  import opened Flatten

  // ---------------------------------------------------------------------------
  // Companion files of a video
  // ---------------------------------------------------------------------------

  /** `s.replace(pat, rep)` with a string pattern: only the first occurrence. */
  function ReplaceFirst(s: string, pat: string, rep: string): string {
    match Find(s, pat)
    case None => s
    case Some(k) => s[..k] + rep + s[k + |pat|..]
  }

  function AudioPath(videoPath: string): string {
    ReplaceFirst(videoPath, ".mp4", "_audio.mp4")
  }

  function SubtitlesPath(videoPath: string): string {
    ReplaceFirst(videoPath, ".mp4", ".vtt")
  }

  /** In `base + ".mp4" + rest`, with no `.mp4` inside `base`, the first `.mp4` is
      the one after `base`: no occurrence can straddle the end of `base`, since
      `.mp4` has only one dot. */
  lemma FirstMp4(base: string, rest: string)
    requires forall j :: !OccursAt(base, ".mp4", j)
    ensures Find(base + ".mp4" + rest, ".mp4") == Some(|base|)
  {
    var s := base + ".mp4" + rest;
    assert OccursAt(s, ".mp4", |base|) by {
      assert s[|base|..|base| + 4] == ".mp4";
    }
    forall j | 0 <= j < |base| ensures !OccursAt(s, ".mp4", j) {
      if j + 4 <= |base| {
        assert s[j..j + 4] == base[j..j + 4];
        assert !OccursAt(base, ".mp4", j);
      } else {
        var d := |base| - j;
        assert s[|base|] == '.';
        assert s[j..j + 4][d] == '.';
      }
    }
    var r := Find(s, ".mp4");
    assert r.Some? && r.value <= |base|;
  }

  /** The audio track and the subtitles sit beside the video: `<base>.mp4...`
      becomes `<base>_audio.mp4...` and `<base>.vtt...`, where `<base>` runs to the
      first `.mp4`; only that first `.mp4` changes. */
  lemma CompanionPaths(base: string, rest: string)
    requires forall j :: !OccursAt(base, ".mp4", j)
    ensures AudioPath(base + ".mp4" + rest) == base + "_audio.mp4" + rest
    ensures SubtitlesPath(base + ".mp4" + rest) == base + ".vtt" + rest
  {
    FirstMp4(base, rest);
    var s := base + ".mp4" + rest;
    assert s[..|base|] == base;
    assert s[|base| + 4..] == rest;
  }

  /** A path without `.mp4` is used unchanged for all three files. */
  lemma CompanionPathsWithoutMp4(videoPath: string)
    requires forall j :: !OccursAt(videoPath, ".mp4", j)
    ensures AudioPath(videoPath) == videoPath && SubtitlesPath(videoPath) == videoPath
  {
  }

  // ---------------------------------------------------------------------------
  // Timestamps of a line and the parts between them
  // ---------------------------------------------------------------------------

  /** One entry of `timestamps`: where the tag starts and the time it stands for. */
  datatype Stamp = Stamp(position: nat, timeMs: nat)

  /** What the loop over `/<(\d{2}:\d{2}\.\d{3})>/g` collects once `lastIndex` is
      `from`: each call finds the next timestamp and moves past its 11 characters. */
  function Stamps(line: string, from: nat): (ts: seq<Stamp>)
    requires from <= |line|
    ensures forall i :: 0 <= i < |ts| ==> from <= ts[i].position && ts[i].position + 11 <= |line|
    decreases |line| - from
  {
    match NextTimestamp(line, from)
    case None => []
    case Some(p) => [Stamp(p, TimeCodeMs(CodeAt(line, p)))] + Stamps(line, p + 11)
  }

  lemma StampsStep(line: string, from: nat, p: nat)
    requires from <= |line| && NextTimestamp(line, from) == Some(p)
    ensures Stamps(line, from) == [Stamp(p, TimeCodeMs(CodeAt(line, p)))] + Stamps(line, p + 11)
  {
  }

  /** One more round of the loop moves one entry from what is left to what is
      collected. */
  lemma StampsAppend(line: string, acc: seq<Stamp>, from: nat, p: nat)
    requires from <= |line| && NextTimestamp(line, from) == Some(p)
    ensures acc + Stamps(line, from) == (acc + [Stamp(p, TimeCodeMs(CodeAt(line, p)))]) + Stamps(line, p + 11)
  {
    StampsStep(line, from, p);
  }

  /** Each entry is a timestamp of the line, with the time its code stands for. */
  lemma {:induction false} StampsSound(line: string, from: nat)
    requires from <= |line|
    ensures forall i :: 0 <= i < |Stamps(line, from)| ==>
              TimestampAt(line, Stamps(line, from)[i].position)
              && Stamps(line, from)[i].timeMs == TimeCodeMs(CodeAt(line, Stamps(line, from)[i].position))
    decreases |line| - from
  {
    match NextTimestamp(line, from)
    case None =>
    case Some(p) =>
      StampsSound(line, p + 11);
      var rest := Stamps(line, p + 11);
      var ts := [Stamp(p, TimeCodeMs(CodeAt(line, p)))] + rest;
      assert forall i :: 1 <= i < |ts| ==> ts[i] == rest[i - 1];
  }

  /** From one timestamp the next can only start after its closing `>`. */
  lemma PositionsPastStamp(line: string, from: nat, p: nat)
    requires from <= |line| && NextTimestamp(line, from) == Some(p)
    ensures Positions(line, from) == [p] + Positions(line, p + 11)
  {
    PositionsSkip(line, from, p);
    forall q | p < q < p + 11 ensures !TimestampAt(line, q) {
      InsideTimestamp(line, p, q);
    }
    PositionsSkip(line, p + 1, p + 11);
    assert Positions(line, p) == [p] + Positions(line, p + 1);
  }

  /** The `while ((match = regex.exec(line)) !== null)` loop filling `timestamps`. */
  method CollectStamps(line: string) returns (timestamps: seq<Stamp>)
    ensures timestamps == Stamps(line, 0)
  {
    timestamps := [];
    var lastIndex := 0;
    while true
      invariant lastIndex <= |line|
      invariant Stamps(line, 0) == timestamps + Stamps(line, lastIndex)
      decreases |line| - lastIndex
    {
      var found := NextTimestamp(line, lastIndex);
      if found.None? {
        return;
      }
      var p := found.value;
      var stamp := Stamp(p, TimeCodeMs(CodeAt(line, p)));
      StampsAppend(line, timestamps, lastIndex, p);
      timestamps := timestamps + [stamp];
      lastIndex := p + 11;
    }
  }

  function PositionsOf(ts: seq<Stamp>): (ps: seq<nat>)
    ensures |ps| == |ts| && forall i :: 0 <= i < |ts| ==> ps[i] == ts[i].position
  {
    if |ts| == 0 then [] else [ts[0].position] + PositionsOf(ts[1..])
  }

  /** The loop finds every timestamp of the line, in order: since a timestamp
      holds no `<` after its first character, moving past it skips none. */
  lemma {:induction false} StampsFindEveryTimestamp(line: string, from: nat)
    requires from <= |line|
    ensures PositionsOf(Stamps(line, from)) == Positions(line, from)
    decreases |line| - from
  {
    match NextTimestamp(line, from)
    case None =>
      PositionsSkip(line, from, |line|);
    case Some(p) =>
      PositionsPastStamp(line, from, p);
      StampsStep(line, from, p);
      StampsFindEveryTimestamp(line, p + 11);
      var rest := Stamps(line, p + 11);
      assert ([Stamp(p, TimeCodeMs(CodeAt(line, p)))] + rest)[1..] == rest;
  }

  /** `line.split(/<\d{2}:\d{2}\.\d{3}>/)` from position `from` on: the pieces
      between the timestamps, one more than there are timestamps. */
  function SplitOnStamps(line: string, from: nat): (parts: seq<string>)
    requires from <= |line|
    ensures |parts| == |Stamps(line, from)| + 1
    decreases |line| - from
  {
    match NextTimestamp(line, from)
    case None => [line[from..]]
    case Some(p) => [line[from..p]] + SplitOnStamps(line, p + 11)
  }

  /** The parts put back together with the timestamp tags between them. */
  function Rejoin(line: string, parts: seq<string>, ts: seq<Stamp>): string
    requires |parts| == |ts| + 1
    requires forall i :: 0 <= i < |ts| ==> ts[i].position + 11 <= |line|
    decreases |ts|
  {
    if |ts| == 0 then parts[0]
    else parts[0] + line[ts[0].position..ts[0].position + 11] + Rejoin(line, parts[1..], ts[1..])
  }

  /** Splitting loses nothing: the parts and the tags, interleaved, are the line. */
  lemma {:induction false} SplitRejoins(line: string, from: nat)
    requires from <= |line|
    ensures Rejoin(line, SplitOnStamps(line, from), Stamps(line, from)) == line[from..]
    decreases |line| - from
  {
    match NextTimestamp(line, from)
    case None =>
    case Some(p) =>
      SplitRejoins(line, p + 11);
      var parts := SplitOnStamps(line, p + 11);
      var ts := Stamps(line, p + 11);
      var st := Stamp(p, TimeCodeMs(CodeAt(line, p)));
      assert SplitOnStamps(line, from) == [line[from..p]] + parts;
      assert Stamps(line, from) == [st] + ts;
      assert ([line[from..p]] + parts)[1..] == parts;
      assert ([st] + ts)[1..] == ts;
      assert Rejoin(line, [line[from..p]] + parts, [st] + ts)
          == line[from..p] + line[p..p + 11] + Rejoin(line, parts, ts);
      assert line[from..] == line[from..p] + line[p..p + 11] + line[p + 11..];
  }

  // ---------------------------------------------------------------------------
  // Spans of one line
  // ---------------------------------------------------------------------------

  /** A piece of subtitle text and whether it is highlighted. */
  datatype Span = Span(text: string, active: bool)

  /** The exception `timestamps[0].time` raises when `timestamps` is empty. */
  datatype Thrown = TypeError

  /** The inside of a span's opening tag. */
  function SpanTag(active: bool): string {
    if active then "span class=\"active-word\"" else "span"
  }

  function SpanHtml(s: Span): string {
    (if s.active then "<span class=\"active-word\">" else "<span>") + s.text + "</span>"
  }

  /** A span's opening tag is its tag inside angle brackets. */
  lemma SpanOpen(s: Span)
    ensures SpanHtml(s) == "<" + SpanTag(s.active) + ">" + (s.text + "</span>")
  {
    var open := if s.active then "<span class=\"active-word\">" else "<span>";
    assert open == "<" + SpanTag(s.active) + ">";
  }

  /** The spans written one after the other. */
  function SpansHtml(ss: seq<Span>): string
    decreases |ss|
  {
    if |ss| == 0 then "" else SpansHtml(ss[..|ss| - 1]) + SpanHtml(ss[|ss| - 1])
  }

  lemma SpansHtmlStep(ss: seq<Span>, k: nat)
    requires k < |ss|
    ensures SpansHtml(ss[..k + 1]) == SpansHtml(ss[..k]) + SpanHtml(ss[k])
  {
    assert ss[..k + 1][..k] == ss[..k];
  }

  /** Writing spans one list after another writes their HTML one after another. */
  lemma {:induction false} SpansHtmlAppend(a: seq<Span>, b: seq<Span>)
    ensures SpansHtml(a + b) == SpansHtml(a) + SpansHtml(b)
    decreases |b|
  {
    if |b| == 0 {
      assert a + b == a;
    } else {
      var b' := b[..|b| - 1];
      var x := b[|b| - 1];
      SpansHtmlAppend(a, b');
      var ab := a + b;
      assert ab[..|ab| - 1] == a + b' && ab[|ab| - 1] == x;
      assert SpansHtml(ab) == SpansHtml(a + b') + SpanHtml(x);
      assert SpansHtml(b) == SpansHtml(b') + SpanHtml(x);
      assert SpansHtml(a) + SpansHtml(b') + SpanHtml(x) == SpansHtml(a) + (SpansHtml(b') + SpanHtml(x));
    }
  }

  /** The span of the part before the first timestamp, if that part is not empty:
      active once `t` reaches the start of the cue on the first line, and the first
      timestamp on any other, which throws when the line has no timestamp. */
  function LeadSpans(lead: string, firstLine: bool, cueStartMs: int, ts: seq<Stamp>, t: int): Result<seq<Span>, Thrown> {
    if lead == "" then Ok([])
    else if firstLine then Ok([Span(lead, t >= cueStartMs)])
    else if |ts| == 0 then Err(TypeError)
    else Ok([Span(lead, t >= ts[0].timeMs)])
  }

  /** The spans of the parts after the timestamps: part `j + 1` is active once `t`
      reaches timestamp `j`, the one just before it. */
  function LaterSpans(parts: seq<string>, ts: seq<Stamp>, t: int): seq<Span>
    requires |parts| == |ts| + 1
  {
    seq(|ts|, j requires 0 <= j < |ts| => Span(parts[j + 1], t >= ts[j].timeMs))
  }

  /** The spans of a line with both brackets at time `t`. */
  function KaraokeSpans(line: string, firstLine: bool, cueStartMs: int, t: int): Result<seq<Span>, Thrown> {
    var ts := Stamps(line, 0);
    var parts := SplitOnStamps(line, 0);
    match LeadSpans(parts[0], firstLine, cueStartMs, ts, t)
    case Err(e) => Err(e)
    case Ok(lead) => Ok(lead + LaterSpans(parts, ts, t))
  }

  /** The HTML of one line: spans for a line with both brackets, otherwise the
      line in one plain span. */
  function LineHtml(line: string, firstLine: bool, cueStartMs: int, t: int): Result<string, Thrown> {
    if '<' in line && '>' in line then
      match KaraokeSpans(line, firstLine, cueStartMs, t)
      case Err(e) => Err(e)
      case Ok(ss) => Ok(SpansHtml(ss))
    else Ok(SpanHtml(Span(line, false)))
  }

  /** The loop `for (let j = 1; j < parts.length; j++)` over the parts after the
      timestamps. */
  method FormatLaterParts(parts: seq<string>, timestamps: seq<Stamp>, t: int) returns (text: string)
    requires |parts| == |timestamps| + 1
    ensures text == SpansHtml(LaterSpans(parts, timestamps, t))
  {
    text := "";
    ghost var spans := LaterSpans(parts, timestamps, t);
    for j := 1 to |parts|
      invariant text == SpansHtml(spans[..j - 1])
    {
      var isActive := t >= timestamps[j - 1].timeMs;
      SpansHtmlStep(spans, j - 1);
      text := text + SpanHtml(Span(parts[j], isActive));
    }
    assert spans[..|spans|] == spans;
  }

  /** The body of the line loop: `lineFormattedText` grown part by part. */
  method FormatLine(line: string, i: nat, cueStartMs: int, t: int) returns (r: Result<string, Thrown>)
    ensures r == LineHtml(line, i == 0, cueStartMs, t)
  {
    if !('<' in line && '>' in line) {
      return Ok(SpanHtml(Span(line, false)));
    }
    var timestamps := CollectStamps(line);
    var parts := SplitOnStamps(line, 0);
    var lineFormattedText := "";
    if parts[0] != "" {
      if i != 0 && |timestamps| == 0 {
        return Err(TypeError);
      }
      var isFirstPartActive := if i == 0 then t >= cueStartMs else t >= timestamps[0].timeMs;
      lineFormattedText := SpanHtml(Span(parts[0], isFirstPartActive));
    }
    var later := FormatLaterParts(parts, timestamps, t);
    ghost var lead := LeadSpans(parts[0], i == 0, cueStartMs, timestamps, t).value;
    assert lineFormattedText == SpansHtml(lead) by {
      if lead != [] {
        assert lead[..0] == [];
      }
    }
    SpansHtmlAppend(lead, LaterSpans(parts, timestamps, t));
    return Ok(lineFormattedText + later);
  }

  // ---------------------------------------------------------------------------
  // The whole cue
  // ---------------------------------------------------------------------------

  /** The HTML of the first `n` lines of a cue with both brackets, each line but the
      last followed by `<br> `; the first line that throws ends it. */
  function KaraokeHtml(lines: seq<string>, n: nat, cueStartMs: int, t: int): Result<string, Thrown>
    requires n <= |lines|
    decreases n
  {
    if n == 0 then Ok("")
    else
      match KaraokeHtml(lines, n - 1, cueStartMs, t)
      case Err(e) => Err(e)
      case Ok(prefix) =>
        match LineHtml(lines[n - 1], n == 1, cueStartMs, t)
        case Err(e) => Err(e)
        case Ok(h) => Ok(prefix + h + (if n < |lines| then "<br> " else ""))
  }

  lemma KaraokeHtmlStep(lines: seq<string>, n: nat, cueStartMs: int, t: int, prefix: string)
    requires n < |lines| && KaraokeHtml(lines, n, cueStartMs, t) == Ok(prefix)
    ensures LineHtml(lines[n], n == 0, cueStartMs, t).Err? ==> KaraokeHtml(lines, n + 1, cueStartMs, t).Err?
    ensures LineHtml(lines[n], n == 0, cueStartMs, t).Ok? ==>
              KaraokeHtml(lines, n + 1, cueStartMs, t)
              == Ok(prefix + LineHtml(lines[n], n == 0, cueStartMs, t).value + (if n + 1 < |lines| then "<br> " else ""))
  {
  }

  lemma {:induction false} KaraokeHtmlThrowsOn(lines: seq<string>, m: nat, n: nat, cueStartMs: int, t: int)
    requires m <= n <= |lines|
    requires KaraokeHtml(lines, m, cueStartMs, t).Err?
    ensures KaraokeHtml(lines, n, cueStartMs, t).Err?
    decreases n - m
  {
    if m < n {
      KaraokeHtmlThrowsOn(lines, m, n - 1, cueStartMs, t);
    }
  }

  /** The HTML of a cue without both brackets: every line in a span, all active or
      all not, joined with `<br> `. */
  function PlainHtml(lines: seq<string>, active: bool): string {
    Join(seq(|lines|, i requires 0 <= i < |lines| => SpanHtml(Span(lines[i], active))), "<br> ")
  }

  /** How `display` of the container is left. */
  datatype Display = Kept | Block | Hidden

  /** What one call does: nothing at all, throw, or set the container's HTML and
      display and hand a plain string to the overlay. */
  datatype Outcome =
    | Untouched
    | Threw(error: Thrown)
    | Update(html: string, display: Display, subtitle: string)

  /** The specification of `updateCustomSubtitles` at time `t`; `ready` says that the
      track element, its track and the container all exist. Only the first active
      cue is read. A cue with both brackets leaves `display` as it is; a plain cue
      shows the container; no cue empties and hides it and clears the subtitle. */
  function SubtitleUpdate(ready: bool, activeCues: seq<Cue>, t: int): Outcome {
    if !ready then Untouched
    else if |activeCues| == 0 then Update("", Hidden, "")
    else
      var cue := activeCues[0];
      var lines := Split(cue.text, '\n');
      if '<' in cue.text && '>' in cue.text then
        match KaraokeHtml(lines, |lines|, cue.startMs, t)
        case Err(e) => Threw(e)
        case Ok(html) => Update(html, Kept, FlattenHtml(html))
      else
        var html := PlainHtml(lines, t >= cue.startMs);
        Update(html, Block, FlattenHtml(html))
  }

  /** The loop over the lines of a cue with both brackets, building
      `formattedText`; a line that throws ends the call. */
  method FormatKaraokeCue(lines: seq<string>, cueStartMs: int, t: int) returns (r: Result<string, Thrown>)
    ensures r == KaraokeHtml(lines, |lines|, cueStartMs, t)
  {
    var formattedText := "";
    for i := 0 to |lines|
      invariant KaraokeHtml(lines, i, cueStartMs, t) == Ok(formattedText)
    {
      var lineFormattedText := FormatLine(lines[i], i, cueStartMs, t);
      KaraokeHtmlStep(lines, i, cueStartMs, t, formattedText);
      if lineFormattedText.Err? {
        KaraokeHtmlThrowsOn(lines, i + 1, |lines|, cueStartMs, t);
        assert KaraokeHtml(lines, |lines|, cueStartMs, t).error.TypeError?;
        return Err(TypeError);
      }
      ghost var before := formattedText;
      formattedText := formattedText + lineFormattedText.value;
      if i < |lines| - 1 {
        formattedText := formattedText + "<br> ";
      }
      assert formattedText == before + lineFormattedText.value + (if i + 1 < |lines| then "<br> " else "");
    }
    return Ok(formattedText);
  }

  /** `updateCustomSubtitles` at time `t`. */
  method UpdateCustomSubtitles(ready: bool, activeCues: seq<Cue>, t: int) returns (outcome: Outcome)
    ensures outcome == SubtitleUpdate(ready, activeCues, t)
  {
    if !ready {
      return Untouched;
    }
    if |activeCues| == 0 {
      return Update("", Hidden, "");
    }
    var cue := activeCues[0];
    var lines := Split(cue.text, '\n');
    if '<' in cue.text && '>' in cue.text {
      var formatted := FormatKaraokeCue(lines, cue.startMs, t);
      if formatted.Err? {
        return Threw(formatted.error);
      }
      return Update(formatted.value, Kept, FlattenHtml(formatted.value));
    }
    var isActive := t >= cue.startMs;
    var formattedText := PlainHtml(lines, isActive);
    return Update(formattedText, Block, FlattenHtml(formattedText));
  }

  // ---------------------------------------------------------------------------
  // Properties
  // ---------------------------------------------------------------------------

  /** Whatever the cue, the string handed to the overlay holds no line break and
      no tag, and never two spaces in a row. */
  lemma SubtitleIsFlat(ready: bool, activeCues: seq<Cue>, t: int)
    requires SubtitleUpdate(ready, activeCues, t).Update?
    ensures '\n' !in SubtitleUpdate(ready, activeCues, t).subtitle
    ensures NoTag(SubtitleUpdate(ready, activeCues, t).subtitle)
    ensures Collapsed(SubtitleUpdate(ready, activeCues, t).subtitle)
  {
    var u := SubtitleUpdate(ready, activeCues, t);
    if u.html != "" || u.subtitle != "" {
      FlattenIsFlat(u.html);
    }
  }

  /** A line after the first with both brackets but no well-formed timestamp reads
      the time of a timestamp that is not there. */
  lemma LaterLineWithoutTimestampThrows(line: string, cueStartMs: int, t: int)
    requires '<' in line && '>' in line
    requires forall q :: !TimestampAt(line, q)
    ensures LineHtml(line, false, cueStartMs, t) == Err(TypeError)
  {
    assert NextTimestamp(line, 0) == None;
    assert SplitOnStamps(line, 0) == [line[0..]];
    assert line[0..] == line;
  }

  /** A line that throws makes the whole cue throw. */
  lemma KaraokeHtmlThrowsAt(lines: seq<string>, i: nat, cueStartMs: int, t: int)
    requires i < |lines| && LineHtml(lines[i], i == 0, cueStartMs, t).Err?
    ensures KaraokeHtml(lines, |lines|, cueStartMs, t).Err?
  {
    var before := KaraokeHtml(lines, i, cueStartMs, t);
    if before.Ok? {
      KaraokeHtmlStep(lines, i, cueStartMs, t, before.value);
    }
    KaraokeHtmlThrowsOn(lines, i + 1, |lines|, cueStartMs, t);
  }

  /** ... and then the whole update throws, and nothing is shown. */
  lemma CueWithBadLaterLineThrows(cue: Cue, rest: seq<Cue>, t: int, i: nat)
    requires '<' in cue.text && '>' in cue.text
    requires 0 < i < |Split(cue.text, '\n')|
    requires var line := Split(cue.text, '\n')[i];
             '<' in line && '>' in line && forall q :: !TimestampAt(line, q)
    ensures SubtitleUpdate(true, [cue] + rest, t) == Threw(TypeError)
  {
    var lines := Split(cue.text, '\n');
    LaterLineWithoutTimestampThrows(lines[i], cue.startMs, t);
    KaraokeHtmlThrowsAt(lines, i, cue.startMs, t);
    KaraokeThrowsUpdate(cue, rest, t);
  }

  /** A cue with both brackets whose lines throw makes the whole update throw. */
  lemma KaraokeThrowsUpdate(cue: Cue, rest: seq<Cue>, t: int)
    requires '<' in cue.text && '>' in cue.text
    requires KaraokeHtml(Split(cue.text, '\n'), |Split(cue.text, '\n')|, cue.startMs, t).Err?
    ensures SubtitleUpdate(true, [cue] + rest, t) == Threw(TypeError)
  {
    var cues := [cue] + rest;
    assert cues[0] == cue;
    var lines := Split(cue.text, '\n');
    var k := KaraokeHtml(lines, |lines|, cue.startMs, t);
    assert k.error.TypeError?;
    assert SubtitleUpdate(true, cues, t) == Threw(k.error);
  }

  function Texts(ss: seq<Span>): (texts: seq<string>)
    ensures |texts| == |ss| && forall k :: 0 <= k < |ss| ==> texts[k] == ss[k].text
  {
    seq(|ss|, k requires 0 <= k < |ss| => ss[k].text)
  }

  /** One span per part of the split line, in order, except an empty leading part,
      which gets none. */
  lemma SpansArePieces(line: string, firstLine: bool, cueStartMs: int, t: int)
    requires KaraokeSpans(line, firstLine, cueStartMs, t).Ok?
    ensures var parts := SplitOnStamps(line, 0);
            Texts(KaraokeSpans(line, firstLine, cueStartMs, t).value)
            == if parts[0] == "" then parts[1..] else parts
  {
    var ts := Stamps(line, 0);
    var parts := SplitOnStamps(line, 0);
    var lead := LeadSpans(parts[0], firstLine, cueStartMs, ts, t).value;
    var later := LaterSpans(parts, ts, t);
    assert KaraokeSpans(line, firstLine, cueStartMs, t).value == lead + later;
    assert Texts(later) == parts[1..];
    if parts[0] == "" {
      assert lead == [];
      assert lead + later == later;
    } else {
      assert Texts(lead) == [parts[0]];
      assert Texts(lead + later) == Texts(lead) + Texts(later);
      assert parts == [parts[0]] + parts[1..];
    }
  }

  /** Highlighting only spreads as time advances: whether a line throws does not
      depend on the time, and a span active at `t1` is still active at any later
      `t2`. */
  lemma ActiveSpansOnlyGrow(line: string, firstLine: bool, cueStartMs: int, t1: int, t2: int)
    requires t1 <= t2
    ensures KaraokeSpans(line, firstLine, cueStartMs, t1).Ok? == KaraokeSpans(line, firstLine, cueStartMs, t2).Ok?
    ensures KaraokeSpans(line, firstLine, cueStartMs, t1).Ok? ==>
              var s1 := KaraokeSpans(line, firstLine, cueStartMs, t1).value;
              var s2 := KaraokeSpans(line, firstLine, cueStartMs, t2).value;
              |s1| == |s2|
              && forall k :: 0 <= k < |s1| ==> s1[k].text == s2[k].text && (s1[k].active ==> s2[k].active)
  {
    var ts := Stamps(line, 0);
    var parts := SplitOnStamps(line, 0);
    var l1 := LeadSpans(parts[0], firstLine, cueStartMs, ts, t1);
    var l2 := LeadSpans(parts[0], firstLine, cueStartMs, ts, t2);
    assert l1.Ok? == l2.Ok?;
    if l1.Ok? {
      var a1 := LaterSpans(parts, ts, t1);
      var a2 := LaterSpans(parts, ts, t2);
      assert Grown(l1.value, l2.value) && Grown(a1, a2);
      GrownConcat(l1.value, l2.value, a1, a2);
      assert KaraokeSpans(line, firstLine, cueStartMs, t1).value == l1.value + a1;
      assert KaraokeSpans(line, firstLine, cueStartMs, t2).value == l2.value + a2;
    }
  }

  /** `s2` has the texts of `s1`, and every span active in `s1` is active in
      `s2`. */
  predicate Grown(s1: seq<Span>, s2: seq<Span>) {
    |s1| == |s2| && forall k :: 0 <= k < |s1| ==> s1[k].text == s2[k].text && (s1[k].active ==> s2[k].active)
  }

  lemma GrownConcat(l1: seq<Span>, l2: seq<Span>, a1: seq<Span>, a2: seq<Span>)
    requires Grown(l1, l2) && Grown(a1, a2)
    ensures Grown(l1 + a1, l2 + a2)
  {
    forall k | 0 <= k < |l1 + a1|
      ensures (l1 + a1)[k].text == (l2 + a2)[k].text && ((l1 + a1)[k].active ==> (l2 + a2)[k].active)
    {
      if k >= |l1| {
        assert (l1 + a1)[k] == a1[k - |l1|] && (l2 + a2)[k] == a2[k - |l1|];
      }
    }
  }

  /** On the first line, once `t` has reached the start of the cue and every
      timestamp, every span is active. */
  lemma FirstLineAllActive(line: string, cueStartMs: int, t: int)
    requires t >= cueStartMs
    requires forall j :: 0 <= j < |Stamps(line, 0)| ==> t >= Stamps(line, 0)[j].timeMs
    ensures KaraokeSpans(line, true, cueStartMs, t).Ok?
    ensures forall k :: 0 <= k < |KaraokeSpans(line, true, cueStartMs, t).value| ==>
              KaraokeSpans(line, true, cueStartMs, t).value[k].active
  {
    var ts := Stamps(line, 0);
    var parts := SplitOnStamps(line, 0);
    var lead := LeadSpans(parts[0], true, cueStartMs, ts, t).value;
    var later := LaterSpans(parts, ts, t);
    assert KaraokeSpans(line, true, cueStartMs, t).value == lead + later;
  }

  /** Before the start of the cue and before every timestamp, no span of the first
      line is active. */
  lemma FirstLineNoneActive(line: string, cueStartMs: int, t: int)
    requires t < cueStartMs
    requires forall j :: 0 <= j < |Stamps(line, 0)| ==> t < Stamps(line, 0)[j].timeMs
    ensures KaraokeSpans(line, true, cueStartMs, t).Ok?
    ensures forall k :: 0 <= k < |KaraokeSpans(line, true, cueStartMs, t).value| ==>
              !KaraokeSpans(line, true, cueStartMs, t).value[k].active
  {
    var ts := Stamps(line, 0);
    var parts := SplitOnStamps(line, 0);
    var lead := LeadSpans(parts[0], true, cueStartMs, ts, t).value;
    var later := LaterSpans(parts, ts, t);
    assert KaraokeSpans(line, true, cueStartMs, t).value == lead + later;
  }

  /** The HTML of a span around text without `<` holds no `<br>`. */
  lemma SpanHtmlHasNoBreak(text: string, active: bool)
    requires '<' !in text
    ensures forall j :: !OccursAt(SpanHtml(Span(text, active)), "<br>", j)
  {
    TagHasNoBrackets(active);
    SpanOpen(Span(text, active));
    forall j ensures !OccursAt(SpanHtml(Span(text, active)), "<br>", j) {
      NoBreakAt(SpanTag(active), text, j);
    }
  }

  /** No `<br>` starts at `j` in a span whose tag and text hold no `<`. */
  lemma NoBreakAt(tag: string, text: string, j: int)
    requires '<' !in tag && '>' !in tag && |tag| > 0 && tag[0] == 's' && '<' !in text
    ensures !OccursAt("<" + tag + ">" + (text + "</span>"), "<br>", j)
  {
    var open := "<" + tag + ">";
    var html := open + (text + "</span>");
    if 0 <= j && j + 4 <= |html| {
      assert html[j..j + 4][0] == html[j] && html[j..j + 4][1] == html[j + 1];
      if j == 0 {
        assert html[1] == tag[0] == 's';
      } else if j < |open| - 1 {
        assert html[j] == tag[j - 1];
      } else if j == |open| - 1 {
        assert html[j] == '>';
      } else if j < |open| + |text| {
        assert html[j] == text[j - |open|];
      } else if j == |open| + |text| {
        assert html[j + 1] == '/';
      } else {
        assert html[j] == "</span>"[j - |open| - |text|];
      }
    }
  }

  /** The inside of an opening tag holds no angle bracket. */
  lemma TagHasNoBrackets(active: bool)
    ensures '<' !in SpanTag(active) && '>' !in SpanTag(active) && SpanTag(active)[0] == 's'
  {
    var tag := SpanTag(active);
    assert forall i :: 0 <= i < |tag| ==> tag[i] != '<' && tag[i] != '>';
  }

  /** Stripping the tags of `<inner>text</span>` leaves the text. */
  lemma StripTagged(inner: string, text: string)
    requires '>' !in inner && '<' !in text
    ensures StripTags("<" + inner + ">" + (text + "</span>")) == text
  {
    StripTagsDropsTag(inner, text + "</span>");
    StripTagsKeepsText(text, "</span>");
    StripTagsDropsTag("/span", "");
    assert "<" + "/span" + ">" + "" == "</span>";
  }

  /** Stripping the tags of a span around text without `<` leaves the text. */
  lemma StripSpan(text: string, active: bool)
    requires '<' !in text
    ensures StripTags(SpanHtml(Span(text, active))) == text
  {
    var inner := SpanTag(active);
    TagHasNoBrackets(active);
    SpanOpen(Span(text, active));
    StripTagged(inner, text);
  }

  /** A span around text without `<` flattens to that text with its white space
      collapsed. */
  lemma FlattenSpan(text: string, active: bool)
    requires '<' !in text
    ensures FlattenHtml(SpanHtml(Span(text, active))) == Collapse(text)
  {
    SpanHtmlHasNoBreak(text, active);
    ReplaceAllAbsent(SpanHtml(Span(text, active)), "<br>", "\n");
    StripSpan(text, active);
  }

  /** A one-line cue without `<`: its one span is active iff `t` has reached the start
      of the cue, the container is shown, and the overlay gets the text with its
      white space collapsed. */
  lemma PlainOneLineCue(cue: Cue, rest: seq<Cue>, t: int)
    requires '<' !in cue.text && '\n' !in cue.text
    ensures SubtitleUpdate(true, [cue] + rest, t)
            == Update(SpanHtml(Span(cue.text, t >= cue.startMs)), Block, Collapse(cue.text))
  {
    assert ([cue] + rest)[0] == cue;
    assert Split(cue.text, '\n') == [cue.text];
    FlattenSpan(cue.text, t >= cue.startMs);
  }
}
