/** The frame loop behind the VHS overlay: a pending-texture flag decides when the
    capture canvas (the video frame plus the karaoke subtitle painted over it) is
    uploaded to the overlay, and a subtitle slot holds the lines to paint. Drawing,
    uploading and frame scheduling are recorded as effects in a trace; times are
    whole milliseconds. */
module FrameLoop {
  import opened Text
  import opened CueWords

  /** The `#video-player` element, when there is one. */
  datatype VideoElement = VideoElement(paused: bool, currentTimeMs: int)

  /** The fraction `elapsedMs / durationMs` of a word already sung. */
  datatype Wipe = Wipe(elapsedMs: int, durationMs: int)

  /** How a word is painted: in the highlight colour or white, and with the
      highlight wiped across the part already sung. */
  datatype Paint = Paint(text: string, highlighted: bool, wipe: Option<Wipe>)

  /** Work handed to the browser for later: the next frame of the loop, a frame
      that captures the canvas, the 25 ms timer set when the shader is enabled. */
  datatype Task = RenderFrame | CaptureFrame | EnableTimer

  datatype Effect =
    | DrawVideo                        // the video frame drawn into the capture canvas
    | DrawSubtitle(lines: seq<seq<Paint>>)
    | HideOverlay
    | ShowOverlay
    | Upload                           // the capture canvas uploaded as the texture
    | Schedule(task: Task)

  /** What the subtitle slot holds: `null`, lines of timed words (what the
      renderer's `player.js` hands over), or a string (what the older
      `scripts/player.js` hands over: the flattened text of the cue, and "" to
      clear it). */
  datatype Subtitle = NoSubtitle | Lines(lines: seq<seq<Word>>) | Flat(text: string)

  /** The truthiness of the slot in JavaScript: any array, and a string unless it
      is empty. */
  predicate Shown(s: Subtitle) {
    s.Lines? || (s.Flat? && s.text != "")
  }

  /** The `display` style of the overlay canvas. */
  datatype OverlayDisplay = AsStyled | Block | NoDisplay

  // ---------------------------------------------------------------------------
  // Word colouring
  // ---------------------------------------------------------------------------

  /** A word is highlighted once `t` reaches its start; while it is being sung the
      highlight is wiped across it in proportion to the time elapsed, a fraction in
      [0, 1). */
  function WordPaint(w: Word, t: int): (p: Paint)
    ensures p.text == w.text
    ensures p.highlighted <==> t >= w.fromMs
    ensures p.wipe.Some? <==> w.fromMs <= t < w.toMs
    ensures p.wipe.Some? ==> 0 <= p.wipe.value.elapsedMs < p.wipe.value.durationMs
  {
    Paint(w.text, t >= w.fromMs,
          if t >= w.fromMs && t < w.toMs then Some(Wipe(t - w.fromMs, w.toMs - w.fromMs)) else None)
  }

  /** A word never loses its highlight as time goes on, and is wiped only while
      highlighted. */
  lemma HighlightStays(w: Word, t1: int, t2: int)
    requires t1 <= t2
    ensures WordPaint(w, t1).highlighted ==> WordPaint(w, t2).highlighted
    ensures WordPaint(w, t1).wipe.Some? ==> WordPaint(w, t1).highlighted
  {
  }

  /** The wipe of a word grows with time: a later moment has sung more of it. */
  lemma WipeGrows(w: Word, t1: int, t2: int)
    requires t1 <= t2
    requires WordPaint(w, t1).wipe.Some? && WordPaint(w, t2).wipe.Some?
    ensures WordPaint(w, t1).wipe.value.durationMs == WordPaint(w, t2).wipe.value.durationMs
    ensures WordPaint(w, t1).wipe.value.elapsedMs <= WordPaint(w, t2).wipe.value.elapsedMs
  {
  }

  function LinePaints(line: seq<Word>, t: int): (ps: seq<Paint>)
    ensures |ps| == |line| && forall j :: 0 <= j < |line| ==> ps[j] == WordPaint(line[j], t)
  {
    seq(|line|, j requires 0 <= j < |line| => WordPaint(line[j], t))
  }

  function SubtitlePaints(lines: seq<seq<Word>>, t: int): (ps: seq<seq<Paint>>)
    ensures |ps| == |lines| && forall i :: 0 <= i < |lines| ==> ps[i] == LinePaints(lines[i], t)
  {
    seq(|lines|, i requires 0 <= i < |lines| => LinePaints(lines[i], t))
  }

  /** The two loops of `renderSubtitle` over the lines and their words. */
  method PaintSubtitle(lines: seq<seq<Word>>, t: int) returns (paints: seq<seq<Paint>>)
    ensures paints == SubtitlePaints(lines, t)
  {
    paints := [];
    for i := 0 to |lines|
      invariant paints == SubtitlePaints(lines[..i], t)
    {
      var line := lines[i];
      var painted: seq<Paint> := [];
      for j := 0 to |line|
        invariant painted == LinePaints(line[..j], t)
      {
        var word := line[j];
        var highlighted := t >= word.fromMs;
        var wipe := if t >= word.fromMs && t < word.toMs
                    then Some(Wipe(t - word.fromMs, word.toMs - word.fromMs)) else None;
        painted := painted + [Paint(word.text, highlighted, wipe)];
      }
      assert line[..|line|] == line;
      paints := paints + [painted];
    }
    assert lines[..|lines|] == lines;
  }

  /** How a word with no `text`, `from` or `to` is painted: the canvas writes
      `undefined` as "undefined", and a comparison with `undefined` is false, so
      the word is white and never wiped. */
  const UndefinedWord := Paint("undefined", false, None)

  /** What the loops paint for a string: each character is a line of one word,
      the character itself, which has no `text`. */
  function FlatPaints(text: string): (ps: seq<seq<Paint>>)
    ensures |ps| == |text|
  {
    seq(|text|, i requires 0 <= i < |text| => [UndefinedWord])
  }

  /** The same two loops run over a string: one line per character, one word per
      line. */
  method PaintFlat(text: string) returns (paints: seq<seq<Paint>>)
    ensures paints == FlatPaints(text)
  {
    paints := [];
    for i := 0 to |text|
      invariant paints == FlatPaints(text[..i])
    {
      var line := [text[i]];
      var painted: seq<Paint> := [];
      for j := 0 to |line|
        invariant painted == seq(j, _ => UndefinedWord)
      {
        painted := painted + [UndefinedWord];
      }
      assert painted == [UndefinedWord];
      assert FlatPaints(text[..i + 1]) == FlatPaints(text[..i]) + [[UndefinedWord]];
      paints := paints + [painted];
    }
    assert text[..|text|] == text;
  }

  // ---------------------------------------------------------------------------
  // The effects of one call, as functions of the state before it
  // ---------------------------------------------------------------------------

  /** What `renderSubtitle` draws: nothing when the slot is falsy. */
  function SubtitleEffects(subtitle: Subtitle, t: int): seq<Effect> {
    match subtitle
    case NoSubtitle => []
    case Lines(lines) => [DrawSubtitle(SubtitlePaints(lines, t))]
    case Flat(text) => if text == "" then [] else [DrawSubtitle(FlatPaints(text))]
  }

  /** Lines of words are painted word by word as `WordPaint` says, whatever
      their number; an empty list of lines still draws, an empty set of lines. */
  lemma {:induction false} LinesPaintWords(lines: seq<seq<Word>>, t: int)
    ensures Shown(Lines(lines))
    ensures |SubtitleEffects(Lines(lines), t)| == 1
    ensures var ps := SubtitleEffects(Lines(lines), t)[0].lines;
      |ps| == |lines| && forall i, j :: 0 <= i < |lines| && 0 <= j < |lines[i]| ==>
        |ps[i]| == |lines[i]| && ps[i][j].text == lines[i][j].text
        && (ps[i][j].highlighted <==> t >= lines[i][j].fromMs)
  {
    var ps := SubtitlePaints(lines, t);
    forall i, j | 0 <= i < |lines| && 0 <= j < |lines[i]|
      ensures |ps[i]| == |lines[i]| && ps[i][j] == WordPaint(lines[i][j], t)
    {
      assert ps[i] == LinePaints(lines[i], t);
    }
  }

  /** The string the older player hands over is painted as one "undefined" per
      character, never highlighted; the "" it hands over to clear the subtitle
      draws nothing. */
  lemma {:induction false} FlatSubtitlePaintsUndefined(text: string, t: int)
    ensures Shown(Flat(text)) <==> text != ""
    ensures text == "" ==> SubtitleEffects(Flat(text), t) == []
    ensures text != "" ==> |SubtitleEffects(Flat(text), t)| == 1
    ensures text != "" ==> var ps := SubtitleEffects(Flat(text), t)[0].lines;
      |ps| == |text| && forall i :: 0 <= i < |text| ==> ps[i] == [Paint("undefined", false, None)]
  {
    if text != "" {
      var ps := FlatPaints(text);
      forall i | 0 <= i < |text| ensures ps[i] == [Paint("undefined", false, None)] {
      }
    }
  }

  /** A tick uploads exactly when the shader is on and there is something new: a
      pending update, or a video that is playing. */
  predicate TickUploads(video: Option<VideoElement>, pending: bool, enabled: bool) {
    enabled && (pending || (video.Some? && !video.value.paused))
  }

  /** Whether a tick draws the video: a video is present and is playing or an
      update is pending. */
  predicate TickDrawsVideo(video: Option<VideoElement>, pending: bool) {
    video.Some? && !(video.value.paused && !pending)
  }

  /** The effects of one `render` call. */
  function TickEffects(video: Option<VideoElement>, pending: bool, enabled: bool,
                       subtitle: Subtitle): seq<Effect>
  {
    var drawn := if TickDrawsVideo(video, pending)
                 then [DrawVideo] + SubtitleEffects(subtitle, video.value.currentTimeMs) else [];
    if video.Some? && video.value.paused && !pending then [Schedule(RenderFrame)]
    else if video.None? && !pending then [Schedule(RenderFrame)]
    else if !enabled then drawn + [HideOverlay, Schedule(RenderFrame)]
    else drawn + [ShowOverlay, Upload, Schedule(RenderFrame)]
  }

  /** The display of the overlay after a tick. */
  function TickDisplay(video: Option<VideoElement>, pending: bool, enabled: bool,
                       display: OverlayDisplay): OverlayDisplay
  {
    if !TickDrawsVideo(video, pending) && !pending then display
    else if enabled then Block else NoDisplay
  }

  /** The effects of `captureCanvasContent`. */
  function CaptureEffects(video: Option<VideoElement>, subtitle: Subtitle): seq<Effect> {
    (if video.Some? then [DrawVideo] + SubtitleEffects(subtitle, video.value.currentTimeMs) else [])
    + [Upload]
  }

  /** The effects of `updateTexture`. */
  function UpdateEffects(immediate: bool, enabled: bool, video: Option<VideoElement>,
                         subtitle: Subtitle): seq<Effect>
  {
    if !enabled then []
    else if immediate then CaptureEffects(video, subtitle)
    else [Schedule(CaptureFrame)]
  }

  function Count(effects: seq<Effect>, e: Effect): nat {
    if |effects| == 0 then 0
    else (if effects[0] == e then 1 else 0) + Count(effects[1..], e)
  }

  lemma CountAppend(a: seq<Effect>, b: seq<Effect>, e: Effect)
    ensures Count(a + b, e) == Count(a, e) + Count(b, e)
  {
    if |a| > 0 {
      assert (a + b)[1..] == a[1..] + b;
    } else {
      assert a + b == b;
    }
  }

  lemma NoFrameInSubtitle(subtitle: Subtitle, t: int)
    ensures Count([DrawVideo] + SubtitleEffects(subtitle, t), Schedule(RenderFrame)) == 0
  {
    var s := SubtitleEffects(subtitle, t);
    CountAppend([DrawVideo], s, Schedule(RenderFrame));
    if s != [] {
      assert s[1..] == [];
    }
  }

  /** Every tick asks for exactly one next frame, as its last effect, so the loop
      neither stops nor forks. */
  lemma OneFramePerTick(video: Option<VideoElement>, pending: bool, enabled: bool,
                        subtitle: Subtitle)
    ensures var effects := TickEffects(video, pending, enabled, subtitle);
            Count(effects, Schedule(RenderFrame)) == 1 && effects[|effects| - 1] == Schedule(RenderFrame)
  {
    var drawn := if TickDrawsVideo(video, pending)
                 then [DrawVideo] + SubtitleEffects(subtitle, video.value.currentTimeMs) else [];
    assert Count(drawn, Schedule(RenderFrame)) == 0 by {
      if TickDrawsVideo(video, pending) {
        NoFrameInSubtitle(subtitle, video.value.currentTimeMs);
      }
    }
    CountAppend(drawn, [HideOverlay, Schedule(RenderFrame)], Schedule(RenderFrame));
    CountAppend(drawn, [ShowOverlay, Upload, Schedule(RenderFrame)], Schedule(RenderFrame));
  }

  /** A tick uploads exactly when the shader is on and something is new; it then
      ends with the upload and the next frame, which is where the flag is cleared. */
  lemma TickUploadsExactly(video: Option<VideoElement>, pending: bool, enabled: bool,
                           subtitle: Subtitle)
    ensures var effects := TickEffects(video, pending, enabled, subtitle);
            (Upload in effects <==> TickUploads(video, pending, enabled))
            && (TickUploads(video, pending, enabled) ==>
                  effects[|effects| - 2..] == [Upload, Schedule(RenderFrame)])
  {
    var effects := TickEffects(video, pending, enabled, subtitle);
    if TickDrawsVideo(video, pending) {
      var s := SubtitleEffects(subtitle, video.value.currentTimeMs);
      assert Upload !in [DrawVideo] + s;
    }
  }

  /** With a paused video, or with none, and nothing pending, a tick only asks for
      the next frame. */
  lemma IdleTick(video: Option<VideoElement>, enabled: bool, subtitle: Subtitle)
    requires video.None? || video.value.paused
    ensures TickEffects(video, false, enabled, subtitle) == [Schedule(RenderFrame)]
    ensures !TickUploads(video, false, enabled)
  {
  }

  /** With the shader off a tick hides the overlay and uploads nothing; a present,
      playing video is still drawn into the capture canvas first. */
  lemma DisabledTick(video: Option<VideoElement>, pending: bool, subtitle: Subtitle)
    ensures Upload !in TickEffects(video, pending, false, subtitle)
    ensures video.Some? && !video.value.paused ==>
              TickEffects(video, pending, false, subtitle)[0] == DrawVideo
              && HideOverlay in TickEffects(video, pending, false, subtitle)
  {
    if TickDrawsVideo(video, pending) {
      var s := SubtitleEffects(subtitle, video.value.currentTimeMs);
      assert Upload !in [DrawVideo] + s;
    }
  }

  // ---------------------------------------------------------------------------
  // The state of the module and its operations
  // ---------------------------------------------------------------------------

  /** The module-level and closure state of the overlay renderer. */
  class Overlay {
    var needsTextureUpdate: bool
    var shaderEnabled: bool
    var display: OverlayDisplay
    var subtitle: Subtitle
    var subtitleChanged: bool
    var trace: seq<Effect>

    /** The state once the module is loaded: an update is pending from the start. */
    constructor (shaderEnabled: bool)
      ensures needsTextureUpdate && this.shaderEnabled == shaderEnabled
      ensures display == AsStyled && subtitle == NoSubtitle && !subtitleChanged && trace == []
    {
      needsTextureUpdate := true;
      this.shaderEnabled := shaderEnabled;
      display := AsStyled;
      subtitle := NoSubtitle;
      subtitleChanged := false;
      trace := [];
    }

    /** `setVideoSubtitle`: stores whatever it is given. */
    method SetVideoSubtitle(value: Subtitle)
      modifies this
      ensures subtitle == value && subtitleChanged
      ensures needsTextureUpdate == old(needsTextureUpdate) && shaderEnabled == old(shaderEnabled)
      ensures display == old(display) && trace == old(trace)
    {
      subtitle := value;
      subtitleChanged := true;
    }

    /** `clearVideoSubtitle` */
    method ClearVideoSubtitle()
      modifies this
      ensures subtitle == NoSubtitle && subtitleChanged
      ensures needsTextureUpdate == old(needsTextureUpdate) && shaderEnabled == old(shaderEnabled)
      ensures display == old(display) && trace == old(trace)
    {
      subtitle := NoSubtitle;
      subtitleChanged := true;
    }

    /** `renderSubtitle`: the change mark is dropped once a subtitle is drawn; with
        a falsy slot (`null` or "") nothing is drawn and the mark stays. */
    method RenderSubtitle(video: VideoElement)
      modifies this
      ensures trace == old(trace) + SubtitleEffects(subtitle, video.currentTimeMs)
      ensures subtitleChanged == (old(subtitleChanged) && !Shown(subtitle))
      ensures subtitle == old(subtitle) && needsTextureUpdate == old(needsTextureUpdate)
      ensures shaderEnabled == old(shaderEnabled) && display == old(display)
    {
      if Shown(subtitle) && subtitleChanged {
        subtitleChanged := false;
      }
      if !Shown(subtitle) {
        return;
      }
      var paints;
      if subtitle.Lines? {
        paints := PaintSubtitle(subtitle.lines, video.currentTimeMs);
      } else {
        paints := PaintFlat(subtitle.text);
      }
      trace := trace + [DrawSubtitle(paints)];
    }

    /** The video frame and the subtitle drawn into the capture canvas. */
    method DrawFrame(video: VideoElement)
      modifies this
      ensures trace == old(trace) + [DrawVideo] + SubtitleEffects(subtitle, video.currentTimeMs)
      ensures subtitleChanged == (old(subtitleChanged) && !Shown(subtitle))
      ensures subtitle == old(subtitle) && needsTextureUpdate == old(needsTextureUpdate)
      ensures shaderEnabled == old(shaderEnabled) && display == old(display)
    {
      trace := trace + [DrawVideo];
      RenderSubtitle(video);
    }

    /** One `render` call of the frame loop. */
    method RenderTick(video: Option<VideoElement>)
      modifies this
      ensures trace == old(trace) + TickEffects(video, old(needsTextureUpdate), shaderEnabled, subtitle)
      ensures needsTextureUpdate == (old(needsTextureUpdate) && !TickUploads(video, old(needsTextureUpdate), shaderEnabled))
      ensures display == TickDisplay(video, old(needsTextureUpdate), shaderEnabled, old(display))
      ensures subtitleChanged == (old(subtitleChanged) && !(TickDrawsVideo(video, old(needsTextureUpdate)) && Shown(subtitle)))
      ensures subtitle == old(subtitle) && shaderEnabled == old(shaderEnabled)
    {
      if video.Some? {
        if video.value.paused && !needsTextureUpdate {
          trace := trace + [Schedule(RenderFrame)];
          return;
        }
        DrawFrame(video.value);
      }
      if video.None? && !needsTextureUpdate {
        trace := trace + [Schedule(RenderFrame)];
        return;
      }
      if !shaderEnabled {
        display := NoDisplay;
        trace := trace + [HideOverlay, Schedule(RenderFrame)];
        return;
      }
      display := Block;
      trace := trace + [ShowOverlay, Upload];
      needsTextureUpdate := false;
      trace := trace + [Schedule(RenderFrame)];
    }

    /** `captureCanvasContent`: draw what there is, upload, clear the flag. */
    method CaptureCanvasContent(video: Option<VideoElement>)
      modifies this
      ensures trace == old(trace) + CaptureEffects(video, subtitle)
      ensures !needsTextureUpdate
      ensures subtitleChanged == (old(subtitleChanged) && !(video.Some? && Shown(subtitle)))
      ensures subtitle == old(subtitle) && shaderEnabled == old(shaderEnabled) && display == old(display)
    {
      if video.Some? {
        DrawFrame(video.value);
      }
      trace := trace + [Upload];
      needsTextureUpdate := false;
    }

    /** `updateTexture`: nothing while the shader is off; otherwise capture now or
        in the next frame. */
    method UpdateTexture(immediate: bool, video: Option<VideoElement>)
      modifies this
      ensures trace == old(trace) + UpdateEffects(immediate, shaderEnabled, video, subtitle)
      ensures needsTextureUpdate == (old(needsTextureUpdate) && !(shaderEnabled && immediate))
      ensures subtitleChanged == (old(subtitleChanged) && !(shaderEnabled && immediate && video.Some? && Shown(subtitle)))
      ensures subtitle == old(subtitle) && shaderEnabled == old(shaderEnabled) && display == old(display)
    {
      if !shaderEnabled {
        return;
      }
      if immediate {
        CaptureCanvasContent(video);
      } else {
        trace := trace + [Schedule(CaptureFrame)];
      }
    }

    /** `requestTextureUpdate`: ignored while an update is pending; otherwise
        marks one and asks for it. */
    method RequestTextureUpdate(immediate: bool, video: Option<VideoElement>)
      modifies this
      ensures old(needsTextureUpdate) ==> trace == old(trace) && needsTextureUpdate
      ensures !old(needsTextureUpdate) ==>
                trace == old(trace) + UpdateEffects(immediate, shaderEnabled, video, subtitle)
                && needsTextureUpdate == !(shaderEnabled && immediate)
      ensures subtitleChanged == (old(subtitleChanged)
                && !(!old(needsTextureUpdate) && shaderEnabled && immediate && video.Some? && Shown(subtitle)))
      ensures subtitle == old(subtitle) && shaderEnabled == old(shaderEnabled) && display == old(display)
    {
      if needsTextureUpdate {
        return;
      }
      needsTextureUpdate := true;
      UpdateTexture(immediate, video);
    }

    /** `toggleVHSShader`: switching on also sets the 25 ms timer for an immediate
        capture; either way a deferred update is requested. */
    method ToggleVHSShader(enabled: bool, video: Option<VideoElement>)
      modifies this
      ensures shaderEnabled == enabled
      ensures old(needsTextureUpdate) ==>
                trace == old(trace) + (if enabled then [Schedule(EnableTimer)] else []) && needsTextureUpdate
      ensures !old(needsTextureUpdate) ==>
                trace == old(trace) + (if enabled then [Schedule(EnableTimer), Schedule(CaptureFrame)] else [])
                && needsTextureUpdate
      ensures subtitle == old(subtitle) && subtitleChanged == old(subtitleChanged) && display == old(display)
    {
      shaderEnabled := enabled;
      if enabled {
        trace := trace + [Schedule(EnableTimer)];
      }
      RequestTextureUpdate(false, video);
    }

    /** The 25 ms timer set by `toggleVHSShader(true)`. */
    method EnableTimerFired(video: Option<VideoElement>)
      modifies this
      ensures trace == old(trace) + UpdateEffects(true, shaderEnabled, video, subtitle)
      ensures needsTextureUpdate == (old(needsTextureUpdate) && !shaderEnabled)
      ensures subtitle == old(subtitle) && shaderEnabled == old(shaderEnabled) && display == old(display)
    {
      UpdateTexture(true, video);
    }
  }
}
