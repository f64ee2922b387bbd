/** The string helpers of the channel-menu generator (`channels.go`): Go's
    `filepath.Ext`, `strings.TrimSuffix`, the base name shared by a video and its
    audio and subtitle files, the kind of a file read from its extension, and the
    fixed-width screen header. Go measures strings in bytes, so the header width
    is counted in UTF-8 bytes. */
module ChannelsNames {
  import opened Text

  // ---------------------------------------------------------------------------
  // Extensions and base names
  // ---------------------------------------------------------------------------

  /** `filepath.Ext`: the suffix from the last dot of the last path element, or
      "" when that element has no dot. */
  function GoExt(s: string): (e: string)
    ensures EndsWith(s, e)
    ensures e != "" ==> IsExt(e)
    ensures e == "" ==> '.' !in s || '/' in s
    decreases |s|
  {
    if |s| == 0 || s[|s| - 1] == '/' then ""
    else if s[|s| - 1] == '.' then "."
    else
      var e := GoExt(s[..|s| - 1]);
      assert s == s[..|s| - 1] + [s[|s| - 1]];
      if e == "" then ""
      else
        assert s[|s| - |e| - 1..] == s[..|s| - 1][|s| - 1 - |e|..] + [s[|s| - 1]];
        e + [s[|s| - 1]]
  }

  /** An extension as `filepath.Ext` reports one: a dot, then no dot and no
      slash. */
  predicate IsExt(ext: string) {
    |ext| >= 1 && ext[0] == '.' && forall j :: 1 <= j < |ext| ==> ext[j] != '.' && ext[j] != '/'
  }

  /** The extension of a file name `stem + ext` is `ext`. */
  lemma {:induction false} ExtOfStem(stem: string, ext: string)
    requires IsExt(ext)
    ensures GoExt(stem + ext) == ext
    decreases |ext|
  {
    var s := stem + ext;
    var last := ext[|ext| - 1];
    assert s[|s| - 1] == last;
    if |ext| > 1 {
      var init := ext[..|ext| - 1];
      assert last != '.' && last != '/';
      assert IsExt(init);
      assert s[..|s| - 1] == stem + init;
      ExtOfStem(stem, init);
      GoExtStep(s);
      assert init + [last] == ext;
    } else {
      assert last == '.';
    }
  }

  /** One step of `filepath.Ext` over a last character that is neither a dot
      nor a slash. */
  lemma GoExtStep(s: string)
    requires |s| > 0 && s[|s| - 1] != '/' && s[|s| - 1] != '.'
    ensures var e := GoExt(s[..|s| - 1]);
      GoExt(s) == if e == "" then "" else e + [s[|s| - 1]]
  {
  }

  /** `strings.TrimSuffix`: `s` without `suffix` when it ends with it. */
  function TrimSuffix(s: string, suffix: string): (r: string)
    ensures EndsWith(s, suffix) ==> r + suffix == s
    ensures !EndsWith(s, suffix) ==> r == s
  {
    if EndsWith(s, suffix) then s[..|s| - |suffix|] else s
  }

  /** The file name without its extension. */
  function Stem(name: string): string {
    TrimSuffix(name, GoExt(name))
  }

  /** `getBaseName`: the last extension removed, then one trailing `_audio`, so
      that a video, its `_audio` track and its subtitles share a base name. */
  function BaseName(name: string): string {
    TrimSuffix(Stem(name), "_audio")
  }

  /** Only the last extension goes, and at most one `_audio` after it. */
  lemma BaseNameStripsOnce(stem: string, ext: string)
    requires IsExt(ext)
    ensures BaseName(stem + ext) == TrimSuffix(stem, "_audio")
    ensures BaseName(stem + "_audio" + ext) == stem
  {
    ExtOfStem(stem, ext);
    assert Stem(stem + ext) == stem by {
      assert (stem + ext)[..|stem|] == stem;
    }
    ExtOfStem(stem + "_audio", ext);
    assert Stem(stem + "_audio" + ext) == stem + "_audio" by {
      assert (stem + "_audio" + ext)[..|stem| + 6] == stem + "_audio";
    }
    assert (stem + "_audio")[..|stem|] == stem;
  }

  // ---------------------------------------------------------------------------
  // The kind of a scanned file
  // ---------------------------------------------------------------------------

  /** The file kinds the scan records, the keys of its innermost map. */
  const VideoKind := "video"
  const AudioKind := "audio"
  const SubtitlesKind := "subtitles"

  /** The classification as written: the lower-cased extension picks `.mp4` or
      `.vtt`, and an `.mp4` is audio when the whole name ends, case-sensitively,
      in `_audio.mp4`. Other extensions have no kind. */
  function KindAsWritten(name: string): Option<string> {
    var ext := ToLower(GoExt(name));
    if ext == ".mp4" then Some(if EndsWith(name, "_audio.mp4") then AudioKind else VideoKind)
    else if ext == ".vtt" then Some(SubtitlesKind)
    else None
  }

  /** An audio track whose extension is not written in lower case is taken for a
      video, and its base name is that of the video it accompanies, so whichever
      of the two the walk meets last is recorded as the video. */
  lemma KindAsWrittenMistakesAudio()
    ensures KindAsWritten("clip_audio.MP4") == Some(VideoKind)
    ensures BaseName("clip_audio.MP4") == BaseName("clip.mp4") == "clip"
  {
    UpperAudioExt();
    assert !EndsWith("clip_audio.MP4", "_audio.mp4") by {
      assert "clip_audio.MP4"[11] != "_audio.mp4"[7];
    }
    ClipBaseNames();
  }

  lemma ClipBaseNames()
    ensures BaseName("clip_audio.MP4") == BaseName("clip.mp4") == "clip"
  {
    ClipAudioBaseName();
    assert IsExt(".mp4");
    assert "clip" + ".mp4" == "clip.mp4";
    BaseNameStripsOnce("clip", ".mp4");
    assert !EndsWith("clip", "_audio");
  }

  lemma ClipAudioBaseName()
    ensures BaseName("clip_audio.MP4") == "clip"
  {
    assert IsExt(".MP4");
    assert "clip" + "_audio" + ".MP4" == "clip_audio.MP4";
    BaseNameStripsOnce("clip", ".MP4");
  }

  lemma UpperAudioExt()
    ensures ToLower(GoExt("clip_audio.MP4")) == ".mp4"
  {
    ExtOfStem("clip_audio", ".MP4");
    assert "clip_audio" + ".MP4" == "clip_audio.MP4";
    assert ToLower(".MP4") == ".mp4" by {
      assert LowerChar('M') == 'm' && LowerChar('P') == 'p';
    }
  }

  /** The corrected classification tells the two files of that example
      apart, and both classifications take `clip.mp4` for a video. */
  lemma ClipKinds()
    ensures KindAsWritten("clip.mp4") == Kind("clip.mp4") == Some(VideoKind)
    ensures Kind("clip_audio.MP4") == Some(AudioKind)
  {
    ExtOfStem("clip", ".mp4");
    assert "clip" + ".mp4" == "clip.mp4";
    assert ToLower(".mp4") == ".mp4";
    KindAgreesOnLowerCase("clip.mp4");
    assert Stem("clip.mp4") == "clip";
    assert !EndsWith("clip", "_audio");
    UpperAudioExt();
    ExtOfStem("clip_audio", ".MP4");
    assert "clip_audio" + ".MP4" == "clip_audio.MP4";
    assert Stem("clip_audio.MP4") == "clip_audio";
    assert EndsWith("clip_audio", "_audio");
  }

  /** The classification the model uses: as written, except that an `.mp4` is
      audio exactly when the name without its extension ends in `_audio`, the
      suffix that `getBaseName` removes. */
  function Kind(name: string): (k: Option<string>)
    ensures k == Some(VideoKind) ==> BaseName(name) == Stem(name)
    ensures k == Some(AudioKind) ==> BaseName(name) + "_audio" == Stem(name)
    ensures k.Some? <==> ToLower(GoExt(name)) in {".mp4", ".vtt"}
  {
    var ext := ToLower(GoExt(name));
    if ext == ".mp4" then Some(if EndsWith(Stem(name), "_audio") then AudioKind else VideoKind)
    else if ext == ".vtt" then Some(SubtitlesKind)
    else None
  }

  /** Where the extension is written in lower case, the two classifications
      agree. */
  lemma KindAgreesOnLowerCase(name: string)
    requires ToLower(GoExt(name)) == GoExt(name)
    ensures Kind(name) == KindAsWritten(name)
  {
    var ext := GoExt(name);
    if ext == ".mp4" {
      var stem := name[..|name| - 4];
      assert Stem(name) == stem;
      var audio := EndsWith(stem, "_audio");
      assert audio == EndsWith(name, "_audio.mp4") by {
        if |stem| >= 6 {
          assert name[|name| - 10..] == stem[|stem| - 6..] + name[|name| - 4..];
        }
      }
      assert Kind(name) == Some(if audio then AudioKind else VideoKind);
    }
  }

  /** The generator as written, or with the two corrections the model proposes:
      the audio suffix recognised in any case, and string values escaped. */
  datatype Generator = AsWritten | Corrected

  /** The kind the scan files a name under, in either generator. */
  function KindOf(g: Generator, name: string): Option<string> {
    if g == AsWritten then KindAsWritten(name) else Kind(name)
  }

  /** Either generator files a name under a kind exactly when its lower-cased
      extension is `.mp4` or `.vtt`; the two differ only in telling a video
      from an audio track, and not at all where the extension is written in
      lower case. */
  lemma KindsDifferOnlyOnMp4(name: string)
    ensures KindOf(AsWritten, name).Some? <==> ToLower(GoExt(name)) in {".mp4", ".vtt"}
    ensures KindOf(Corrected, name).Some? <==> ToLower(GoExt(name)) in {".mp4", ".vtt"}
    ensures KindOf(Corrected, name) !in {Some(VideoKind), Some(AudioKind)}
      ==> KindOf(Corrected, name) == KindOf(AsWritten, name)
    ensures KindOf(AsWritten, name) !in {Some(VideoKind), Some(AudioKind)}
      ==> KindOf(Corrected, name) == KindOf(AsWritten, name)
    ensures ToLower(GoExt(name)) == GoExt(name) ==> KindOf(Corrected, name) == KindOf(AsWritten, name)
  {
    if ToLower(GoExt(name)) == GoExt(name) {
      KindAgreesOnLowerCase(name);
    }
  }

  // ---------------------------------------------------------------------------
  // Screen headers
  // ---------------------------------------------------------------------------

  /** The number of bytes UTF-8 spends on `c`. */
  function Utf8Width(c: char): nat {
    if c as int < 0x80 then 1 else if c as int < 0x800 then 2 else if c as int < 0x10000 then 3 else 4
  }

  /** Go's `len` of a string: its length in UTF-8 bytes. */
  function Utf8Len(s: string): (n: nat)
    ensures n >= |s|
    decreases |s|
  {
    if |s| == 0 then 0 else Utf8Len(s[..|s| - 1]) + Utf8Width(s[|s| - 1])
  }

  lemma {:induction false} Utf8LenAppend(a: string, b: string)
    ensures Utf8Len(a + b) == Utf8Len(a) + Utf8Len(b)
    decreases |b|
  {
    if |b| == 0 {
      assert a + b == a;
    } else {
      assert (a + b)[..|a + b| - 1] == a + b[..|b| - 1];
      Utf8LenAppend(a, b[..|b| - 1]);
    }
  }

  /** Upper-casing ASCII letters keeps the byte length. */
  lemma {:induction false} Utf8LenUpper(s: string)
    ensures Utf8Len(ToUpper(s)) == Utf8Len(s)
    decreases |s|
  {
    if |s| > 0 {
      assert ToUpper(s)[..|s| - 1] == ToUpper(s[..|s| - 1]);
      Utf8LenUpper(s[..|s| - 1]);
    }
  }

  /** A run of `n` dashes, `strings.Repeat("-", n)` for `n >= 0`. */
  function Dashes(n: nat): (r: string)
    ensures |r| == n && forall i :: 0 <= i < n ==> r[i] == '-'
  {
    seq(n, i => '-')
  }

  lemma {:induction false} Utf8LenDashes(n: nat)
    ensures Utf8Len(Dashes(n)) == n
    decreases n
  {
    if n > 0 {
      assert Dashes(n)[..n - 1] == Dashes(n - 1);
      Utf8LenDashes(n - 1);
    }
  }

  /** Go's `/` on integers, which truncates toward zero. */
  function GoQuot(a: int, b: int): (q: int)
    requires b > 0
    ensures a >= 0 ==> q == a / b
    ensures a < 0 ==> q == -((-a) / b)
  {
    if a >= 0 then a / b else -((-a) / b)
  }

  /** `formatHeader`: the upper-cased header between a space on each side and
      dashes, with the odd dash on the right. `strings.Repeat` panics on a
      negative count, which happens from 24 bytes on. */
  function FormatHeader(header: string): (r: Result<string, string>)
    ensures r.Err? <==> Utf8Len(header) >= 24
  {
    var n := Utf8Len(header);
    var d := GoQuot(22 - n, 2);
    if d < 0 then Err("strings: negative Repeat count")
    else Ok(Dashes(d) + " " + ToUpper(header) + " " + Dashes(d) + (if n % 2 == 1 then "-" else ""))
  }

  /** A header of up to 22 bytes is centred in exactly 24 bytes: `left` dashes,
      a space, the upper-cased header, a space and `left` or `left + 1` dashes,
      the extra one when the header's length is odd. */
  lemma HeaderWidth(header: string)
    requires Utf8Len(header) <= 22
    ensures var r := FormatHeader(header).value;
      var n := Utf8Len(header);
      var left := (22 - n) / 2;
      var right := 22 - n - left;
      Utf8Len(r) == 24
      && r == Dashes(left) + " " + ToUpper(header) + " " + Dashes(right)
      && right - left == n % 2
  {
    var n := Utf8Len(header);
    var left := (22 - n) / 2;
    var right := 22 - n - left;
    HeaderPieces(header, left, right);
    Utf8LenUpper(header);
    CenteredLen(left, ToUpper(header), right);
  }

  /** The pieces `formatHeader` writes for a header of up to 22 bytes. */
  lemma HeaderPieces(header: string, left: nat, right: nat)
    requires Utf8Len(header) <= 22
    requires left == (22 - Utf8Len(header)) / 2 && right == 22 - Utf8Len(header) - left
    ensures FormatHeader(header).value == Dashes(left) + " " + ToUpper(header) + " " + Dashes(right)
    ensures right - left == Utf8Len(header) % 2
  {
    var n := Utf8Len(header);
    var tail := if n % 2 == 1 then "-" else "";
    assert Dashes(left) + tail == Dashes(right);
    var a := Dashes(left) + " " + ToUpper(header) + " ";
    assert FormatHeader(header).value == a + (Dashes(left) + tail);
  }

  /** The byte length of `u` between a space on each side and dashes. */
  lemma CenteredLen(left: nat, u: string, right: nat)
    ensures Utf8Len(Dashes(left) + " " + u + " " + Dashes(right)) == left + Utf8Len(u) + 2 + right
  {
    var a := Dashes(left) + " ";
    var b := a + u;
    var c := b + " ";
    Utf8LenAscii(" ");
    Utf8LenDashes(left);
    Utf8LenDashes(right);
    Utf8LenAppend(Dashes(left), " ");
    Utf8LenAppend(a, u);
    Utf8LenAppend(b, " ");
    Utf8LenAppend(c, Dashes(right));
  }

  /** A 23-byte header does not panic, but overflows the width: 26 bytes. */
  lemma HeaderOf23Bytes(header: string)
    requires Utf8Len(header) == 23
    ensures FormatHeader(header).Ok? && Utf8Len(FormatHeader(header).value) == 26
  {
    var r := FormatHeader(header).value;
    assert r == " " + ToUpper(header) + " " + "-";
    Utf8LenAppend(" " + ToUpper(header) + " ", "-");
    Utf8LenAppend(" " + ToUpper(header), " ");
    Utf8LenAppend(" ", ToUpper(header));
    Utf8LenUpper(header);
  }

  /** The header of the generated channels screen. */
  lemma ChannelsHeader()
    ensures FormatHeader("channels") == Ok("------- CHANNELS -------")
  {
    Utf8LenAscii("channels");
    assert ToUpper("channels") == "CHANNELS" by {
      assert UpperChar('c') == 'C' && UpperChar('h') == 'H' && UpperChar('a') == 'A' && UpperChar('n') == 'N';
      assert UpperChar('e') == 'E' && UpperChar('l') == 'L' && UpperChar('s') == 'S';
    }
    assert Dashes(7) == "-------";
    assert GoQuot(22 - 8, 2) == 7;
    assert FormatHeader("channels") == Ok(Dashes(7) + " " + ToUpper("channels") + " " + Dashes(7) + "");
    assert "-------" + " " + "CHANNELS" + " " + "-------" + "" == "------- CHANNELS -------";
  }

  /** For ASCII text, bytes and characters agree. */
  lemma {:induction false} Utf8LenAscii(s: string)
    requires forall i :: 0 <= i < |s| ==> s[i] as int < 0x80
    ensures Utf8Len(s) == |s|
    decreases |s|
  {
    if |s| > 0 {
      Utf8LenAscii(s[..|s| - 1]);
    }
  }
}
