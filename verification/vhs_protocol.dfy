/** The decision the `vhs://` protocol handler makes for one request: from the
    request URL, the outcome of `stat` on the file and the Range header to a
    status, headers and the byte interval to stream. A valid range is answered
    with 206 Partial Content and a Content-Range (sections 4.1 and 4.2 of RFC 7233);
    an absent or unusable range is answered with the whole file and 200, which
    section 3.1 of RFC 7233 permits. The handler never answers 416. */
module VhsProtocol {
  import opened Text
  import opened RangeRequest

  const Scheme: string := "vhs://"

  /** What `fs.stat` reports: an error code, or whether the path is a regular file
      and its size in bytes. */
  datatype StatOutcome = StatFailed(code: string) | Stat(isFile: bool, size: nat)

  /** A response body: a short text, or a stream over the file, limited to an
      inclusive byte interval when `range` is present. */
  datatype Body = Message(text: string) | FileStream(path: string, range: Option<ByteRange>)

  /** The response headers the handler sets; None where it sets none. */
  datatype Headers = Headers(contentType: Option<string>, contentLength: Option<string>,
                             contentRange: Option<string>, acceptRanges: Option<string>)

  const NoHeaders := Headers(None, None, None, None)

  datatype Response = Response(status: nat, headers: Headers, body: Body)

  /** The `file:` URL the handler builds from a `vhs:` URL: the part after `vhs://`,
      given a leading slash when it has none. None when the URL has another scheme. */
  function FileUrlOf(url: string): (r: Option<string>)
    ensures r.Some? <==> StartsWith(url, Scheme)
    ensures r.Some? ==> StartsWith(r.value, "file:///")
  {
    if !StartsWith(url, Scheme) then None
    else
      var pathPart := url[|Scheme|..];
      var fileUrl := "file://" + (if StartsWith(pathPart, "/") then "" else "/") + pathPart;
      assert fileUrl[..8] == "file:///";
      Some(fileUrl)
  }

  /** The URL the renderer's `playVideo` gives the video element for a file path. */
  function PlayerUrl(videoPath: string): string {
    Scheme + videoPath
  }

  /** A path handed to the player reaches the handler unchanged: the file URL is the
      path itself after `file://`, with one slash put in front of a relative path and
      none added to an absolute one. */
  lemma PlayerUrlKeepsPath(videoPath: string)
    ensures FileUrlOf(PlayerUrl(videoPath)).Some?
    ensures StartsWith(videoPath, "/") ==> FileUrlOf(PlayerUrl(videoPath)) == Some("file://" + videoPath)
    ensures !StartsWith(videoPath, "/") ==> FileUrlOf(PlayerUrl(videoPath)) == Some("file:///" + videoPath)
  {
    var url := PlayerUrl(videoPath);
    assert StartsWith(url, Scheme);
    assert url[|Scheme|..] == videoPath;
    assert "file://" + "" + videoPath == "file://" + videoPath;
    assert "file://" + "/" + videoPath == "file:///" + videoPath;
  }

  // ---------------------------------------------------------------------------
  // File extension and MIME type
  // ---------------------------------------------------------------------------

  function DropTrailingSlashes(path: string): (r: string)
    ensures |r| <= |path| && r == path[..|r|]
    ensures r == [] || r[|r| - 1] != '/'
    decreases |path|
  {
    if |path| > 0 && path[|path| - 1] == '/' then DropTrailingSlashes(path[..|path| - 1]) else path
  }

  /** The position of the last `c` in `s`, or -1. */
  function LastIndexOf(s: string, c: char): (k: int)
    ensures -1 <= k < |s|
    ensures k >= 0 ==> s[k] == c
    ensures forall i :: k < i < |s| ==> s[i] != c
    decreases |s|
  {
    if |s| == 0 then -1
    else if s[|s| - 1] == c then |s| - 1
    else LastIndexOf(s[..|s| - 1], c)
  }

  /** The last path component, trailing slashes ignored. */
  function BaseName(path: string): (r: string)
    ensures '/' !in r
  {
    var trimmed := DropTrailingSlashes(path);
    trimmed[LastIndexOf(trimmed, '/') + 1..]
  }

  /** Node's `path.extname` for a POSIX path: the last component from its last dot
      on; empty when that component has no dot, starts with its only relevant dot
      (a dot-file such as `.bashrc`), or is `..`. */
  function Extname(path: string): (ext: string)
    ensures ext == [] || ext[0] == '.'
    ensures '/' !in ext
    ensures EndsWith(BaseName(path), ext)
  {
    var base := BaseName(path);
    var dot := LastIndexOf(base, '.');
    if dot <= 0 || base == ".." then "" else base[dot..]
  }

  /** The extension to MIME-type table of the handler; any other extension gets the
      generic binary type. */
  function MimeType(ext: string): (mime: string)
    ensures mime != "application/octet-stream" <==>
              ext in {".mp4", ".webm", ".ogg", ".ogv", ".mkv", ".avi", ".mov"}
    ensures StartsWith(mime, "video/") || mime == "application/octet-stream"
  {
    match ext
    case ".mp4" => "video/mp4"
    case ".webm" => "video/webm"
    case ".ogg" => "video/ogg"
    case ".ogv" => "video/ogg"
    case ".mkv" => "video/x-matroska"
    case ".avi" => "video/x-msvideo"
    case ".mov" => "video/quicktime"
    case _ => "application/octet-stream"
  }

  // ---------------------------------------------------------------------------
  // The handler
  // ---------------------------------------------------------------------------

  function ContentRange(range: ByteRange, size: nat): string {
    "bytes " + NatToString(range.start) + "-" + NatToString(range.end) + "/" + NatToString(size)
  }

  /** One request to the `vhs` scheme. `fileUrlToPath` stands for
      `fileURLToPath(new URL(..))`, None when either throws; `stat` for `fs.stat`. */
  function Handle(url: string, rangeHeader: Option<string>,
                  fileUrlToPath: string -> Option<string>, stat: string -> StatOutcome): (r: Response)
    ensures r.status in {200, 206, 400, 404, 500}
    ensures !StartsWith(url, Scheme) ==> r.status == 400
    ensures r.status in {200, 206} <==> r.body.FileStream?
    ensures r.status == 206 <==> r.headers.contentRange.Some?
    ensures r.status == 206 <==> r.body.FileStream? && r.body.range.Some?
    ensures r.body.FileStream? ==>
              r.headers.contentType.Some? && r.headers.contentLength.Some?
              && r.headers.acceptRanges == Some("bytes")
    ensures r.body.Message? ==> r.headers == NoHeaders
  {
    match FileUrlOf(url)
    case None => Response(400, NoHeaders, Message("Invalid protocol scheme"))
    case Some(fileUrl) =>
      match fileUrlToPath(fileUrl)
      case None => Response(500, NoHeaders, Message("Internal Server Error"))
      case Some(path) =>
        match stat(path)
        case StatFailed(code) =>
          if code == "ENOENT" then Response(404, NoHeaders, Message("File not found"))
          else Response(500, NoHeaders, Message("Internal Server Error (stat)"))
        case Stat(isFile, size) =>
          if !isFile then Response(400, NoHeaders, Message("Path is not a file"))
          else ServeFile(path, rangeHeader, size)
  }

  /** The answer for a regular file of `size` bytes: 206 with the interval and its
      Content-Range when the Range header is valid for the file, 200 with the whole
      file otherwise; Content-Length is the number of bytes the stream yields. */
  function ServeFile(path: string, rangeHeader: Option<string>, size: nat): (r: Response)
    ensures var range := ParseRangeHeader(rangeHeader, size);
            && r.body == FileStream(path, range)
            && r.status == (if range.Some? then 206 else 200)
            && r.headers.contentType == Some(MimeType(ToLower(Extname(path))))
            && r.headers.acceptRanges == Some("bytes")
            && r.headers.contentLength.Some? && AllDigits(r.headers.contentLength.value)
            && Decimal(r.headers.contentLength.value)
               == (if range.Some? then range.value.end - range.value.start + 1 else size)
            && (r.headers.contentRange.Some? <==> range.Some?)
  {
    var mime := MimeType(ToLower(Extname(path)));
    match ParseRangeHeader(rangeHeader, size)
    case Some(range) =>
      Response(206, Headers(Some(mime), Some(NatToString(range.end - range.start + 1)),
                            Some(ContentRange(range, size)), Some("bytes")),
               FileStream(path, Some(range)))
    case None =>
      Response(200, Headers(Some(mime), Some(NatToString(size)), None, Some("bytes")),
               FileStream(path, None))
  }

  /** A URL of another scheme is answered with 400 whatever the file system holds:
      nothing is converted or looked up first. */
  lemma BadSchemeBeforeFilesystem(url: string, rangeHeader: Option<string>,
                                  toPath1: string -> Option<string>, stat1: string -> StatOutcome,
                                  toPath2: string -> Option<string>, stat2: string -> StatOutcome)
    requires !StartsWith(url, Scheme)
    ensures Handle(url, rangeHeader, toPath1, stat1) == Handle(url, rangeHeader, toPath2, stat2)
    ensures Handle(url, rangeHeader, toPath1, stat1).status == 400
  {
  }

  /** The outcome of `stat` alone decides the error statuses, before the extension
      or the Range header is looked at: a missing file is 404, any other stat
      error is 500, and a path that is not a regular file is 400. */
  lemma StatDecidesErrors(url: string, rangeHeader: Option<string>,
                          fileUrlToPath: string -> Option<string>, stat: string -> StatOutcome)
    requires StartsWith(url, Scheme)
    requires fileUrlToPath(FileUrlOf(url).value).Some?
    ensures var outcome := stat(fileUrlToPath(FileUrlOf(url).value).value);
            var r := Handle(url, rangeHeader, fileUrlToPath, stat);
            && (outcome == StatFailed("ENOENT") ==> r.status == 404)
            && (outcome.StatFailed? && outcome.code != "ENOENT" ==> r.status == 500)
            && (outcome.Stat? && !outcome.isFile ==> r.status == 400)
            && (outcome.Stat? && outcome.isFile ==> r.status in {200, 206})
  {
  }

  /** The bytes a stream over `content` yields for a response body. */
  function Streamed(content: seq<bv8>, range: Option<ByteRange>): seq<bv8>
    requires range.Some? ==> range.value.start <= range.value.end < |content|
  {
    match range
    case None => content
    case Some(r) => content[r.start..r.end + 1]
  }

  /** For a regular file holding `content`: a valid range is answered with 206 and
      the bytes of exactly that interval, anything else with 200 and the whole file;
      in both cases Content-Length states the number of bytes streamed, and the
      MIME type comes from the lower-cased extension. */
  lemma {:induction false} ServedBytes(url: string, rangeHeader: Option<string>,
                                       fileUrlToPath: string -> Option<string>,
                                       stat: string -> StatOutcome, content: seq<bv8>)
    requires StartsWith(url, Scheme)
    requires fileUrlToPath(FileUrlOf(url).value).Some?
    requires stat(fileUrlToPath(FileUrlOf(url).value).value) == Stat(true, |content|)
    ensures var path := fileUrlToPath(FileUrlOf(url).value).value;
            var r := Handle(url, rangeHeader, fileUrlToPath, stat);
            var range := ParseRangeHeader(rangeHeader, |content|);
            && r.body == FileStream(path, range)
            && r.status == (if range.Some? then 206 else 200)
            && r.headers.contentType == Some(MimeType(ToLower(Extname(path))))
            && r.headers.contentLength.Some?
            && AllDigits(r.headers.contentLength.value)
            && Decimal(r.headers.contentLength.value) == |Streamed(content, range)|
            && (range.Some? ==> Streamed(content, range) == content[range.value.start..range.value.end + 1])
            && (range.None? ==> Streamed(content, range) == content)
  {
    var path := fileUrlToPath(FileUrlOf(url).value).value;
    assert Handle(url, rangeHeader, fileUrlToPath, stat) == ServeFile(path, rangeHeader, |content|);
  }

  /** Reads a Content-Range value `bytes <first>-<last>/<size>` back into its numbers. */
  function ParseContentRange(value: string): (r: Option<(nat, nat, nat)>)
  {
    if !StartsWith(value, "bytes ") then None
    else
      var rest := value[6..];
      var dash := IndexOf(rest, '-');
      if dash < 0 then None
      else
        var tail := rest[dash + 1..];
        var slash := IndexOf(tail, '/');
        if slash < 0 then None
        else if AllDigits(rest[..dash]) && AllDigits(tail[..slash]) && AllDigits(tail[slash + 1..]) then
          Some((Decimal(rest[..dash]), Decimal(tail[..slash]), Decimal(tail[slash + 1..])))
        else None
  }

  /** Digits followed by a separator that is not a digit: the first separator
      is right after the digits. */
  lemma SplitAfterDigits(x: string, sep: char, y: string)
    requires AllDigits(x) && !IsDigit(sep)
    ensures var s := x + [sep] + y;
      IndexOf(s, sep) == |x| && s[..|x|] == x && s[|x| + 1..] == y
  {
    var s := x + [sep] + y;
    assert forall i :: 0 <= i < |x| ==> x[i] != sep;
    assert s[..|x|] == x && s[|x|] == sep;
    assert s[|x| + 1..] == y;
  }

  /** The Content-Range the handler sends reads back as the interval it streams
      and the size of the file. */
  lemma {:induction false} ContentRangeRoundTrip(range: ByteRange, size: nat)
    ensures ParseContentRange(ContentRange(range, size)) == Some((range.start, range.end, size))
  {
    var a, b, c := NatToString(range.start), NatToString(range.end), NatToString(size);
    var value := ContentRange(range, size);
    assert value == "bytes " + (a + "-" + (b + "/" + c));
    assert StartsWith(value, "bytes ");
    assert value[6..] == a + "-" + (b + "/" + c);
    SplitAfterDigits(a, '-', b + "/" + c);
    SplitAfterDigits(b, '/', c);
  }

  lemma SmallNumerals()
    ensures NatToString(100) == "100" && NatToString(199) == "199" && NatToString(1000) == "1000"
  {
    assert NatToString(1) == "1" && NatToString(10) == "10" && NatToString(19) == "19";
    assert NatToString(100) == "100";
  }

  lemma ExampleRangeParsed()
    ensures ParseRangeHeader(Some("bytes=100-199"), 1000) == Some(ByteRange(100, 199))
  {
    SmallNumerals();
    assert "bytes=100-199" == Prefix + "100" + "-" + "199";
    ExplicitRangeAccepted(100, 199, 1000);
  }

  lemma ExampleContentRange()
    ensures ContentRange(ByteRange(100, 199), 1000) == "bytes 100-199/1000"
  {
    SmallNumerals();
  }

  /** The worked example: a 1000-byte file asked for `bytes=100-199` gets 206, a
      Content-Length of 100 and a Content-Range of `bytes 100-199/1000`. */
  lemma ExampleThousandByteFile(url: string, fileUrlToPath: string -> Option<string>,
                                stat: string -> StatOutcome)
    requires StartsWith(url, Scheme)
    requires fileUrlToPath(FileUrlOf(url).value).Some?
    requires stat(fileUrlToPath(FileUrlOf(url).value).value) == Stat(true, 1000)
    ensures var r := Handle(url, Some("bytes=100-199"), fileUrlToPath, stat);
            && r.status == 206
            && r.headers.contentLength == Some("100")
            && r.headers.contentRange == Some("bytes 100-199/1000")
  {
    ExampleRangeParsed();
    ExampleContentRange();
    SmallNumerals();
    var path := fileUrlToPath(FileUrlOf(url).value).value;
    assert Handle(url, Some("bytes=100-199"), fileUrlToPath, stat)
           == ServeFile(path, Some("bytes=100-199"), 1000);
  }
}
