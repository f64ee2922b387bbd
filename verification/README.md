# Nostalgia player core, modelled in Dafny

Nostalgia is a retro video player. It has two front ends:

- an Electron application (a main process plus a renderer);
- an older browser page under `scripts/`.

The model covers the parts of both that make decisions.

**The `vhs://` protocol handler** (`WindowManager.ts`).
- Takes a request URL, the outcome of `fs.stat` on the file it names, and the `Range` header.
- Answers with a status, headers and the byte interval to stream.
- Accepts only the single-range form `bytes=<first>-<last?>` (section 2.1 of RFC 7233).
- Answers a valid range with 206 and a `Content-Range` (section 4.2 of RFC 7233), and anything else with the whole file and 200; it never answers 416.
- Modules `RangeRequest` and `VhsProtocol`.

**The karaoke subtitle parsers** (`updateCustomSubtitles` in both `player.js` files).
- The renderer's version cuts the active WebVTT cue into lines of timed words (`CueWords`).
- The older version builds HTML spans that are highlighted by the current time, then flattens them to a string for the overlay (`CueSpans`, `Flatten`).
- The companion audio and subtitle paths that `playVideo` derives from a video path are in `CueSpans`.
- Times are whole milliseconds.

**The overlay frame loop** (`vhs-shader.js`).
- A class `FrameLoop.Overlay` holds the pending-texture flag, the shader switch, the overlay's display and the subtitle slot.
- Its methods are the render tick, `captureCanvasContent`, `updateTexture`, `requestTextureUpdate`, `toggleVHSShader`, `setVideoSubtitle` and `clearVideoSubtitle`.
- Each method records what it draws, uploads and schedules as a trace of effects.
- The subtitle slot holds `null`, lines of timed words (what the renderer's `player.js` hands over) or a string (what `scripts/player.js` hands over).
- How a word is painted at time `t` is a pure function.

**The menu** (both `menu.js` files and `utils.js`).
- A class `MenuNav.Menus` holds:
  - the screens, with their keys in the order `for…in` visits them: keys that are array indices (digit strings such as "1999") first, in ascending numeric order, then the others in the order they were added;
  - the screen shown, the selection and the saved selections;
  - the URL hash, the stored preferences and the shader state;
  - a trace of effects handed to the rest of the player.
- Its methods are the keydown handler, the item actions, clicks, `parseUrlAndNavigate`, `updateMenuPath`, `loadPreferences`, `toggleFullScreen` and the run-time channel insertions.
- The two front ends differ only where the `Variant` parameter says.
- The pure parts are in `MenuModel`:
  - the first-match search;
  - the wrap-around selection;
  - the parent walk and the hash path it writes;
  - the hash-path parser;
  - the key routing;
  - labels and splicing.

**The channel-menu generator** (`channels.go`).
- Folds a directory walk into a map from directory to base name to file kind to file name (`ChannelsScan`).
- Builds the channels screen and one screen per directory from that map (`ChannelsMenu`).
- Writes the result as JavaScript object text (`ChannelsWrite`).
- Splices it between the `// CHANNELS BEGIN` and `// CHANNELS END` markers of the menu file.
- Base names, kinds and the 24-column header are in `ChannelsNames`.

`Text` holds the string helpers the modules share. It covers JavaScript's `trim`, `split`, `indexOf` and ASCII case mapping, and the decimal numerals with their round trip.

Three behaviours of the code that the model follows:

- The renderer's `updateCustomSubtitles` gives no subtitle lines at all for a cue whose text lacks `<` or `>` (packages/renderer/src/player.js:122). It does not give one plain line (`CueWords.CueLines`).
- Both karaoke parsers match only `MM:SS.mmm` time codes (packages/renderer/src/player.js:134, scripts/player.js:166). The `HH:MM:SS.mmm` branch of the time conversion (packages/renderer/src/player.js:147-151, scripts/player.js:179) can never run, because the pattern captures exactly two colon-separated parts.
- The handler never answers 416 (packages/main/src/modules/WindowManager.ts:149-178). A range that cannot be satisfied is served as the whole file with 200.

## Model

| member | source | states |
|---|---|---|
| RangeRequest.MatchRange | packages/main/src/modules/WindowManager.ts:32-36 | A match is exactly `bytes=` + one or more digits + `-` + digits, and yields those two groups |
| RangeRequest.MatchRangeComplete | packages/main/src/modules/WindowManager.ts:32 | Every header of the form `bytes=<digits>-<digits?>` matches, with exactly those groups |
| RangeRequest.ParseRangeHeader | packages/main/src/modules/WindowManager.ts:25-57 | A returned range lies inside the file (`start <= end < size`) and comes from a matching header |
| RangeRequest.ParseRangeHeaderExact | packages/main/src/modules/WindowManager.ts:38-56 | For a well-formed header: a range exactly when start < size and start <= end < size, where an omitted end means the last byte |
| RangeRequest.AcceptedHeaderShape | packages/main/src/modules/WindowManager.ts:32 | An accepted header is `bytes=` then a digit, then only digits and one dash; suffix ranges, range lists and white space are rejected |
| RangeRequest.ExplicitRangeAccepted | packages/main/src/modules/WindowManager.ts:40-56 | `bytes=a-b` with a <= b < size gives exactly [a, b] |
| RangeRequest.OpenRangeAccepted | packages/main/src/modules/WindowManager.ts:40 | `bytes=a-` with a < size runs to the last byte |
| RangeRequest.UnsatisfiableRangeRejected | packages/main/src/modules/WindowManager.ts:43-55 | A start past the end, an end before the start or an end past the file is rejected |
| VhsProtocol.FileUrlOf | packages/main/src/modules/WindowManager.ts:84-91 | A file URL exists exactly for `vhs://` URLs and always starts `file:///` |
| VhsProtocol.PlayerUrlKeepsPath | packages/renderer/src/player.js:11 | A path given to the player reaches the handler as `file://` + the path, with one slash added to a relative path |
| VhsProtocol.DropTrailingSlashes | packages/main/src/modules/WindowManager.ts:120 | A prefix of the path with no trailing slash |
| VhsProtocol.LastIndexOf | packages/main/src/modules/WindowManager.ts:120 | The last position of the character, or -1 when it is absent |
| VhsProtocol.BaseName | packages/main/src/modules/WindowManager.ts:120 | The base name holds no slash |
| VhsProtocol.Extname | packages/main/src/modules/WindowManager.ts:120 | `path.extname` for a POSIX path: the extension is empty or starts with a dot, and ends the base name |
| VhsProtocol.MimeType | packages/main/src/modules/WindowManager.ts:121-147 | A known video extension gives a `video/` type; any other gives `application/octet-stream` |
| VhsProtocol.Handle | packages/main/src/modules/WindowManager.ts:79-190 | Statuses are 200/206/400/404/500; another scheme is 400; a file is streamed exactly on 200/206; 206 exactly when a range and a Content-Range are present |
| VhsProtocol.ServeFile | packages/main/src/modules/WindowManager.ts:149-182 | 206 with the range or 200 with the whole file; Content-Length is the number of bytes streamed; the MIME type comes from the lower-cased extension |
| VhsProtocol.BadSchemeBeforeFilesystem | packages/main/src/modules/WindowManager.ts:84-91 | Another scheme gives 400 whatever the file system holds |
| VhsProtocol.StatDecidesErrors | packages/main/src/modules/WindowManager.ts:97-117 | ENOENT gives 404, another stat error 500, a non-file 400, a regular file 200 or 206 |
| VhsProtocol.ServedBytes | packages/main/src/modules/WindowManager.ts:149-182 | For a file's content: the bytes streamed are exactly the range, or the whole file, and Content-Length counts them |
| VhsProtocol.ContentRangeRoundTrip | packages/main/src/modules/WindowManager.ts:165 | Parsing the Content-Range value gives back start, end and size |
| VhsProtocol.ExampleThousandByteFile | packages/main/src/modules/WindowManager.ts:149-168 | A 1000-byte file asked for `bytes=100-199` gets 206, length 100, `bytes 100-199/1000` |
| CueWords.TimeCodeParts | packages/renderer/src/player.js:145-156 | A time code splits at its colon into exactly two parts, so the three-part branch never runs |
| CueWords.FormatTimeCode | packages/renderer/src/player.js:134 | Every time below 100 minutes has a time code of the pattern's form |
| CueWords.TimeCodeRoundTrip | packages/renderer/src/player.js:155 | Converting a formatted time code gives back the milliseconds |
| CueWords.RunEnd | packages/renderer/src/player.js:134 | The end of the run of characters other than `<` |
| CueWords.NextTimestamp | packages/renderer/src/player.js:139 | The first timestamp at or after a position, or none |
| CueWords.ExecAll | packages/renderer/src/player.js:134-162 | The `regex.exec` loop collects exactly the matches `Matches` defines |
| CueWords.ExecFindsEveryTimestamp | packages/renderer/src/player.js:134-162 | The matches are exactly one per timestamp of the line, in order |
| CueWords.Positions | packages/renderer/src/player.js:139 | The timestamp positions, strictly increasing and complete |
| CueWords.MatchTextClean | packages/renderer/src/player.js:134 | The text captured after a timestamp holds no `<` |
| CueWords.LineWordsOf | packages/renderer/src/player.js:132-195 | The words of one line are `LineWords`, including the leading text and the plain-line case |
| CueWords.KeepLines | packages/renderer/src/player.js:127-201 | The line loop keeps the non-empty lines of words as `KeptLines` defines |
| CueWords.CueLines | packages/renderer/src/player.js:119-202 | A cue without both brackets gives no lines; every kept line has a word; there are no more lines than the text has |
| CueWords.UpdateCustomSubtitles | packages/renderer/src/player.js:102-209 | No track gives no update; otherwise the lines of the first active cue, or none when no cue is active |
| CueWords.TimedWordsConsecutive | packages/renderer/src/player.js:165-174 | Words from in-order matches lie in the cue and follow one another without overlap |
| CueWords.LineWordsConsecutive | packages/renderer/src/player.js:165-187 | The words of a line, leading text included, lie in the cue and follow one another |
| CueWords.LineWordsTexts | packages/renderer/src/player.js:141-191 | Every word's text is trimmed, and a timed word's text holds no `<` |
| CueWords.MatchesOfWrittenLine | packages/renderer/src/player.js:134-162 | Parsing a written karaoke line gives back its times and texts |
| CueExamples.ExampleKaraokeCue | packages/renderer/src/player.js:119-202 | `<00:01.000>Hello <00:02.000>world` from 1 s to 3 s gives one line: Hello 1–2 s, world 2–3 s |
| CueExamples.ExamplePlainCue | packages/renderer/src/player.js:122 | A cue of plain text gives no lines |
| CueSpans.CompanionPaths | scripts/player.js:9-10 | Only the first `.mp4` is replaced: by `_audio.mp4` for the audio and `.vtt` for the subtitles |
| CueSpans.CompanionPathsWithoutMp4 | scripts/player.js:9-10 | A path without `.mp4` is used unchanged for all three files |
| CueSpans.CollectStamps | scripts/player.js:166-194 | The exec loop collects exactly `Stamps`, each a timestamp of the line with its time |
| CueSpans.StampsSound | scripts/player.js:171-193 | Each collected entry is a timestamp position with the time its code stands for |
| CueSpans.StampsFindEveryTimestamp | scripts/player.js:171-194 | The positions collected are exactly the timestamps of the line, in order |
| CueSpans.SplitOnStamps | scripts/player.js:197 | Splitting at timestamps gives one part more than there are timestamps |
| CueSpans.SplitRejoins | scripts/player.js:197 | The parts and the timestamp tags, interleaved, are the line |
| CueSpans.SpansHtmlAppend | scripts/player.js:198-223 | Spans written one list after another give their HTML one after another |
| CueSpans.FormatLaterParts | scripts/player.js:212-221 | The loop over the parts after the timestamps writes their spans, active once `t` reaches each timestamp |
| CueSpans.FormatLine | scripts/player.js:161-227 | The HTML of one line, or the TypeError a later line without timestamps throws |
| CueSpans.FormatKaraokeCue | scripts/player.js:156-233 | The line loop gives `KaraokeHtml`, with `<br> ` between lines |
| CueSpans.UpdateCustomSubtitles | scripts/player.js:138-270 | The update is what `SubtitleUpdate` decides: nothing, a thrown TypeError, or the HTML and the flattened string |
| CueSpans.SubtitleIsFlat | scripts/player.js:236-262 | The string handed to the overlay holds no line break, no tag and no double white space |
| CueSpans.LaterLineWithoutTimestampThrows | scripts/player.js:205 | A later line with brackets but no timestamp throws a TypeError |
| CueSpans.KaraokeHtmlThrowsAt | scripts/player.js:160-233 | One line that throws makes the whole cue throw |
| CueSpans.CueWithBadLaterLineThrows | scripts/player.js:154-243 | ... and then the whole update throws |
| CueSpans.SpansArePieces | scripts/player.js:197-221 | One span per part of the split line, in order, except an empty leading part |
| CueSpans.ActiveSpansOnlyGrow | scripts/player.js:202-220 | As time advances, an active span stays active and whether the line throws does not change |
| CueSpans.FirstLineAllActive | scripts/player.js:202-220 | Past the cue start and every timestamp, every span of the first line is active |
| CueSpans.FirstLineNoneActive | scripts/player.js:202-220 | Before the cue start and every timestamp, no span of the first line is active |
| CueSpans.StripSpan | scripts/player.js:239 | Stripping the tags of a span around bracket-free text leaves the text |
| CueSpans.FlattenSpan | scripts/player.js:237-240 | Flattening a span gives its text with white space collapsed |
| CueSpans.PlainOneLineCue | scripts/player.js:245-264 | A one-line plain cue gives one span, active exactly when `t` has reached the cue start |
| Flatten.ReplaceAllAbsent | scripts/player.js:238 | A string without the pattern is left alone |
| Flatten.StripTagsLeavesNoTag | scripts/player.js:239 | After stripping, no `<` is followed by a `>` |
| Flatten.StripTagsKeepsText | scripts/player.js:239 | Text without `<` passes through unchanged |
| Flatten.StripTagsDropsTag | scripts/player.js:239 | A tag `<…>` disappears |
| Flatten.CollapseIsCollapsed | scripts/player.js:240 | The only white space left is the plain space, never two in a row |
| Flatten.CollapseKeepsNoTag | scripts/player.js:240 | Collapsing white space does not create a tag |
| Flatten.FlattenIsFlat | scripts/player.js:237-241 | The flattened string holds no line break and no tag, and never two spaces in a row |
| FrameLoop.WordPaint | scripts/vhs-shader.js:266-303 | Highlighted once `t` reaches the word's start; wiped while it is sung, by a fraction in [0, 1) |
| FrameLoop.HighlightStays | scripts/vhs-shader.js:272-285 | A highlight, once on, stays on; a wipe implies a highlight |
| FrameLoop.WipeGrows | scripts/vhs-shader.js:286-295 | The wiped part only grows as time advances |
| FrameLoop.PaintSubtitle | scripts/vhs-shader.js:249-307 | The nested line and word loops paint each word as `WordPaint` says |
| FrameLoop.PaintFlat | scripts/vhs-shader.js:249-307 | Over a string the same loops paint one line per character |
| FrameLoop.LinesPaintWords | scripts/vhs-shader.js:223-307 | Lines of words are drawn, one painted line per line and one paint per word, with its text and its highlight |
| FrameLoop.FlatSubtitlePaintsUndefined | scripts/player.js:236-241 | A non-empty string paints one "undefined" per character, never highlighted; "" draws nothing |
| FrameLoop.OneFramePerTick | scripts/vhs-shader.js:145-212 | Every tick asks for exactly one next frame, as its last effect |
| FrameLoop.TickUploadsExactly | scripts/vhs-shader.js:145-212 | A tick uploads exactly when the shader is on and an update is pending or a video plays |
| FrameLoop.IdleTick | scripts/vhs-shader.js:147-172 | With nothing pending and no playing video a tick only asks for the next frame |
| FrameLoop.DisabledTick | scripts/vhs-shader.js:174-178 | With the shader off nothing is uploaded; a playing video is still drawn and the overlay hidden |
| FrameLoop.Overlay.constructor | scripts/vhs-shader.js:9 | An update is pending from the start and no subtitle is set |
| FrameLoop.Overlay.SetVideoSubtitle | scripts/vhs-shader.js:312-315 | Stores whatever it is given, lines or a string, and marks the subtitle changed |
| FrameLoop.Overlay.ClearVideoSubtitle | scripts/vhs-shader.js:316-319 | Clears the slot and marks the subtitle changed |
| FrameLoop.Overlay.RenderSubtitle | scripts/vhs-shader.js:223-308 | Paints a truthy subtitle and clears the change mark; with `null` or "" nothing is drawn and the mark stays |
| FrameLoop.Overlay.RenderTick | scripts/vhs-shader.js:145-212 | The trace grows by `TickEffects`; the flag is cleared exactly when the tick uploads |
| FrameLoop.Overlay.CaptureCanvasContent | scripts/vhs-shader.js:429-457 | Draws the video if any, uploads, and clears the flag |
| FrameLoop.Overlay.UpdateTexture | scripts/vhs-shader.js:459-471 | Nothing with the shader off; an immediate capture or a capture frame otherwise |
| FrameLoop.Overlay.RequestTextureUpdate | scripts/vhs-shader.js:344-348 | Ignored while pending; otherwise marks the flag and asks for the update |
| FrameLoop.Overlay.ToggleVHSShader | scripts/vhs-shader.js:325-342 | Switches the shader; switching on also sets the 25 ms timer; a deferred update is requested |
| FrameLoop.Overlay.EnableTimerFired | scripts/vhs-shader.js:329-333 | The timer performs an immediate update |
| MenuModel.FindIndex | packages/renderer/src/menu.js:193-195 | The first matching position, or -1 when none matches |
| MenuModel.FindIndexIgnoresText | scripts/utils.js:115-122 | Relabelling an item does not move the first SHADERS, FULLSCREEN or target match |
| MenuModel.Down | packages/renderer/src/menu.js:479 | ArrowDown stays on the screen |
| MenuModel.Up | packages/renderer/src/menu.js:462-463 | ArrowUp stays on the screen |
| MenuModel.UpUndoesDown | packages/renderer/src/menu.js:462-479 | ArrowUp after ArrowDown, and the reverse, restore the selection |
| MenuModel.SwitchTo | packages/renderer/src/menu.js:290-298 | The old selection is saved; the target's saved selection, or 0, is restored |
| MenuModel.SwitchBackRestores | packages/renderer/src/menu.js:290-298 | Going to a screen and back restores the screen and its selection |
| MenuModel.ParentIndex | scripts/utils.js:81-89 | The first screen in key order that lists the target, or -1 |
| MenuModel.KeySlotBetween | scripts/utils.js:81 | An array-index key is placed after the array indices no larger than it and before the first larger one or the first other key |
| MenuModel.AddKeyInOrder | packages/renderer/src/menu.js:173 | Adding a screen's key keeps the keys in `for…in` order, adds exactly that key, keeps the others' order, and puts a key that is not an array index last |
| MenuModel.DigitKeyGoesFirst | packages/renderer/src/menu.js:102 | A folder named "1999" is visited before "main" |
| MenuModel.ParentCycle | scripts/utils.js:76-91 | When two screens are each other's parent, the walk up never reaches "main" in any number of steps |
| MenuModel.BackGoesToFirstParent | packages/renderer/src/menu.js:496-520 | ArrowLeft on "main" does nothing; elsewhere it goes to the first listing screen, or "main" |
| MenuModel.PathToShape | scripts/utils.js:74-93 | The path walked up ends at the current screen and each step is listed by the one before |
| MenuModel.MenuUrlShape | scripts/utils.js:67-99 | "main" has no hash; any other screen gets `#` + the path joined by `/`, plus the encoded video |
| MenuModel.WalkValidIff | packages/renderer/src/menu.js:333-362 | The hash walk is valid exactly when each segment is a navigate target of the screen before |
| MenuModel.WalkEndsOnLastSegment | packages/renderer/src/menu.js:333-362 | A valid walk ends on the last segment's screen, unless it names a video there |
| MenuModel.LandInvalidResets | packages/renderer/src/menu.js:387-391 | An invalid hash path shows "main" with selection 0 and plays nothing |
| MenuModel.LandOnLastSegment | packages/renderer/src/menu.js:364-369 | A valid path shows its last screen with that screen's saved selection |
| MenuModel.LandOnMainKeepsScreen | packages/renderer/src/menu.js:366 | A valid path ending on "main" keeps the screen and selection shown |
| MenuModel.LandSelectsVideo | packages/renderer/src/menu.js:375-385 | A path ending in a video selects that item and plays it after 100 ms |
| MenuModel.WalkAlongLinks | packages/renderer/src/menu.js:333-362 | Walking a linked path reaches its last screen and saves each step's position |
| MenuModel.LoopFrom | packages/renderer/src/menu.js:333-362 | The loop ends on a screen, or throws only at a segment that does not decode |
| MenuModel.LoopDecodesAll | packages/renderer/src/menu.js:333-334 | When every segment decodes, the loop ends as the walk over the decoded segments |
| MenuModel.ThrowsAtBadSegment | packages/renderer/src/menu.js:334 | A segment that does not decode throws, keeping the selections saved so far |
| MenuModel.LoopAlongLinks | packages/renderer/src/menu.js:333-369 | Linked segments that decode to themselves lead the loop, and then the screen shown, to the last segment |
| MenuModel.UrlRoundTrip | scripts/utils.js:67-99 | The hash `updateMenuPath` writes for a screen leads `parseUrlAndNavigate` back to that screen, when the hash reads back as written |
| MenuModel.UrlSegments | scripts/utils.js:67-99 | The segments read back from the written hash, split at "/" and decoded, are the path walked up from the screen |
| MenuModel.PathIsLinked | scripts/utils.js:67-99 | Each screen on that path is the target of a navigate item of the screen before it, and the path ends on the screen |
| MenuModel.ArrowRightFallsThrough | packages/renderer/src/menu.js:522-544 | Outside a video ArrowRight acts as Enter; inside it seeks |
| MenuModel.VideoKeysLeftToVideo | packages/renderer/src/menu.js:404-410 | Escape (and q in the renderer) is left to the video's handler while a video plays |
| MenuModel.ShaderLabelShowsState | packages/renderer/src/menu.js:31-39 | The SHADERS label reads "SHADERS: ON" exactly when the shader is on |
| MenuModel.Relabel | packages/renderer/src/menu.js:31-53 | Only the label of the one item changes |
| MenuModel.RelabelFirstKeeps | scripts/utils.js:48-58 | Relabelling keeps the screens, their lengths, every action and closure |
| MenuModel.RelabelShaderShows | scripts/utils.js:115-122 | After relabelling, the first SHADERS item is in the same place and shows the state |
| MenuModel.SpliceStart | packages/renderer/src/menu.js:122 | `splice`'s start: a negative start counts from the end, clamped to the list |
| MenuModel.Insert | packages/renderer/src/menu.js:122-196 | The item goes in at the position and everything else keeps its order |
| MenuModel.StripExtension | packages/renderer/src/menu.js:100-119 | The name without its last extension, or unchanged when it has none |
| MenuNav.InitialScreens | packages/renderer/src/menu.js:6-83 | The initial screens include main, options, info and channels |
| MenuNav.InitialValid | scripts/menu.js:5-120 | The initial screens are closed, each has an item, and the keys list them once each |
| MenuNav.Menus.constructor | packages/renderer/src/menu.js:90-94 | The menu starts on "main" with selection 0 and no saved selections |
| MenuNav.Menus.FindParent | scripts/utils.js:81-89 | The `for … in` loop finds the first listing screen |
| MenuNav.Menus.WalkUp | scripts/utils.js:74-91 | The `while` loop builds the path `PathTo` defines |
| MenuNav.Menus.UpdateMenuPath | scripts/utils.js:67-105 | The URL (the computed path, or "#" when it is empty) is written only when the hash differs from the path; the hash then reads as the browser stores it |
| MenuNav.HashRewrittenUnlessReadBack | scripts/utils.js:101-104 | A second call on the same screen writes the URL again exactly when the browser read the first one back as a different hash |
| MenuNav.Menus.LoadPreferences | scripts/utils.js:108-127 | A stored "true" turns the shader on, anything else stored turns it off and the label follows; nothing stored turns it on |
| MenuNav.Menus.ToggleFullScreen | scripts/utils.js:9-64 | Requests the opposite full-screen state and relabels from the state before the switch |
| MenuNav.Menus.SwitchMenu | packages/renderer/src/menu.js:290-298 | The selection state moves as `SwitchTo` says, and nothing else changes |
| MenuNav.Menus.RelabelItem | packages/renderer/src/menu.js:31-53 | Only the one item's label changes |
| MenuNav.Menus.FlipShaderItem | packages/renderer/src/menu.js:30-42 | The item's own label decides the new state; label, storage and shader follow, and stay in sync |
| MenuNav.Menus.HandleMenuAction | packages/renderer/src/menu.js:288-321 | Each action kind has the effect `Acted` states: navigate, toggle, play or none |
| MenuNav.Menus.ShaderKeyPressed | packages/renderer/src/menu.js:419-447 | The "s" key flips the shader when a SHADERS item exists, and its label stays in sync |
| MenuNav.Menus.SetShaderOption | packages/renderer/src/menu.js:428-446 | The SHADERS item shows the new state; it is stored and applied |
| MenuNav.Menus.GoBack | packages/renderer/src/menu.js:496-520 | ArrowLeft outside a video goes to `Back` and rewrites the hash path |
| MenuNav.Menus.KeyDown | packages/renderer/src/menu.js:401-553 | For each routed key, what changes and what does not; Enter beyond the items throws |
| MenuNav.Menus.Click | scripts/menu.js:149-152 | A click selects the item, then activates it |
| MenuNav.Menus.FollowSegments | packages/renderer/src/menu.js:333-362 | The segment loop computes exactly `LoopFrom`: a URIError at a segment that does not decode, or the walk's end |
| MenuNav.Menus.ParseUrlAndNavigate | packages/renderer/src/menu.js:324-397 | With a hash, the screen, selection and delayed play are what `Settle` decides; a segment that does not decode throws a URIError with the selections saved so far; without a hash nothing changes |
| MenuNav.Menus.ApplyWalk | packages/renderer/src/menu.js:364-392 | The result of the walk is applied as `Settle` decides |
| MenuNav.Menus.PutScreen | packages/renderer/src/menu.js:173-183 | A new key takes its `for…in` place (last unless it is an array index); an existing key keeps its place |
| MenuNav.Menus.SpliceChannel | packages/renderer/src/menu.js:193-196 | The entry is spliced in at the start `splice` computes |
| MenuNav.Menus.AddChannelToMenu | packages/renderer/src/menu.js:171-197 | The channel's screen is stored and its entry goes before BACK |
| MenuNav.Menus.AddFolderToChannels | packages/renderer/src/menu.js:100-130 | The folder's screen is stored and its entry goes before the last item |
| MenuNav.VideoItems | packages/renderer/src/menu.js:176 | One play item per video, in order |
| MenuNav.FolderItems | packages/renderer/src/menu.js:108-112 | One play item per file, labelled without its extension |
| MenuNav.ChannelGoesBeforeBack | packages/renderer/src/menu.js:192-196 | What stood before BACK keeps its place and BACK moves one on; no other screen changes |
| MenuNav.FolderGoesBeforeLast | packages/renderer/src/menu.js:122-126 | The folder entry goes before the last item, which stays last |
| MenuNav.InitialKeysInOrder | packages/renderer/src/menu.js:6-83 | No initial key is an array index, so the object literal's order is the `for…in` order |
| MenuNav.ChannelsCapturedBy | scripts/utils.js:81-91 | A screen visited first that lists the channels screen becomes its parent, and the two are each other's parent |
| MenuNav.DigitFolderCapturesChannels | packages/renderer/src/menu.js:100-130 | After dropping a folder "1999", ArrowLeft on the channels screen goes to the folder, and the walk up from the channels screen never ends |
| ChannelsNames.GoExt | channels.go:36 | `filepath.Ext`: a suffix of the name that is empty or a dot extension |
| ChannelsNames.ExtOfStem | channels.go:36 | The extension of stem + ext is ext |
| ChannelsNames.TrimSuffix | channels.go:36-38 | The suffix is removed exactly when the name ends with it |
| ChannelsNames.BaseNameStripsOnce | channels.go:34-39 | The base name drops the extension and then one `_audio` |
| ChannelsNames.KindAsWrittenMistakesAudio | channels.go:88 | `clip_audio.MP4` is taken for the video of `clip` |
| ChannelsNames.Kind | channels.go:86-95 | Video and audio files have the matching base names; a kind exactly for `.mp4` and `.vtt` in any case |
| ChannelsNames.KindAgreesOnLowerCase | channels.go:86-95 | On a lower-case extension the corrected kind is the code's |
| ChannelsNames.KindsDifferOnlyOnMp4 | channels.go:86-95 | Both generators file a name exactly when its lower-cased extension is `.mp4` or `.vtt`, and differ only on video against audio |
| ChannelsNames.Utf8LenUpper | channels.go:46-50 | Upper-casing keeps the byte length |
| ChannelsNames.FormatHeader | channels.go:41-55 | Fails (Go panics) exactly when the name is 24 bytes or more |
| ChannelsNames.HeaderWidth | channels.go:41-55 | A name up to 22 bytes gets a 24-byte header, centred between dashes |
| ChannelsNames.HeaderOf23Bytes | channels.go:46-53 | A 23-byte name gets a 26-byte header |
| ChannelsNames.ChannelsHeader | channels.go:119 | The channels screen's header is `------- CHANNELS -------` |
| ChannelsScan.RecordStores | channels.go:71-95 | For either generator (the code as written, or corrected), recording a file stores it under the kind that generator gives it, creates its entries and keeps everything else |
| ChannelsScan.ScanFiles | channels.go:57-100 | For either generator, the walk callback's loop computes exactly `Scan` |
| ChannelsScan.VisitFile | channels.go:71-95 | For either generator, one file's visit is `Record` |
| ChannelsScan.ScanErrorPersists | channels.go:62-65 | Once the walk has failed, later entries change nothing |
| ChannelsScan.ScanFailsIff | channels.go:62-65 | The scan fails exactly when the walk reports a failure |
| ChannelsScan.ScanKeepsEveryFile | channels.go:76-83 | Every visited file leaves entries for its directory and base name |
| ChannelsScan.LastFileWins | channels.go:86-95 | For either generator, the file recorded under a kind is the last of that kind in walk order |
| ChannelsScan.RecordedFilesWereVisited | channels.go:86-95 | For either generator, every recorded file was visited, with that base name and the kind that generator gives it |
| ChannelsScan.AudioTrackTakenForVideo | channels.go:71-95 | As written, `clip.mp4` then `clip_audio.MP4` leave the track as the video of `clip` and no audio |
| ChannelsScan.AudioTrackKeptApart | channels.go:71-95 | Corrected, the same walk files the video and the audio track apart |
| ChannelsMenu.DirItems | channels.go:122-128 | One navigate item per directory, labelled in upper case |
| ChannelsMenu.BuildMenu | channels.go:114-175 | The two `range fileMap` loops, each with its own order of the directories, compute exactly `MenuOf` |
| ChannelsMenu.BuildChannelsScreen | channels.go:117-134 | The channels screen lists each directory, then BACK to main |
| ChannelsMenu.BuildDirScreen | channels.go:136-175 | A directory screen lists its play items, then BACK to channels |
| ChannelsMenu.DirScreensErrorPersists | channels.go:140 | Once a header has failed, later directories change nothing |
| ChannelsMenu.DirScreensFailIff | channels.go:136-175 | Building fails exactly when some directory name has 24 bytes or more |
| ChannelsMenu.DirScreensAt | channels.go:136-175 | Screen i is directory i's, with its header and items |
| ChannelsMenu.ChannelsListEachDirOnce | channels.go:122-133 | The channels screen lists each directory exactly once, then BACK |
| ChannelsMenu.PlayItemsHaveVideos | channels.go:144-165 | Every play item has a video |
| ChannelsMenu.PlayItemsCoverVideos | channels.go:144-165 | A base name gets a play item exactly when it has a video |
| ChannelsMenu.PlayItemsOnce | channels.go:144-165 | No two play items share a label |
| ChannelsMenu.ListedDirsHaveScreens | channels.go:122-140 | Whatever orders the two `range fileMap` loops take, every listed directory has a screen and every directory screen is listed |
| ChannelsWrite.LiteralAsWrittenBreaks | channels.go:185 | A label `it's` is read back as `it` followed by stray text |
| ChannelsWrite.ReadBody | channels.go:181-197 | A JavaScript string body, read up to its closing quote |
| ChannelsWrite.LiteralRoundTrip | channels.go:181-197 | Reading a quoted value gives back the value and the rest |
| ChannelsWrite.LiteralsAgree | channels.go:181-197 | Without quotes, backslashes or line breaks, both quotings agree |
| ChannelsWrite.Serialise | channels.go:177-203 | For either generator (values unescaped as written, or escaped), the writer loop produces exactly `MenuText` |
| ChannelsWrite.WriteScreen | channels.go:180-202 | For either generator, one screen's text is appended |
| ChannelsWrite.WriteItem | channels.go:184-199 | For either generator, one item's text is appended, with the empty optional fields left out |
| ChannelsWrite.ItemRoundTrip | channels.go:184-199 | With the corrected, escaping writer, reading any item's text back gives the item and the rest |
| ChannelsWrite.ItemTextsAgree | channels.go:184-199 | An item whose values hold no backslash, quote or line break is written the same by both generators |
| ChannelsWrite.ItemRoundTripAsWritten | channels.go:184-199 | As written, such an item reads back from its text |
| ChannelsWrite.Splice | channels.go:205-220 | Fails exactly when a marker is missing or fewer than 18 characters follow the begin marker's position |
| ChannelsWrite.SpliceAgain | channels.go:212-220 | Splicing new data into an already spliced file gives the same file as splicing it into the original: the previous data is fully replaced |

## Left out

- I/O: Electron windows, WebGL, the DOM, canvas drawing, timers, `localStorage` and the file system. They are parameters (stat outcomes, the walk's entries, the file's content) or recorded effects.
- `createWindow`, `restoreOrCreateWindow` and the module constructor only manage Electron windows. The scheme registration is configuration.
- `fileURLToPath`, `encodeURIComponent` and `decodeURIComponent` are function parameters.
- Case mapping is ASCII only, for JavaScript's `toLowerCase`/`toUpperCase` and Go's `strings.ToUpper`/`ToLower`.
- Go's map iteration order is unspecified and may differ between two loops over the same map. Each loop's order of directories, and the order of base names, is a parameter required to list each key once.
- `filepath.Base(filepath.Dir(path))`: the walk gives each file's directory name directly. The `filepath.Base(dir)` of a key is taken as the key itself.
- Go returns the partial map together with a walk error, and `main` exits on that error. The model returns only the error.
- `main`'s argument handling, the read and write of the menu file, and the log are left out. A missing marker, which exits with a log, is an `Err`.
- ChannelsWrite.Splice: offsets count characters, while Go counts bytes. Marker offsets agree only for text before the markers that is ASCII.
- ChannelsNames.FormatHeader: a name of 24 bytes or more makes `strings.Repeat` panic. It is modelled as an `Err`.
- ChannelsWrite.ReadBody: escapes with digits, `x`, `u` and line continuations are rejected rather than decoded. The writer never produces them.
- Both `player.js`: `playVideo`'s DOM set-up, the volume and seek keys, audio syncing, `exitVideo` and the escape handler are left out. Only the effects the menu hands over are recorded.
- Times are whole milliseconds. JavaScript's `parseFloat` seconds are not modelled.
- FrameLoop: canvas geometry, font sizes and colours are not modelled. The shader time uniform is not modelled either.
- MenuNav.Menus.WalkUp: the source loops forever on a cycle of parent screens (`MenuNav.DigitFolderCapturesChannels` shows one). The model stops after |keys| + 1 steps and returns `None`.
- MenuModel.UrlRoundTrip: reads back the hash as `updateMenuPath` writes it, and requires every segment to decode to itself. The browser may store a path with a space or a non-ASCII letter percent-encoded (`hashAfter`), and that reading is not covered.
- `decodeURIComponent` and what `location.hash` reads after `history.replaceState` are function parameters; `decode` gives `None` where `decodeURIComponent` throws.
- MenuNav.VideoItems: nothing in the sources calls `addChannelToMenu`, which spreads `videos` into the items as they are. The model reads each video as a play item with a name and a path.
- VhsProtocol.Extname: POSIX paths only, as on macOS and Linux. Windows separators are not modelled.
- FrameLoop: strings are sequences of characters, while JavaScript counts UTF-16 code units. A string of characters outside the Basic Multilingual Plane paints more "undefined" lines than the model says.
- The renderer's `scanFolderForVideos` reads directories through the browser's file API. The model takes its result as a list of videos.
- Rendering the menu (`renderMenuState`, `renderMenu`, `calculateScaling`, `drawText`) and the texture requests that follow a handler are not modelled.

## Findings

| source | as written | input that shows it | evidently intended | confidence | as-written member | corrected member |
|---|---|---|---|---|---|---|
| channels.go:88 | The audio check `strings.HasSuffix(filename, "_audio.mp4")` is case-sensitive, while the extension switch lower-cases | `clip_audio.MP4` beside `clip.mp4`: both are filed as the video of `clip` | Recognise the audio suffix in any case, as the extension is | not executed | ChannelsNames.KindAsWrittenMistakesAudio | ChannelsNames.Kind |
| scripts/player.js:236-241 | `setVideoSubtitle` is given the flattened cue text (and "" at line 269 to clear), while `renderSubtitle` (scripts/vhs-shader.js:249-307) expects lines of words | A cue "hi" is painted as two lines "undefined"; "" is falsy, so the change mark is never cleared | Hand over lines of words, as packages/renderer/src/player.js:204 does | not executed | FrameLoop.FlatSubtitlePaintsUndefined | FrameLoop.LinesPaintWords |
| channels.go:181-197 | Values are put between single quotes without escaping | A label `it's` is read back as `it` followed by stray text | Escape `\`, `'` and line breaks so the value reads back unchanged | not executed | ChannelsWrite.LiteralAsWrittenBreaks | ChannelsWrite.LiteralRoundTrip |
