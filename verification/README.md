# Thumbnail generator model

A Dafny model of the thumbnail generator in `AviaxMusic/utils/thumbnails.py`.
For a video identifier, `gen_thumb` returns the cached image if one exists.
Otherwise it searches for the video and reads the first result's title,
duration, thumbnail address, view count and channel. It downloads the
thumbnail into a temporary file and composes a 1280x720 preview: a blurred
background, a framed centrepiece and captions. It removes the temporary file,
saves the image under `cache/` and returns that path. Any exception (an
`Exception` subclass) returns the configured fallback image address instead.

The model is in five modules:

- `Wrappers` (`wrappers.dfy`): `Option` and `Result`.
- `Titles` (`titles.dfy`): the title rules. `Clear` is `clear` (collapse
  whitespace runs, then strip). `Truncate` cuts titles longer than 60
  characters to 57 characters plus `"..."`. `Clear` is proved equal to the
  reference definition `" ".join(s.split())`, written here as
  `JoinWords(Words(s))`. Whitespace is Python's Unicode whitespace table,
  which the regular expression `\s` and `str.strip()` both use.
- `Metadata` (`metadata.dfy`): the search result as an optional-field record
  and `ReadResult`, which reads it with the source's defaults. `StripQuery`
  is `url.split("?")[0]`.
- `Layout` (`layout.dfy`): the integer geometry of the canvas, the frame and
  the paste position, with Python's floor division written out as
  `FloorDiv`. It also holds the list of text and line drawing operations.
- `Generator` (`generator.dfy`): `gen_thumb` as a pure function. Its inputs
  are the set of existing files and a `World` that says how each
  collaborator behaved on this call. Its output is a `Run`:
  - the reply string;
  - a tagged outcome: `Cached`, `Composed` or `Fallback(why)`;
  - the files afterwards;
  - the trace of collaborator calls, ending with `LogError` when the
    catch-all handler ran.

Behaviour worth knowing that the lemmas make explicit:

- The temporary file is removed only after composition succeeds. If opening
  or drawing the image raises, `cache/thumb{id}.png` is left behind.
- That leftover file is also the cache path of the identifier `"thumb" + id`.
  A later call for that identifier is answered from the raw download as a
  cache hit (`Generator.ComposeFailureLeavesTemp`).
- The two explicit fallback returns are not logged: an empty search and a
  non-200 status. Only exceptions reach the `print` in the handler.

## Model

| member | source | states |
|---|---|---|
| Titles.Strip | AviaxMusic/utils/thumbnails.py:11 | `str.strip()` leaves neither end as whitespace, and removes only a whitespace-only prefix and a whitespace-only suffix: the result is the input with those two pieces cut off |
| Titles.CollapseSingleSpaced | AviaxMusic/utils/thumbnails.py:11 | after `re.sub(r"\s+", " ", text)`, every whitespace character is a plain `' '` and none is followed by another whitespace character |
| Titles.CollapseKeepsNonSpace | AviaxMusic/utils/thumbnails.py:11 | `re.sub(r"\s+", " ", text)` keeps exactly the non-whitespace characters of the text, in order |
| Titles.Clear | AviaxMusic/utils/thumbnails.py:10-11 | the cleared title has no leading or trailing whitespace, every whitespace character in it is a single `' '` with no whitespace after it, and its non-whitespace characters are exactly the input's, in order |
| Titles.ClearIsJoinedWords | AviaxMusic/utils/thumbnails.py:10-11 | `re.sub(r"\s+", " ", s).strip()` equals the independent definition `" ".join(s.split())` for every string |
| Titles.ClearFixedPoints | AviaxMusic/utils/thumbnails.py:10-11 | `clear` leaves a string unchanged if and only if it is already trimmed and single-spaced |
| Titles.ClearIdempotent | AviaxMusic/utils/thumbnails.py:10-11 | clearing a cleared title changes nothing |
| Titles.WordsOfTwo | AviaxMusic/utils/thumbnails.py:10-11 | two words between whitespace runs split into exactly those two words, the case `" ".join(s.split())` sees for a two-word title |
| Titles.ClearOfTwo | AviaxMusic/utils/thumbnails.py:10-11 | two words surrounded and separated by whitespace runs clear to the words joined by one space (`"  Hello   World  "` becomes `"Hello World"`) |
| Titles.Truncate | AviaxMusic/utils/thumbnails.py:94-95 | the shown title is at most 60 characters; a title over 60 characters keeps its first 57 characters and ends in `"..."` (exactly 60 in all); a shorter one is unchanged |
| Titles.TruncateIdempotent | AviaxMusic/utils/thumbnails.py:94-95 | truncating twice changes nothing; the shown title is the whole title, or a strict prefix of it followed by the ellipsis |
| Metadata.NestedGet | AviaxMusic/utils/thumbnails.py:33-34 | `result.get(outer, {}).get(key, default)` gives the stored value when both keys exist and the default otherwise |
| Metadata.StripQuery | AviaxMusic/utils/thumbnails.py:32 | `url.split("?")[0]` is a prefix of the address, contains no `'?'`, and is followed in the address by `'?'` unless it is the whole address |
| Metadata.StripQuerySplitsUrl | AviaxMusic/utils/thumbnails.py:32 | the address is the kept part followed by a remainder that is empty or starts with `'?'` |
| Metadata.StripQueryIdempotent | AviaxMusic/utils/thumbnails.py:32 | an address without `'?'` is kept whole, so cutting twice changes nothing |
| Metadata.ReadResult | AviaxMusic/utils/thumbnails.py:26-34 | reading fails exactly when the thumbnail list is missing, empty, or its first entry has no `url`, with the matching error. On success, each missing optional key takes its fixed default, present values pass through, the title is cleared and the thumbnail address is query-stripped |
| Metadata.DefaultTitleIsClear | AviaxMusic/utils/thumbnails.py:28-29 | the default title "Unsupported Title" is unchanged by `clear` |
| Metadata.TitleIsClearedGet | AviaxMusic/utils/thumbnails.py:28-29 | the title read is `clear(result.get("title", "Unsupported Title"))` in every case |
| Metadata.MissingFieldsDefault | AviaxMusic/utils/thumbnails.py:28-34 | a result with no title, duration, view count or channel reads as "Unsupported Title", "Unknown", "Unknown Views", "Unknown Channel" |
| Metadata.ThumbnailHasNoQuery | AviaxMusic/utils/thumbnails.py:32 | the address handed to the download contains no `'?'` and is a prefix of the first thumbnail's `url` |
| Layout.FloorDiv | AviaxMusic/utils/thumbnails.py:67-68 | `a // b` for a positive divisor is the largest `q` with `q * b <= a` |
| Layout.Framed | AviaxMusic/utils/thumbnails.py:58-64 | the white frame is twice the border larger than the centrepiece in each dimension |
| Layout.PasteAt | AviaxMusic/utils/thumbnails.py:67-68 | the paste position centres the piece across, with the odd pixel on the right, and puts the gap below the piece at twice the lift more than the gap above, plus the odd pixel |
| Layout.PlacedWithinIff | AviaxMusic/utils/thumbnails.py:67-70 | a pasted piece lies on the canvas if and only if it is no wider than the canvas and the lift keeps it between the top and the bottom |
| Layout.FrameSurroundsCentre | AviaxMusic/utils/thumbnails.py:58-65 | the centrepiece pasted at `(border, border)` lies inside the frame with exactly `border` pixels on every side |
| Layout.ThumbnailGeometry | AviaxMusic/utils/thumbnails.py:56-70 | the 942x422 centrepiece with a 10-pixel border is 962x442; it is pasted at (159, 99) and lies within the 1280x720 canvas |
| Layout.LoadFonts | AviaxMusic/utils/thumbnails.py:73-80 | when font loading fails, all three roles use the default font; otherwise all three are TrueType faces |
| Layout.Overlay | AviaxMusic/utils/thumbnails.py:82-107 | six operations are drawn: an empty watermark, then the channel name and view count separated by a vertical bar, then the title truncated to at most 60 characters, and the duration last |
| Layout.Compose | AviaxMusic/utils/thumbnails.py:45-107 | the composed image is 1280x720; the 962x442 white frame sits at (159, 99) and the 942x422 centrepiece 10 pixels inside it, at (169, 109); the overlay is drawn with the fonts that loaded |
| Layout.SceneLaidOut | AviaxMusic/utils/thumbnails.py:48-107 | in the composed scene, the centrepiece lies inside its frame and the frame on the canvas. Every text and the line start on the canvas, the captions below the frame. Font loading moves nothing: the frame, the number of operations and where each one starts are the same either way |
| Generator.GiveUp | AviaxMusic/utils/thumbnails.py:118-120 | a give-up replies with the fallback address and leaves the files alone. It records at most one event, and the trace ends with a logged error exactly when the failure reached the exception handler |
| Generator.GenThumb | AviaxMusic/utils/thumbnails.py:14-120 | the reply is the fallback address on a fallback and the cache path otherwise. Only this video's temporary and cache files can appear, and only its temporary file can disappear. The first call is always the cache check |
| Generator.SearchAndCompose | AviaxMusic/utils/thumbnails.py:18-35 | the guarded pipeline never answers from the cache and touches only this video's files. It logs exactly the failures that raised |
| Generator.DownloadAndCompose | AviaxMusic/utils/thumbnails.py:36-44 | the download stage never answers from the cache and touches only this video's files. It logs exactly the failures that raised |
| Generator.ComposeAndSave | AviaxMusic/utils/thumbnails.py:45-116 | the composition stage never answers from the cache and touches only this video's files. It logs exactly the failures that raised |
| Generator.CachePath | AviaxMusic/utils/thumbnails.py:15-16 | `cache/{videoid}.png` is the directory `cache/`, then the identifier, then `.png` |
| Generator.TempPath | AviaxMusic/utils/thumbnails.py:42 | `cache/thumb{videoid}.png` is the cache path of the identifier `"thumb" + videoid` |
| Generator.PathsDistinct | AviaxMusic/utils/thumbnails.py:15-16 | different identifiers have different cache paths, and an identifier's temporary path is never its own cache path |
| Generator.CacheHitShortCircuits | AviaxMusic/utils/thumbnails.py:15-16 | with the cache file present, the reply is its path and the files are unchanged. The trace is only the existence check, whatever the collaborators would do |
| Generator.CachedIffPresent | AviaxMusic/utils/thumbnails.py:15-16 | the outcome is a cache hit exactly when the cache file existed |
| Generator.NoResultFallsBack | AviaxMusic/utils/thumbnails.py:23-24 | an empty search replies with the fallback address. It changes no file, downloads nothing and logs nothing |
| Generator.BadStatusFallsBack | AviaxMusic/utils/thumbnails.py:39-40 | a non-200 status replies with the fallback address. It writes no file, creates no cache file and logs nothing; the download is the last call |
| Generator.ReplyIsPathOrFallback | AviaxMusic/utils/thumbnails.py:14-120 | every reply is either the cache path or the fallback address |
| Generator.ComposedIffAllSucceed | AviaxMusic/utils/thumbnails.py:14-120 | a fresh image is produced if and only if the cache missed and every step succeeded: the search returned a result, the result read, the status was 200, and the temporary write, the composition and the save all worked |
| Generator.ComposedEffects | AviaxMusic/utils/thumbnails.py:36-116 | after a fresh composition the reply is the cache path and the cache file exists. The temporary file remains exactly when its removal failed |
| Generator.ComposedTrace | AviaxMusic/utils/thumbnails.py:14-116 | a fresh composition calls check, search, download of the query-stripped address, write, composition of the scene, remove and save, in that order |
| Generator.FallbackLeavesNoCacheFile | AviaxMusic/utils/thumbnails.py:115-120 | a fallback for an uncached video never leaves a file at its cache path |
| Generator.LoggedIffRaised | AviaxMusic/utils/thumbnails.py:118-120 | the trace ends with a logged error exactly when the fallback came through the exception handler |
| Generator.FontsDoNotMatter | AviaxMusic/utils/thumbnails.py:73-80 | whether the font files load changes neither the reply, nor the outcome, nor the files |
| Generator.SecondCallHitsCache | AviaxMusic/utils/thumbnails.py:14-116 | after a fresh composition, the next call for the same video is a cache hit, whatever the collaborators do |
| Generator.ComposeFailureLeavesTemp | AviaxMusic/utils/thumbnails.py:14-120 | when the cache misses, the first result reads, the download returns 200 and the temporary file is written, but composing the image raises, the reply is the fallback and the temporary file stays. A later call for the identifier `"thumb" + id` then replies with that file as a cache hit |

## Left out

- Video search (`VideosSearch`, lines 20-21): an external network library. It appears only as an input: it raised, or it returned a list of result records.
- Non-string values in the search record: the model types every leaf as a string. A JSON `null` title, or a `viewCount` that is not an object, would raise in the source and take the catch-all fallback. The model cannot express that input.
- Lone surrogates in a title: a Python `str` can hold one (a JSON `"\ud800"`, say) and a Dafny `char` cannot, so such titles are outside the model.
- HTTP download and file write (lines 37-43): asynchronous network and file I/O. They appear as a status code (or a raise) and a three-way write result: written, open raised, or write raised after the file was created.
- Pillow operations (lines 45-115): resize, blur, brightness, pixel paste, text rendering and save are a foreign library with floating-point pixel work. Only the integer geometry, the fonts chosen and the text drawn are modelled; whether the library raises is a boolean input.
- Generator.GenThumb: treats a failed `background.save` as leaving no file at the cache path. Pillow's clean-up on a failed save is not part of this model.
- Temporary-file removal (lines 110-113): modelled as success or a swallowed failure; the filesystem itself is a set of paths. Paths are compared as strings: an identifier containing `.` or `..` segments (`"../cache/x"`) names a path string different from, but on disk the same file as, another identifier's. The source would answer such an identifier from that file; the model does not, and `Generator.PathsDistinct` is a statement about path strings only.
- `print` (line 119): modelled as a `LogError` event at the end of the trace; the message text is not.
- A `BaseException` that is not an `Exception` (task cancellation such as `asyncio.CancelledError`, `KeyboardInterrupt`, `SystemExit`): the handler at line 118 does not catch it, so it propagates out of `gen_thumb` with no reply and no log, and when it interrupts the download after line 42 opened the file, `cache/thumb{id}.png` stays. The model has no outcome for it: every `Raised` is an `Exception`.
- Concurrent calls for the same identifier: the source has no coordination between them. The model describes a single call against a given set of files.
