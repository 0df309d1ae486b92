/**
 * `gen_thumb(videoid)` (thumbnails.py lines 14-120) with its collaborators
 * abstracted: the cache directory is a set of existing paths, and the search,
 * the download, the temporary-file write, the composition, the clean-up and
 * the save are each given as the outcome they had. The result is the reply
 * (cache path or fallback address), a tagged outcome, the files afterwards
 * and the trace of collaborator calls.
 */
module Generator {
  import opened Wrappers
  import opened Metadata
  import opened Layout

  /** The configured fallback image address (`YOUTUBE_IMG_URL`). */
  datatype Config = Config(fallbackUrl: string)

  /**
   * A collaborator call that either returned a value or raised. `Raised` is
   * an `Exception` subclass, the kind the handler at line 118 catches.
   */
  datatype Attempt<T> = Raised | Returned(value: T)

  /** Opening the temporary file creates it; writing into it may still fail. */
  datatype TempWrite = Written | OpenRaised | WriteRaised

  /** What each collaborator does on this call. */
  datatype World = World(
    search: Attempt<seq<SearchResult>>,
    status: Attempt<int>,
    tempWrite: TempWrite,
    composeOk: bool,
    fontsLoad: bool,
    removeOk: bool,
    saveOk: bool)

  /** Why the fallback address was returned. */
  datatype FallbackReason =
    | SearchRaised
    | NoResult
    | BadResult(error: ReadError)
    | DownloadRaised
    | BadStatus(code: int)
    | TempRaised
    | ComposeRaised
    | SaveRaised

  datatype Outcome = Cached | Composed | Fallback(why: FallbackReason)

  datatype Event =
    | CheckCache(path: string)
    | Search(query: string)
    | Download(url: string)
    | WriteTemp(path: string)
    | ComposeImage(scene: Scene)
    | RemoveTemp(path: string)
    | Save(path: string)
    | LogError(why: FallbackReason)

  datatype Run = Run(reply: string, outcome: Outcome, files: set<string>, trace: seq<Event>)

  const HttpOk: int := 200
  const CacheDir: string := "cache/"
  const ThumbPrefix: string := "thumb"
  const PngExt: string := ".png"

  /** `cache/{videoid}.png`: the finished image. */

  function CachePath(videoId: string): (p: string)
    ensures |p| == |CacheDir| + |videoId| + |PngExt|
    ensures p[..|CacheDir|] == CacheDir && p[|p| - |PngExt|..] == PngExt
    ensures p[|CacheDir|..|p| - |PngExt|] == videoId
  {
    CacheDir + videoId + PngExt
  }

  /** `cache/thumb{videoid}.png`: the raw download. */
  function TempPath(videoId: string): (p: string)
    ensures p == CachePath(ThumbPrefix + videoId)
  {
    assert CacheDir + ThumbPrefix + videoId + PngExt == CacheDir + (ThumbPrefix + videoId) + PngExt;
    CacheDir + ThumbPrefix + videoId + PngExt
  }

  /** Failures that reach the catch-all handler, which logs them; the others are plain returns. */
  predicate Logged(why: FallbackReason) {
    !why.NoResult? && !why.BadStatus?
  }

  /** Give up with the fallback address, logging the failure when it was an exception. */
  function GiveUp(cfg: Config, why: FallbackReason, files: set<string>): (run: Run)
    ensures run.reply == cfg.fallbackUrl && run.outcome == Fallback(why) && run.files == files
    ensures |run.trace| <= 1
    ensures EndsLogged(run.trace) <==> Logged(why)
  {
    Run(cfg.fallbackUrl, Fallback(why), files, if Logged(why) then [LogError(why)] else [])
  }

  /** The trace ends with a logged error. */
  predicate EndsLogged(trace: seq<Event>) {
    |trace| > 0 && trace[|trace| - 1].LogError?
  }

  /** Records that `e` happened before everything in `run`. */
  function After(e: Event, run: Run): (r: Run)
    ensures r.reply == run.reply && r.outcome == run.outcome && r.files == run.files
    ensures r.trace == [e] + run.trace
    ensures !e.LogError? ==> (EndsLogged(r.trace) <==> EndsLogged(run.trace))
  {
    run.(trace := [e] + run.trace)
  }

  /**
   * One call of `gen_thumb`. The reply is the cache path for a cached or
   * freshly composed image and the fallback address otherwise; only the
   * temporary and the cache file of this video can appear, and only the
   * temporary file can disappear.
   */
  function GenThumb(cfg: Config, videoId: string, files: set<string>, w: World): (run: Run)
    ensures run.outcome.Fallback? ==> run.reply == cfg.fallbackUrl
    ensures !run.outcome.Fallback? ==> run.reply == CachePath(videoId)
    ensures run.files - files <= {TempPath(videoId), CachePath(videoId)}
    ensures files - run.files <= {TempPath(videoId)}
    ensures |run.trace| >= 1 && run.trace[0] == CheckCache(CachePath(videoId))
  {
    var cache := CachePath(videoId);
    if cache in files then Run(cache, Cached, files, [CheckCache(cache)])
    else After(CheckCache(cache), SearchAndCompose(cfg, videoId, files, w))
  }

  /** The guarded part of `gen_thumb` (lines 18-120): search, then read the first result. */
  function SearchAndCompose(cfg: Config, videoId: string, files: set<string>, w: World): (run: Run)
    ensures run.outcome != Cached
    ensures run.files - files <= {TempPath(videoId), CachePath(videoId)}
    ensures files - run.files <= {TempPath(videoId)}
    ensures EndsLogged(run.trace) <==> run.outcome.Fallback? && Logged(run.outcome.why)
  {
    After(Search(videoId),
      match w.search
      case Raised => GiveUp(cfg, SearchRaised, files)
      case Returned(results) =>
        if |results| == 0 then GiveUp(cfg, NoResult, files)
        else
          match ReadResult(results[0])
          case Failure(e) => GiveUp(cfg, BadResult(e), files)
          case Success(info) => DownloadAndCompose(cfg, videoId, info, files, w))
  }

  /** Download the thumbnail (lines 37-43) and keep it in the temporary file. */
  function DownloadAndCompose(cfg: Config, videoId: string, info: VideoInfo, files: set<string>, w: World): (run: Run)
    ensures run.outcome != Cached
    ensures run.files - files <= {TempPath(videoId), CachePath(videoId)}
    ensures files - run.files <= {TempPath(videoId)}
    ensures EndsLogged(run.trace) <==> run.outcome.Fallback? && Logged(run.outcome.why)
  {
    After(Download(info.thumbnail),
      match w.status
      case Raised => GiveUp(cfg, DownloadRaised, files)
      case Returned(code) =>
        if code != HttpOk then GiveUp(cfg, BadStatus(code), files)
        else
          var temp := TempPath(videoId);
          After(WriteTemp(temp),
            match w.tempWrite
            case OpenRaised => GiveUp(cfg, TempRaised, files)
            case WriteRaised => GiveUp(cfg, TempRaised, files + {temp})
            case Written => ComposeAndSave(cfg, videoId, info, files + {temp}, w)))
  }

  /** Compose the image, remove the temporary file (errors ignored) and save (lines 45-116). */
  function ComposeAndSave(cfg: Config, videoId: string, info: VideoInfo, files: set<string>, w: World): (run: Run)
    ensures run.outcome != Cached
    ensures run.files - files <= {TempPath(videoId), CachePath(videoId)}
    ensures files - run.files <= {TempPath(videoId)}
    ensures EndsLogged(run.trace) <==> run.outcome.Fallback? && Logged(run.outcome.why)
  {
    var temp := TempPath(videoId);
    var cache := CachePath(videoId);
    After(ComposeImage(Compose(info, w.fontsLoad)),
      if !w.composeOk then GiveUp(cfg, ComposeRaised, files)
      else
        var kept := if w.removeOk then files - {temp} else files;
        After(RemoveTemp(temp), After(Save(cache),
          if !w.saveOk then GiveUp(cfg, SaveRaised, kept)
          else Run(cache, Composed, kept + {cache}, []))))
  }

  // ---------------------------------------------------------------------
  // Paths
  // ---------------------------------------------------------------------

  /** Different videos have different cache files, and no video's temporary file is its own cache file. */
  lemma PathsDistinct(a: string, b: string)
    ensures CachePath(a) == CachePath(b) ==> a == b
    ensures TempPath(a) != CachePath(a)
  {
    if CachePath(a) == CachePath(b) {
      assert |a| == |b|;
      assert forall i :: 0 <= i < |a| ==> a[i] == CachePath(a)[|CacheDir| + i] == CachePath(b)[|CacheDir| + i] == b[i];
    }
    assert |TempPath(a)| == |CachePath(a)| + 5;
  }

  // ---------------------------------------------------------------------
  // Outcomes
  // ---------------------------------------------------------------------

  /**
   * Cache hit short-circuit: when the cache file exists the reply is its path,
   * nothing changes, and no collaborator beyond the existence check is called.
   */
  lemma CacheHitShortCircuits(cfg: Config, videoId: string, files: set<string>, w: World)
    requires CachePath(videoId) in files
    ensures GenThumb(cfg, videoId, files, w) ==
      Run(CachePath(videoId), Cached, files, [CheckCache(CachePath(videoId))])
  {
  }

  /** The outcome is `Cached` exactly when the cache file already existed. */
  lemma CachedIffPresent(cfg: Config, videoId: string, files: set<string>, w: World)
    ensures GenThumb(cfg, videoId, files, w).outcome == Cached <==> CachePath(videoId) in files
  {
  }

  /** An empty search returns the fallback address, downloads nothing and logs nothing. */
  lemma NoResultFallsBack(cfg: Config, videoId: string, files: set<string>, w: World)
    requires CachePath(videoId) !in files
    requires w.search == Returned([])
    ensures GenThumb(cfg, videoId, files, w) ==
      Run(cfg.fallbackUrl, Fallback(NoResult), files,
          [CheckCache(CachePath(videoId)), Search(videoId)])
  {
  }

  /**
   * A download answered with a status other than 200 returns the fallback
   * address without logging, writing any file, or creating the cache file.
   */
  lemma BadStatusFallsBack(cfg: Config, videoId: string, files: set<string>, w: World)
    requires CachePath(videoId) !in files
    requires w.search.Returned? && |w.search.value| > 0
    requires ReadResult(w.search.value[0]).Success?
    requires w.status.Returned? && w.status.value != 200
    ensures var run := GenThumb(cfg, videoId, files, w);
      && run.reply == cfg.fallbackUrl
      && run.outcome == Fallback(BadStatus(w.status.value))
      && run.files == files
      && CachePath(videoId) !in run.files
      && run.trace[|run.trace| - 1] == Download(ReadResult(w.search.value[0]).value.thumbnail)
  {
  }

  /** Every call ends in one of the two replies: the cache path or the fallback address. */
  lemma ReplyIsPathOrFallback(cfg: Config, videoId: string, files: set<string>, w: World)
    ensures GenThumb(cfg, videoId, files, w).reply in {CachePath(videoId), cfg.fallbackUrl}
  {
  }

  /**
   * A fresh image is composed exactly when every collaborator succeeds: a
   * non-empty search, a readable first result, status 200, the temporary
   * file written, composition and save without error. Font loading and
   * temporary-file removal do not matter.
   */
  lemma ComposedIffAllSucceed(cfg: Config, videoId: string, files: set<string>, w: World)
    ensures GenThumb(cfg, videoId, files, w).outcome == Composed <==>
      && CachePath(videoId) !in files
      && w.search.Returned? && |w.search.value| > 0
      && ReadResult(w.search.value[0]).Success?
      && w.status == Returned(200)
      && w.tempWrite == Written && w.composeOk && w.saveOk
  {
  }

  /**
   * A successful composition leaves the cache file in place and removes the
   * temporary file exactly when its removal succeeds.
   */
  lemma ComposedEffects(cfg: Config, videoId: string, files: set<string>, w: World)
    requires GenThumb(cfg, videoId, files, w).outcome == Composed
    ensures var run := GenThumb(cfg, videoId, files, w);
      && run.reply == CachePath(videoId)
      && CachePath(videoId) in run.files
      && (TempPath(videoId) in run.files <==> !w.removeOk)
  {
    PathsDistinct(videoId, videoId);
  }

  /** A successful composition calls every collaborator once, in the source's order. */
  lemma ComposedTrace(cfg: Config, videoId: string, files: set<string>, w: World)
    requires GenThumb(cfg, videoId, files, w).outcome == Composed
    ensures var info := ReadResult(w.search.value[0]).value;
      GenThumb(cfg, videoId, files, w).trace ==
        [CheckCache(CachePath(videoId)), Search(videoId), Download(info.thumbnail),
         WriteTemp(TempPath(videoId)), ComposeImage(Compose(info, w.fontsLoad)),
         RemoveTemp(TempPath(videoId)), Save(CachePath(videoId))]
  {
  }

  /** A fallback on an uncached video never leaves a cache file behind. */
  lemma FallbackLeavesNoCacheFile(cfg: Config, videoId: string, files: set<string>, w: World)
    requires CachePath(videoId) !in files
    requires GenThumb(cfg, videoId, files, w).outcome.Fallback?
    ensures CachePath(videoId) !in GenThumb(cfg, videoId, files, w).files
  {
    PathsDistinct(videoId, videoId);
  }

  /** The failure is logged exactly when it went through the exception handler. */
  lemma LoggedIffRaised(cfg: Config, videoId: string, files: set<string>, w: World)
    ensures var run := GenThumb(cfg, videoId, files, w);
      run.trace[|run.trace| - 1].LogError? <==> run.outcome.Fallback? && Logged(run.outcome.why)
  {
  }

  /** Whether the font files load changes neither the reply nor the files. */
  lemma FontsDoNotMatter(cfg: Config, videoId: string, files: set<string>, w: World)
    ensures var a := GenThumb(cfg, videoId, files, w);
      var b := GenThumb(cfg, videoId, files, w.(fontsLoad := !w.fontsLoad));
      a.reply == b.reply && a.outcome == b.outcome && a.files == b.files
  {
    SearchIgnoresFonts(cfg, videoId, files, w, !w.fontsLoad);
  }

  lemma SearchIgnoresFonts(cfg: Config, videoId: string, files: set<string>, w: World, f: bool)
    ensures var a := SearchAndCompose(cfg, videoId, files, w);
      var b := SearchAndCompose(cfg, videoId, files, w.(fontsLoad := f));
      a.reply == b.reply && a.outcome == b.outcome && a.files == b.files
  {
    if w.search.Returned? && |w.search.value| > 0 && ReadResult(w.search.value[0]).Success? {
      DownloadIgnoresFonts(cfg, videoId, ReadResult(w.search.value[0]).value, files, w, f);
    }
  }

  lemma DownloadIgnoresFonts(cfg: Config, videoId: string, info: VideoInfo, files: set<string>, w: World, f: bool)
    ensures var a := DownloadAndCompose(cfg, videoId, info, files, w);
      var b := DownloadAndCompose(cfg, videoId, info, files, w.(fontsLoad := f));
      a.reply == b.reply && a.outcome == b.outcome && a.files == b.files
  {
    ComposeIgnoresFonts(cfg, videoId, info, files + {TempPath(videoId)}, w, f);
  }

  lemma ComposeIgnoresFonts(cfg: Config, videoId: string, info: VideoInfo, files: set<string>, w: World, f: bool)
    ensures var a := ComposeAndSave(cfg, videoId, info, files, w);
      var b := ComposeAndSave(cfg, videoId, info, files, w.(fontsLoad := f));
      a.reply == b.reply && a.outcome == b.outcome && a.files == b.files
  {
  }

  /** After a successful composition, the next call for the same video is a cache hit. */
  lemma SecondCallHitsCache(cfg: Config, videoId: string, files: set<string>, w: World, w': World)
    requires GenThumb(cfg, videoId, files, w).outcome == Composed
    ensures var files' := GenThumb(cfg, videoId, files, w).files;
      GenThumb(cfg, videoId, files', w') ==
        Run(CachePath(videoId), Cached, files', [CheckCache(CachePath(videoId))])
  {
    ComposedEffects(cfg, videoId, files, w);
  }

  /**
   * When composition raises, the downloaded file is not removed, and since it
   * sits at the cache path of the video "thumb" + id, a later call for that
   * identifier is answered from it as a cache hit.
   */
  lemma ComposeFailureLeavesTemp(cfg: Config, videoId: string, files: set<string>, w: World, w': World)
    requires CachePath(videoId) !in files
    requires w.search.Returned? && |w.search.value| > 0
    requires w.search.value[0].thumbnails.Some? && |w.search.value[0].thumbnails.value| > 0
    requires "url" in w.search.value[0].thumbnails.value[0]
    requires w.status == Returned(HttpOk) && w.tempWrite == Written && !w.composeOk
    ensures GenThumb(cfg, videoId, files, w).outcome == Fallback(ComposeRaised)
    ensures var files' := GenThumb(cfg, videoId, files, w).files;
      && TempPath(videoId) in files'
      && GenThumb(cfg, ThumbPrefix + videoId, files', w').outcome == Cached
      && GenThumb(cfg, ThumbPrefix + videoId, files', w').reply == TempPath(videoId)
  {
  }
}
