/**
 * Reading the first search result into the five fields the thumbnail needs
 * (thumbnails.py lines 26-34): each optional field falls back to a fixed
 * label, and the thumbnail address loses its query string.
 */
module Metadata {
  import opened Wrappers
  import opened Titles

  /** A nested object of the search result, e.g. `viewCount` or `channel`. */
  type Dict = map<string, string>

  /**
   * The first search result, as far as the generator reads it. Every key may
   * be missing; `thumbnails` is a list of objects that should carry a `url`.
   */
  datatype SearchResult = SearchResult(
    title: Option<string>,
    duration: Option<string>,
    thumbnails: Option<seq<Dict>>,
    viewCount: Option<Dict>,
    channel: Option<Dict>)

  /** The fields drawn onto the thumbnail. */
  datatype VideoInfo = VideoInfo(
    title: string,
    duration: string,
    thumbnail: string,
    views: string,
    channel: string)

  /** Why a search result could not be read; each is an exception in the source. */
  datatype ReadError =
    | NoThumbnails     // `result["thumbnails"]` raises KeyError
    | EmptyThumbnails  // `[0]` on an empty list raises IndexError
    | NoThumbnailUrl   // `["url"]` raises KeyError

  const DefaultTitle: string := "Unsupported Title"
  const DefaultDuration: string := "Unknown"
  const DefaultViews: string := "Unknown Views"
  const DefaultChannel: string := "Unknown Channel"

  /** `result.get(outer, {}).get(key, default)`. */
  function NestedGet(d: Option<Dict>, key: string, default: string): (v: string)
    ensures d.Some? && key in d.value ==> v == d.value[key]
    ensures d.None? || key !in d.value ==> v == default
  {
    match d
    case None => default
    case Some(m) => if key in m then m[key] else default
  }

  /**
   * `url.split("?")[0]`: the longest prefix of `url` without a `'?'`. The
   * result is a prefix, holds no `'?'`, and stops only at a `'?'` or the end.
   */
  function StripQuery(url: string): (r: string)
    ensures |r| <= |url| && r == url[..|r|]
    ensures '?' !in r
    ensures |r| < |url| ==> url[|r|] == '?'
  {
    if url == [] || url[0] == '?' then []
    else [url[0]] + StripQuery(url[1..])
  }

  /** Reads the fields of one search result, in the order the source does. */
  function ReadResult(res: SearchResult): (m: Result<VideoInfo, ReadError>)
    ensures m.Failure? <==>
      (res.thumbnails.None? || |res.thumbnails.value| == 0 || "url" !in res.thumbnails.value[0])
    ensures res.thumbnails.None? ==> m == Failure(NoThumbnails)
    ensures res.thumbnails.Some? && |res.thumbnails.value| == 0 ==> m == Failure(EmptyThumbnails)
    ensures res.thumbnails.Some? && |res.thumbnails.value| > 0 && "url" !in res.thumbnails.value[0] ==>
      m == Failure(NoThumbnailUrl)
    ensures m.Success? ==>
      var info := m.value;
      && (res.title.None? ==> info.title == DefaultTitle)
      && (res.title.Some? ==> info.title == Clear(res.title.value))
      && (res.duration.None? ==> info.duration == DefaultDuration)
      && (res.duration.Some? ==> info.duration == res.duration.value)
      && info.thumbnail == StripQuery(res.thumbnails.value[0]["url"])
      && info.views == NestedGet(res.viewCount, "short", DefaultViews)
      && info.channel == NestedGet(res.channel, "name", DefaultChannel)
  {
    // The source clears the default title too; it is already clear
    // (DefaultTitleIsClear), so only a title from the result is cleared here.
    var title := if res.title.Some? then Clear(res.title.value) else DefaultTitle;
    var duration := res.duration.GetOr(DefaultDuration);
    match res.thumbnails
    case None => Failure(NoThumbnails)
    case Some(list) =>
      if |list| == 0 then Failure(EmptyThumbnails)
      else if "url" !in list[0] then Failure(NoThumbnailUrl)
      else
        var thumbnail := StripQuery(list[0]["url"]);
        var views := NestedGet(res.viewCount, "short", DefaultViews);
        var channel := NestedGet(res.channel, "name", DefaultChannel);
        Success(VideoInfo(title, duration, thumbnail, views, channel))
  }

  // ---------------------------------------------------------------------
  // Lemmas
  // ---------------------------------------------------------------------

  /**
   * The address is cut at its first `'?'`: the cut-off part is empty or
   * begins with `'?'`.
   */
  lemma StripQuerySplitsUrl(url: string)
    ensures url == StripQuery(url) + url[|StripQuery(url)|..]
    ensures url[|StripQuery(url)|..] == [] || url[|StripQuery(url)|] == '?'
  {
    var r := StripQuery(url);
    assert url == url[..|r|] + url[|r|..];
  }

  /** An address without a query string is kept whole, so cutting twice changes nothing. */
  lemma StripQueryIdempotent(url: string)
    ensures '?' !in url ==> StripQuery(url) == url
    ensures StripQuery(StripQuery(url)) == StripQuery(url)
  {
    if '?' !in url {
      NoQueryUnchanged(url);
    }
    NoQueryUnchanged(StripQuery(url));
  }

  lemma {:induction false} NoQueryUnchanged(s: string)
    requires '?' !in s
    ensures StripQuery(s) == s
  {
    if s != [] {
      assert s == [s[0]] + s[1..];
      NoQueryUnchanged(s[1..]);
    }
  }

  /**
   * The default title is already normalised, so `clear` leaves it unchanged.
   * The title arrives as a parameter equal to `DefaultTitle` rather than as
   * the literal itself, so that the verifier does not unfold `Clear` on a
   * literal string character by character.
   */
  lemma DefaultTitleIsClear(t: string)
    requires t == DefaultTitle
    ensures Clear(t) == t
  {
    assert Normal(t) by {
      assert forall i :: 0 <= i < |t| && IsSpace(t[i]) ==> i == 11;
    }
    ClearFixedPoints(t);
  }

  /**
   * The title read is `clear(result.get("title", "Unsupported Title"))`,
   * exactly as the source computes it. `t` names that `get` for the same
   * reason as in `DefaultTitleIsClear`.
   */
  lemma TitleIsClearedGet(res: SearchResult, t: string)
    requires ReadResult(res).Success?
    requires t == res.title.GetOr(DefaultTitle)
    ensures ReadResult(res).value.title == Clear(t)
  {
    if res.title.None? {
      DefaultTitleIsClear(t);
    }
  }

  /** Every missing optional key is replaced by its fixed label. */
  lemma MissingFieldsDefault(res: SearchResult)
    requires res.title.None? && res.duration.None? && res.viewCount.None? && res.channel.None?
    requires ReadResult(res).Success?
    ensures ReadResult(res).value.title == "Unsupported Title"
    ensures ReadResult(res).value.duration == "Unknown"
    ensures ReadResult(res).value.views == "Unknown Views"
    ensures ReadResult(res).value.channel == "Unknown Channel"
  {
  }

  /** The address handed to the download never carries a query string. */
  lemma ThumbnailHasNoQuery(res: SearchResult)
    requires ReadResult(res).Success?
    ensures '?' !in ReadResult(res).value.thumbnail
    ensures ReadResult(res).value.thumbnail <= res.thumbnails.value[0]["url"]
  {
  }
}
