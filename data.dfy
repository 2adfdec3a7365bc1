/** The stream catalog (data/LofiStream.kt, data/StreamRepository.kt): the record
    of one live stream, the mapping from the extraction backend's channel items,
    the one-slot cache with fallback, and the resolution of a stream to its HLS URL.
    The extraction backend is not modelled: its answers are parameters. */
module Data {
  import opened Wrappers
  import opened Strings

  /** One live stream as the app lists it. */
  datatype LofiStream = LofiStream(title: string, videoId: string, thumbnailUrl: Option<string>, viewerCount: int)

  /** The kinds of stream the extraction backend reports. */
  datatype StreamType =
    | NONE | VIDEO_STREAM | AUDIO_STREAM | LIVE_STREAM | AUDIO_LIVE_STREAM
    | POST_LIVE_STREAM | POST_LIVE_AUDIO_STREAM

  /** An entry of a channel tab: a stream, or some other kind of item (a playlist, a channel). */
  datatype InfoItem =
    | StreamInfoItem(name: string, url: string, thumbnails: seq<string>, viewCount: int, streamType: StreamType)
    | OtherInfoItem(name: string, url: string)

  /** The exceptions that reach the app, by class, with their messages. */
  datatype Exception =
    | IOException(message: Option<string>)
    | ExtractionException(message: Option<string>)
    | IllegalArgumentException(message: Option<string>)
    | IllegalStateException(message: Option<string>)
    | TimeoutCancellationException(message: Option<string>)
    | CancellationException(message: Option<string>)
  {
    /** Kotlin's `e is CancellationException`: a timeout is a cancellation too. */
    predicate IsCancellation() {
      TimeoutCancellationException? || CancellationException?
    }
  }

  /** What the backend's channel-tab extractor produced: the first page of items, or a failure. */
  datatype ChannelPage = Page(items: seq<InfoItem>) | PageFailed(error: Exception)

  /** What the backend's stream extractor produced for a watch URL, and how long it took. */
  datatype ExtractorResponse =
    | Extracted(hlsUrl: Option<string>, elapsedMs: nat)
    | ExtractorFailed(error: Exception, elapsedMs: nat)
  {
    function Elapsed(): nat {
      match this
      case Extracted(_, e) => e
      case ExtractorFailed(_, e) => e
    }
  }

  const LOFI_GIRL_CHANNEL_ID: string := "UCSJ4gkVC6NrvII8umztf0Ow"
  const HLS_TIMEOUT_MS: nat := 30_000
  const WATCH_URL_PREFIX: string := "https://www.youtube.com/watch?v="

  // ---- extractVideoId ----

  /** The value of the first "v=" parameter, up to the next '&'. */
  function QueryVideoId(url: string): (r: string)
    ensures '&' !in r
  {
    BeforeHasNoDelimiter(SubstringAfter(url, "v=", ""), '&');
    SubstringBefore(SubstringAfter(url, "v=", ""), "&")
  }

  /** The last path segment, up to the first '?'. */
  function PathVideoId(url: string): (r: string)
    ensures '/' !in r && '?' !in r
  {
    var segment := SubstringAfterLast(url, "/");
    AfterLastHasNoDelimiter(url, '/');
    BeforeHasNoDelimiter(segment, '?');
    var r := SubstringBefore(segment, "?");
    assert forall j :: 0 <= j < |r| ==> r[j] == segment[j];
    r
  }

  /** `extractVideoId(url)`: the "v=" parameter if it is not empty, otherwise the
      last path segment without its query. */
  function ExtractVideoId(url: string): (r: string)
    ensures QueryVideoId(url) != [] ==> r == QueryVideoId(url) && '&' !in r
    ensures QueryVideoId(url) == [] ==> r == PathVideoId(url) && '/' !in r && '?' !in r
  {
    var v := QueryVideoId(url);
    if v != [] then v else PathVideoId(url)
  }

  /** The canonical watch URL of a video. */
  function WatchUrl(videoId: string): (r: string)
    ensures IndexOf(r, "v=") == |WATCH_URL_PREFIX| - 2 && SubstringAfter(r, "v=", "") == videoId
  {
    WatchUrlQueryStart(videoId);
    WATCH_URL_PREFIX + videoId
  }

  /** The first "v=" of a watch URL is the one ending its prefix. */
  lemma WatchUrlQueryStart(rest: string)
    ensures IndexOf(WATCH_URL_PREFIX + rest, "v=") == |WATCH_URL_PREFIX| - 2
  {
    var s := WATCH_URL_PREFIX + rest;
    var n := |WATCH_URL_PREFIX|;
    assert n == 32;
    assert 'v' !in WATCH_URL_PREFIX[..n - 2];
    forall k | 0 <= k < n - 2 ensures !OccursAt(s, "v=", k) {
      assert s[k] == WATCH_URL_PREFIX[k];
    }
    assert s[n - 2..n] == "v=";
    assert OccursAt(s, "v=", n - 2);
  }

  /** The id is read back from its watch URL, whatever '&'-parameters follow it. */
  lemma ExtractVideoIdOfWatchUrl(videoId: string, tail: string)
    requires videoId != [] && '&' !in videoId
    requires tail == [] || tail[0] == '&'
    ensures ExtractVideoId(WatchUrl(videoId) + tail) == videoId
  {
    var s := WatchUrl(videoId) + tail;
    assert s == WATCH_URL_PREFIX + (videoId + tail);
    WatchUrlQueryStart(videoId + tail);
    assert SubstringAfter(s, "v=", "") == videoId + tail;
    if tail == [] {
      BeforeDelimiter(videoId, '&', []);
      assert videoId + tail == videoId;
    } else {
      assert videoId + tail == videoId + ['&'] + tail[1..];
      BeforeDelimiter(videoId, '&', tail[1..]);
    }
  }

  /** "…/watch?v=abc&t=1" gives "abc". */
  lemma WatchUrlExample()
    ensures ExtractVideoId("https://www.youtube.com/watch?v=abc&t=1") == "abc"
  {
    assert "https://www.youtube.com/watch?v=abc&t=1" == WatchUrl("abc") + "&t=1";
    ExtractVideoIdOfWatchUrl("abc", "&t=1");
  }

  /** "…/live/abc?t=1" has no "v=" parameter, so the id is its last path segment, "abc". */
  lemma PathUrlExample()
    ensures ExtractVideoId("https://www.youtube.com/live/abc?t=1") == "abc"
  {
    var url := "https://www.youtube.com/live/abc?t=1";
    forall k | 0 <= k ensures !OccursAt(url, "v=", k) {
      assert k + 2 > |url| || url[k] != 'v' || url[k + 1] != '=';
    }
    assert QueryVideoId(url) == [];
    assert url == "https://www.youtube.com/live" + ['/'] + "abc?t=1";
    AfterLastDelimiter("https://www.youtube.com/live", '/', "abc?t=1");
    assert "abc?t=1" == "abc" + ['?'] + "t=1";
    BeforeDelimiter("abc", '?', "t=1");
  }

  // ---- item mapping ----

  /** The first thumbnail URL, or none. */
  function FirstThumbnail(thumbnails: seq<string>): Option<string> {
    if thumbnails == [] then None else Some(thumbnails[0])
  }

  /** The `mapNotNull` body: a live stream item with a usable id becomes a `LofiStream`. */
  function ToStream(item: InfoItem): (r: Option<LofiStream>)
    ensures r.Some? <==>
      item.StreamInfoItem? && item.streamType == LIVE_STREAM && ExtractVideoId(item.url) != []
    ensures r.Some? ==>
      r.value == LofiStream(item.name, ExtractVideoId(item.url), FirstThumbnail(item.thumbnails), item.viewCount)
  {
    match item
    case OtherInfoItem(_, _) => None
    case StreamInfoItem(name, url, thumbnails, viewCount, streamType) =>
      if streamType != LIVE_STREAM then None
      else
        var videoId := ExtractVideoId(url);
        if videoId == [] then None
        else Some(LofiStream(name, videoId, FirstThumbnail(thumbnails), viewCount))
  }

  /** The filter/`mapNotNull` chain over the first page of the live-streams tab. */
  function MapItems(items: seq<InfoItem>): (r: seq<LofiStream>)
    ensures |r| <= |items|
  {
    if items == [] then []
    else
      match ToStream(items[0])
      case Some(s) => [s] + MapItems(items[1..])
      case None => MapItems(items[1..])
  }

  /** The mapping works item by item, so it keeps the order of the input. */
  lemma {:induction false} MapItemsAppend(a: seq<InfoItem>, b: seq<InfoItem>)
    ensures MapItems(a + b) == MapItems(a) + MapItems(b)
  {
    if a == [] {
      assert a + b == b;
    } else {
      assert (a + b)[0] == a[0];
      assert (a + b)[1..] == a[1..] + b;
      MapItemsAppend(a[1..], b);
    }
  }

  /** A stream is listed exactly when some item maps to it; in particular every
      listed stream is a live stream item's, with a non-empty id. */
  lemma {:induction false} MapItemsMembers(items: seq<InfoItem>, s: LofiStream)
    ensures s in MapItems(items) <==> exists i :: 0 <= i < |items| && ToStream(items[i]) == Some(s)
    ensures s in MapItems(items) ==> s.videoId != []
  {
    if items != [] {
      MapItemsMembers(items[1..], s);
      if s in MapItems(items) && ToStream(items[0]) != Some(s) {
        var i :| 0 <= i < |items[1..]| && ToStream(items[1..][i]) == Some(s);
        assert ToStream(items[i + 1]) == Some(s);
      }
      if exists i :: 0 <= i < |items| && ToStream(items[i]) == Some(s) {
        var i :| 0 <= i < |items| && ToStream(items[i]) == Some(s);
        if i > 0 {
          assert ToStream(items[1..][i - 1]) == Some(s);
        }
      }
    }
  }

  // ---- getHlsUrl ----

  const EMPTY_ID_MESSAGE: string := "videoId must not be empty"

  function NoHlsMessage(videoId: string): string {
    "No HLS URL available for video " + videoId
  }

  function TimeoutMessage(): string {
    "Timed out waiting for 30000 ms"
  }

  /** The outcome of the stream extractor once the call has returned: a non-empty
      HLS URL as it is, an `IllegalStateException` for a missing or empty one, or
      the extractor's own failure. */
  function ReadHlsUrl(videoId: string, response: ExtractorResponse): (r: Result<string, Exception>)
    ensures r.Success? <==> response.Extracted? && response.hlsUrl.Some? && response.hlsUrl.value != []
    ensures r.Success? ==> r.value == response.hlsUrl.value
    ensures response.ExtractorFailed? ==> r == Failure(response.error)
  {
    match response
    case ExtractorFailed(e, _) => Failure(e)
    case Extracted(hlsUrl, _) =>
      if hlsUrl.None? || hlsUrl.value == [] then Failure(IllegalStateException(Some(NoHlsMessage(videoId))))
      else Success(hlsUrl.value)
  }

  /** `getHlsUrl` as written: the stream extractor's calls never suspend, so the
      surrounding `withTimeout` cannot interrupt them and a late answer is still
      returned. */
  function GetHlsUrlAsWritten(videoId: string, extractor: string -> ExtractorResponse): (r: Result<string, Exception>)
    ensures videoId == [] ==> r == Failure(IllegalArgumentException(Some(EMPTY_ID_MESSAGE)))
    ensures videoId != [] ==> r == ReadHlsUrl(videoId, extractor(WatchUrl(videoId)))
  {
    if videoId == [] then Failure(IllegalArgumentException(Some(EMPTY_ID_MESSAGE)))
    else ReadHlsUrl(videoId, extractor(WatchUrl(videoId)))
  }

  /** An extractor that answers after 45 seconds with a usable URL. */
  function SlowExtractor(url: string): ExtractorResponse {
    Extracted(Some("https://manifest.example/index.m3u8"), 45_000)
  }

  /** As written, the 30-second bound is not enforced: the 45-second answer is returned. */
  lemma LateAnswerReturnedAsWritten()
    ensures GetHlsUrlAsWritten("abc", SlowExtractor) == Success("https://manifest.example/index.m3u8")
    ensures SlowExtractor(WatchUrl("abc")).Elapsed() > HLS_TIMEOUT_MS
  {
  }

  /** `getHlsUrl` as intended: the empty id is refused before anything else, then
      the watch URL is resolved within 30 000 ms or the call fails with a timeout. */
  function GetHlsUrl(videoId: string, extractor: string -> ExtractorResponse): (r: Result<string, Exception>)
    ensures videoId == [] ==> r == Failure(IllegalArgumentException(Some(EMPTY_ID_MESSAGE)))
    ensures videoId != [] && extractor(WatchUrl(videoId)).Elapsed() >= HLS_TIMEOUT_MS ==>
      r == Failure(TimeoutCancellationException(Some(TimeoutMessage())))
    ensures videoId != [] && extractor(WatchUrl(videoId)).Elapsed() < HLS_TIMEOUT_MS ==>
      r == ReadHlsUrl(videoId, extractor(WatchUrl(videoId)))
  {
    if videoId == [] then Failure(IllegalArgumentException(Some(EMPTY_ID_MESSAGE)))
    else
      var response := extractor(WatchUrl(videoId));
      if response.Elapsed() >= HLS_TIMEOUT_MS then Failure(TimeoutCancellationException(Some(TimeoutMessage())))
      else ReadHlsUrl(videoId, response)
  }

  /** A resolved URL is the extractor's non-empty HLS URL for the watch URL of
      the id, delivered within the bound. */
  lemma {:induction false} GetHlsUrlSuccess(videoId: string, extractor: string -> ExtractorResponse)
    requires GetHlsUrl(videoId, extractor).Success?
    ensures videoId != []
    ensures var response := extractor(WatchUrl(videoId));
      && response.Elapsed() < HLS_TIMEOUT_MS
      && response == Extracted(Some(GetHlsUrl(videoId, extractor).value), response.elapsedMs)
      && GetHlsUrl(videoId, extractor).value != []
  {
  }

  // ---- the repository ----

  /** The repository, with its one-slot cache of the last successful list. */
  class StreamRepository {
    var cachedStreams: seq<LofiStream>
    /** Whether the last fetch answered from the cache because the backend failed. */
    var isUsingCache: bool

    constructor ()
      ensures cachedStreams == [] && !isUsingCache
    {
      cachedStreams := [];
      isUsingCache := false;
    }

    /** `fetchLiveStreams`: a successful page replaces the cache and is returned;
        a failure falls back to a non-empty cache, or propagates and changes nothing. */
    method FetchLiveStreams(page: ChannelPage) returns (r: Result<seq<LofiStream>, Exception>)
      modifies this
      ensures page.Page? ==>
        && r == Success(MapItems(page.items))
        && cachedStreams == MapItems(page.items) && !isUsingCache
      ensures page.PageFailed? && old(cachedStreams) != [] ==>
        && r == Success(old(cachedStreams))
        && cachedStreams == old(cachedStreams) && isUsingCache
      ensures page.PageFailed? && old(cachedStreams) == [] ==>
        && r == Failure(page.error)
        && cachedStreams == old(cachedStreams) && isUsingCache == old(isUsingCache)
    {
      match page
      case Page(items) =>
        var streams := MapItems(items);
        cachedStreams := streams;
        isUsingCache := false;
        r := Success(streams);
      case PageFailed(e) =>
        var cached := cachedStreams;
        if cached != [] {
          isUsingCache := true;
          r := Success(cached);
        } else {
          r := Failure(e);
        }
    }
  }

  /** A successful but empty page empties the cache, so a failure right after it
      propagates even though an earlier fetch had found streams. */
  method EmptyPageThenFailure(items: seq<InfoItem>, e: Exception) returns (first: Result<seq<LofiStream>, Exception>, last: Result<seq<LofiStream>, Exception>)
    ensures first == Success(MapItems(items))
    ensures last == Failure(e)
  {
    var repository := new StreamRepository();
    first := repository.FetchLiveStreams(Page(items));
    var emptied := repository.FetchLiveStreams(Page([]));
    last := repository.FetchLiveStreams(PageFailed(e));
  }

  /** After a page with streams, a failure returns that very list from the cache. */
  method PageThenFailure(items: seq<InfoItem>, e: Exception) returns (last: Result<seq<LofiStream>, Exception>, usedCache: bool)
    requires MapItems(items) != []
    ensures last == Success(MapItems(items)) && usedCache
  {
    var repository := new StreamRepository();
    var first := repository.FetchLiveStreams(Page(items));
    last := repository.FetchLiveStreams(PageFailed(e));
    usedCache := repository.isUsingCache;
  }
}
