/** The session view model (viewmodel/RadioViewModel.kt): the published state of
    the screen, the derived filtered and ranked list, catalog loading, stream
    selection with its single outstanding resolution, play/pause and the sleep
    timer. Suspension points are explicit: each coroutine the source launches is
    split at the place where it waits, and the caller chooses the interleaving. */
module ViewModel {
  import opened Wrappers
  import opened Strings
  import opened Decimal
  import opened FuzzyMatch
  import opened Data
  import opened Ranking

  datatype ErrorType = OFFLINE | STREAM_DOWN | EXTRACTION_ERROR

  datatype UiState =
    | Loading
    | Empty
    | Ready(streams: seq<LofiStream>)
    | Error(errorType: ErrorType, message: Option<string>)

  datatype SleepTimerState = SleepTimerState(isActive: bool, remainingMillis: int, selectedPresetMinutes: Option<int>)

  /** `SleepTimerState()`: inactive, nothing remaining, no preset. */
  const DEFAULT_TIMER: SleepTimerState := SleepTimerState(false, 0, None)

  /** What the view model hands to the player for one stream. */
  datatype MediaItem = MediaItem(uri: string, mimeType: string, title: string, artist: string, artworkUri: Option<string>)

  const APPLICATION_M3U8: string := "application/x-mpegURL"
  const ARTIST: string := "Lofi Girl"
  const SERVICE_NOT_READY: string := "Playback service not ready"
  const CONNECT_FAILED: string := "Failed to connect to playback service"

  /** The connected media controller's player: what it was told to play, and
      whether the engine reports it as playing. */
  datatype Player = Player(mediaItem: Option<MediaItem>, prepared: bool, playWhenReady: bool, isPlaying: bool) {
    /** `stop()`: the player drops its prepared media and stops. */
    function Stop(): Player {
      this.(prepared := false, isPlaying := false)
    }
  }

  // ---- filteredStreams ----

  /** A stream stays in the list: every stream for a blank query, otherwise those the query matches. */
  predicate Kept(query: string, s: LofiStream) {
    IsBlank(query) || Score(query, s.title) > 0
  }

  /** The sort key: viewers for a blank query, otherwise the relevance score. */
  function Key(query: string, s: LofiStream): int {
    if IsBlank(query) then s.viewerCount else Score(query, s.title)
  }

  function Entry(streams: seq<LofiStream>, query: string, k: nat): Ranked
    requires k < |streams|
  {
    Ranked(k, streams[k], Key(query, streams[k]))
  }

  /** The kept streams from position `from` on, decorated, in input order. */
  function Candidates(streams: seq<LofiStream>, query: string, from: nat): (r: seq<Ranked>)
    requires from <= |streams|
    ensures forall i :: 0 <= i < |r| ==>
      from <= r[i].pos < |streams| && r[i] == Entry(streams, query, r[i].pos) && Kept(query, streams[r[i].pos])
    ensures forall i, j :: 0 <= i < j < |r| ==> r[i].pos < r[j].pos
    ensures forall k :: from <= k < |streams| && Kept(query, streams[k]) ==> Entry(streams, query, k) in r
    decreases |streams| - from
  {
    if from == |streams| then []
    else
      var rest := Candidates(streams, query, from + 1);
      if Kept(query, streams[from]) then [Entry(streams, query, from)] + rest else rest
  }

  /** The kept streams in input order: the reference the filtered list is compared with. */
  function Matching(streams: seq<LofiStream>, query: string): seq<LofiStream> {
    if streams == [] then []
    else (if Kept(query, streams[0]) then [streams[0]] else []) + Matching(streams[1..], query)
  }

  /** The decorated list behind `filteredStreams`: exactly the kept streams, each
      once, ordered by key descending and, on equal keys, by input position. */
  function RankedStreams(streams: seq<LofiStream>, query: string): (r: seq<Ranked>)
    ensures StrictlySorted(r)
    ensures forall x :: x in r <==>
      x.pos < |streams| && Kept(query, streams[x.pos]) && x == Entry(streams, query, x.pos)
  {
    var c := Candidates(streams, query, 0);
    var r := SortDescending(c);
    assert forall x :: x in r <==> x in c by {
      forall x ensures x in r <==> x in c {
        assert x in r <==> x in multiset(r);
      }
    }
    r
  }

  /** `filteredStreams`, as a function of the stream list and the query. */
  function FilteredStreams(streams: seq<LofiStream>, query: string): (r: seq<LofiStream>)
    ensures multiset(r) == multiset(Matching(streams, query))
  {
    var c := Candidates(streams, query, 0);
    assert DistinctPositions(c);
    SortStreams(c);
    CandidatesStreams(streams, query, 0);
    assert streams[0..] == streams;
    Streams(RankedStreams(streams, query))
  }

  /** The undecorated candidates are the kept streams in input order. */
  lemma {:induction false} CandidatesStreams(streams: seq<LofiStream>, query: string, from: nat)
    requires from <= |streams|
    ensures Streams(Candidates(streams, query, from)) == Matching(streams[from..], query)
    decreases |streams| - from
  {
    if from < |streams| {
      var head := if Kept(query, streams[from]) then [Entry(streams, query, from)] else [];
      CandidatesStreams(streams, query, from + 1);
      StreamsAppend(head, Candidates(streams, query, from + 1));
      assert Streams(head) == if Kept(query, streams[from]) then [streams[from]] else [];
      MatchingFrom(streams, query, from);
    }
  }

  /** `Matching` on a suffix takes its first stream or not, then goes on. */
  lemma MatchingFrom(streams: seq<LofiStream>, query: string, from: nat)
    requires from < |streams|
    ensures Matching(streams[from..], query) ==
      (if Kept(query, streams[from]) then [streams[from]] else []) + Matching(streams[from + 1..], query)
  {
    var t := streams[from..];
    assert t[0] == streams[from] && t[1..] == streams[from + 1..];
  }

  /** A blank query keeps everything. */
  lemma {:induction false} MatchingBlank(streams: seq<LofiStream>, query: string)
    requires IsBlank(query)
    ensures Matching(streams, query) == streams
  {
    if streams != [] {
      MatchingBlank(streams[1..], query);
      assert [streams[0]] + streams[1..] == streams;
    }
  }

  /** The sort is stable: two listed streams with equal keys stand in the order of
      two input positions holding them. */
  lemma TiesKeepInputOrder(streams: seq<LofiStream>, query: string)
    ensures var r := FilteredStreams(streams, query);
      forall i, j :: 0 <= i < j < |r| && Key(query, r[i]) == Key(query, r[j]) ==>
        exists p, q :: 0 <= p < q < |streams| && streams[p] == r[i] && streams[q] == r[j]
  {
    var rs := RankedStreams(streams, query);
    var r := FilteredStreams(streams, query);
    forall i, j | 0 <= i < j < |r| && Key(query, r[i]) == Key(query, r[j])
      ensures exists p, q :: 0 <= p < q < |streams| && streams[p] == r[i] && streams[q] == r[j]
    {
      assert rs[i] in rs && rs[j] in rs;
      assert Before(rs[i], rs[j]);
      assert streams[rs[i].pos] == r[i] && streams[rs[j].pos] == r[j];
    }
  }

  /** Blank query: every stream, sorted by viewer count descending. */
  lemma {:induction false} FilteredBlankQuery(streams: seq<LofiStream>, query: string)
    requires IsBlank(query)
    ensures multiset(FilteredStreams(streams, query)) == multiset(streams)
    ensures var r := FilteredStreams(streams, query);
      forall i, j :: 0 <= i < j < |r| ==> r[i].viewerCount >= r[j].viewerCount
    ensures var r := FilteredStreams(streams, query);
      forall i, j :: 0 <= i < j < |r| && r[i].viewerCount == r[j].viewerCount ==>
        exists p, q :: 0 <= p < q < |streams| && streams[p] == r[i] && streams[q] == r[j]
  {
    TiesKeepInputOrder(streams, query);
    MatchingBlank(streams, query);
    var rs := RankedStreams(streams, query);
    forall i, j | 0 <= i < j < |rs| ensures rs[i].stream.viewerCount >= rs[j].stream.viewerCount {
      assert rs[i] in rs && rs[j] in rs;
      assert Before(rs[i], rs[j]);
    }
  }

  /** Non-blank query: exactly the streams whose title the query matches, sorted
      by relevance score descending. */
  lemma {:induction false} FilteredSearch(streams: seq<LofiStream>, query: string)
    requires !IsBlank(query)
    ensures multiset(FilteredStreams(streams, query)) == multiset(Matching(streams, query))
    ensures forall s :: s in FilteredStreams(streams, query) <==> s in streams && Score(query, s.title) > 0
    ensures var r := FilteredStreams(streams, query);
      forall i, j :: 0 <= i < j < |r| ==> Score(query, r[i].title) >= Score(query, r[j].title)
    ensures var r := FilteredStreams(streams, query);
      forall i, j :: 0 <= i < j < |r| && Score(query, r[i].title) == Score(query, r[j].title) ==>
        exists p, q :: 0 <= p < q < |streams| && streams[p] == r[i] && streams[q] == r[j]
  {
    TiesKeepInputOrder(streams, query);
    FilteredMembers(streams, query);
    var rs := RankedStreams(streams, query);
    forall i, j | 0 <= i < j < |rs| ensures Score(query, rs[i].stream.title) >= Score(query, rs[j].stream.title) {
      assert rs[i] in rs && rs[j] in rs;
      assert Before(rs[i], rs[j]);
    }
  }

  /** A non-blank query lists exactly the streams it scores positively. */
  lemma FilteredMembers(streams: seq<LofiStream>, query: string)
    requires !IsBlank(query)
    ensures forall s :: s in FilteredStreams(streams, query) <==> s in streams && Score(query, s.title) > 0
  {
    var rs := RankedStreams(streams, query);
    var r := FilteredStreams(streams, query);
    forall s ensures s in r <==> s in streams && Score(query, s.title) > 0 {
      if s in r {
        var i :| 0 <= i < |r| && r[i] == s;
        assert rs[i] in rs;
      }
      if s in streams && Score(query, s.title) > 0 {
        var k :| 0 <= k < |streams| && streams[k] == s;
        var x := Entry(streams, query, k);
        assert x in rs;
        var i :| 0 <= i < |rs| && rs[i] == x;
        assert r[i] == s;
      }
    }
  }

  // ---- loadStreams ----

  /** The screen state a finished catalog load publishes. */
  function LoadOutcome(result: Result<seq<LofiStream>, Exception>): (s: UiState)
    ensures result.Success? ==> (s == Empty <==> result.value == [])
    ensures result.Success? ==> (s.Ready? <==> result.value != []) && (s.Ready? ==> s.streams == result.value)
    ensures result.Failure? ==> s.Error? && (s.errorType == OFFLINE <==> result.error.IOException?)
    ensures result.Failure? && result.error.IOException? ==> s.message == None
    ensures result.Failure? && !result.error.IOException? ==> s == Error(EXTRACTION_ERROR, result.error.message)
  {
    match result
    case Success(streams) => if streams == [] then Empty else Ready(streams)
    case Failure(e) => if e.IOException? then Error(OFFLINE, None) else Error(EXTRACTION_ERROR, e.message)
  }

  // ---- playStream ----

  /** What a resolution job does once its resolution has returned. */
  datatype PlayDecision = Discard | ShowError(state: UiState) | StartPlayback(item: MediaItem)

  /** The media item handed to the player: the HLS URL with its MIME type, the
      stream's title, the channel as artist and the thumbnail as artwork. */
  function BuildMediaItem(stream: LofiStream, hlsUrl: string): (r: MediaItem)
    ensures r.uri == hlsUrl && r.mimeType == APPLICATION_M3U8
    ensures r.title == stream.title && r.artist == ARTIST && r.artworkUri == stream.thumbnailUrl
  {
    MediaItem(hlsUrl, APPLICATION_M3U8, stream.title, ARTIST, stream.thumbnailUrl)
  }

  /** The resolved-URL path of `playStream`: used only while the stream is still
      the current one, and only with a connected controller. */
  function DecideResolved(stream: LofiStream, current: Option<LofiStream>, controllerReady: bool, hlsUrl: string): (d: PlayDecision)
    ensures d.StartPlayback? <==> current.Some? && current.value.videoId == stream.videoId && controllerReady
    ensures d.StartPlayback? ==> d.item == BuildMediaItem(stream, hlsUrl)
    ensures (current.None? || current.value.videoId != stream.videoId) ==> d == Discard
    ensures current.Some? && current.value.videoId == stream.videoId && !controllerReady ==>
      d == ShowError(Error(EXTRACTION_ERROR, Some(SERVICE_NOT_READY)))
  {
    if current.None? || current.value.videoId != stream.videoId then Discard
    else if !controllerReady then ShowError(Error(EXTRACTION_ERROR, Some(SERVICE_NOT_READY)))
    else StartPlayback(BuildMediaItem(stream, hlsUrl))
  }

  /** `playStream`'s handling of a finished resolution as written: every
      `CancellationException` is rethrown, and a timeout is one. */
  function DecidePlayAsWritten(stream: LofiStream, current: Option<LofiStream>, controllerReady: bool, hls: Result<string, Exception>): (d: PlayDecision)
    ensures hls.Failure? && hls.error.IsCancellation() ==> d == Discard
    ensures hls.Failure? && !hls.error.IsCancellation() ==> d == ShowError(Error(STREAM_DOWN, hls.error.message))
    ensures hls.Success? ==> d == DecideResolved(stream, current, controllerReady, hls.value)
  {
    match hls
    case Success(url) => DecideResolved(stream, current, controllerReady, url)
    case Failure(e) => if e.IsCancellation() then Discard else ShowError(Error(STREAM_DOWN, e.message))
  }

  /** `playStream`'s handling of a finished resolution as intended: only the
      cancellation of the job itself is silent; every other failure, a timeout
      included, shows STREAM_DOWN, whichever stream is current by then. */
  function DecidePlay(stream: LofiStream, current: Option<LofiStream>, controllerReady: bool, hls: Result<string, Exception>): (d: PlayDecision)
    ensures d.StartPlayback? <==>
      hls.Success? && current.Some? && current.value.videoId == stream.videoId && controllerReady
    ensures hls.Failure? && hls.error.CancellationException? ==> d == Discard
    ensures hls.Failure? && !hls.error.CancellationException? ==> d == ShowError(Error(STREAM_DOWN, hls.error.message))
    ensures hls.Success? ==> d == DecideResolved(stream, current, controllerReady, hls.value)
  {
    match hls
    case Success(url) => DecideResolved(stream, current, controllerReady, url)
    case Failure(e) => if e.CancellationException? then Discard else ShowError(Error(STREAM_DOWN, e.message))
  }

  /** As written, a late answer is not bounded at all: an extractor that answers
      after 45 000 ms still has its URL played, once the stream is current and the
      controller is connected. */
  lemma LateAnswerPlaysAsWritten(stream: LofiStream)
    requires stream.videoId != []
    ensures var d := DecidePlayAsWritten(stream, Some(stream), true, GetHlsUrlAsWritten(stream.videoId, SlowExtractor));
      d == StartPlayback(BuildMediaItem(stream, "https://manifest.example/index.m3u8"))
  {
  }

  /** Once the 30-second bound is enforced (`GetHlsUrl`), the catch as written
      swallows the timeout, since a `TimeoutCancellationException` is a
      cancellation: the resolution ends silently. As intended it shows STREAM_DOWN
      with the timeout message. */
  lemma TimeoutSilentOnceBounded(stream: LofiStream, controllerReady: bool, extractor: string -> ExtractorResponse)
    requires stream.videoId != []
    requires extractor(WatchUrl(stream.videoId)).Elapsed() >= HLS_TIMEOUT_MS
    ensures DecidePlayAsWritten(stream, Some(stream), controllerReady, GetHlsUrl(stream.videoId, extractor)) == Discard
    ensures DecidePlay(stream, Some(stream), controllerReady, GetHlsUrl(stream.videoId, extractor))
      == ShowError(Error(STREAM_DOWN, Some(TimeoutMessage())))
  {
  }

  /** A launched resolution job: its number and the stream it resolves. */
  datatype PlayJob = PlayJob(id: nat, stream: LofiStream)

  // ---- the view model ----

  class RadioViewModel {
    var uiState: UiState
    var streams: seq<LofiStream>
    var searchQuery: string
    var currentStream: Option<LofiStream>
    var isPlaying: bool
    var sleepTimer: SleepTimerState
    /** `mediaController`: absent until the playback service is connected. */
    var controller: Option<Player>
    /** The number of the latest resolution job; launching a new one cancels the older. */
    var playStreamJob: nat
    /** The running tick loop of the sleep timer, by its deadline on the monotonic clock. */
    var sleepTimerJob: Option<int>
    const repository: StreamRepository
    /** The last reading of the monotonic clock the tick loop took. */
    ghost var clock: int

    /** The timer shows active exactly while its tick loop runs, and then shows the
        positive time left to the deadline at the last reading of the clock. */
    ghost predicate Valid()
      reads this
    {
      && (sleepTimerJob.None? ==> sleepTimer == DEFAULT_TIMER)
      && (sleepTimerJob.Some? ==>
            && sleepTimer.isActive
            && sleepTimer.selectedPresetMinutes.Some?
            && sleepTimer.remainingMillis == sleepTimerJob.value - clock
            && sleepTimer.remainingMillis > 0)
    }

    /** The derived list the screen shows. */
    function Filtered(): seq<LofiStream>
      reads this
    {
      FilteredStreams(streams, searchQuery)
    }

    /** A fresh view model, before its `init` block starts a catalog load. */
    constructor (repository: StreamRepository, ghost now: int)
      ensures Valid()
      ensures this.repository == repository && controller == None
      ensures uiState == Loading && streams == [] && searchQuery == [] && currentStream == None
      ensures !isPlaying && sleepTimer == DEFAULT_TIMER && sleepTimerJob == None && playStreamJob == 0
      ensures clock == now
    {
      this.repository := repository;
      controller := None;
      uiState := Loading;
      streams := [];
      searchQuery := [];
      currentStream := None;
      isPlaying := false;
      sleepTimer := DEFAULT_TIMER;
      playStreamJob := 0;
      sleepTimerJob := None;
      clock := now;
    }

    /** The controller future's listener: a connected controller is kept (from then
        on it reports `isPlaying`); a failed connection shows EXTRACTION_ERROR. */
    method OnControllerReady(connection: Result<Player, Exception>)
      modifies this
      ensures connection.Success? ==> controller == Some(connection.value) && uiState == old(uiState)
      ensures connection.Failure? ==>
        controller == old(controller) && uiState == Error(EXTRACTION_ERROR, Some(CONNECT_FAILED))
      ensures streams == old(streams) && currentStream == old(currentStream) && sleepTimer == old(sleepTimer)
      ensures searchQuery == old(searchQuery) && isPlaying == old(isPlaying)
      ensures sleepTimerJob == old(sleepTimerJob) && playStreamJob == old(playStreamJob) && clock == old(clock)
    {
      match connection
      case Success(p) =>
        controller := Some(p);
      case Failure(_) =>
        uiState := Error(EXTRACTION_ERROR, Some(CONNECT_FAILED));
    }

    /** `loadStreams` up to its fetch: the screen shows Loading. */
    method BeginLoad()
      modifies this
      ensures uiState == Loading
      ensures streams == old(streams) && currentStream == old(currentStream) && sleepTimer == old(sleepTimer)
      ensures searchQuery == old(searchQuery) && isPlaying == old(isPlaying) && controller == old(controller)
      ensures sleepTimerJob == old(sleepTimerJob) && playStreamJob == old(playStreamJob) && clock == old(clock)
    {
      uiState := Loading;
    }

    /** `loadStreams` after its fetch: a list (fresh or cached) replaces `streams` and
        shows Empty or Ready; a failure shows OFFLINE or EXTRACTION_ERROR and keeps `streams`. */
    method CompleteLoad(page: ChannelPage)
      requires Valid()
      modifies this, repository
      ensures Valid()
      ensures page.Page? ==>
        && streams == MapItems(page.items)
        && uiState == LoadOutcome(Success(MapItems(page.items)))
        && repository.cachedStreams == MapItems(page.items) && !repository.isUsingCache
      ensures page.PageFailed? && old(repository.cachedStreams) != [] ==>
        && streams == old(repository.cachedStreams)
        && uiState == Ready(old(repository.cachedStreams))
        && repository.cachedStreams == old(repository.cachedStreams) && repository.isUsingCache
      ensures page.PageFailed? && old(repository.cachedStreams) == [] ==>
        && streams == old(streams)
        && uiState == LoadOutcome(Failure(page.error))
        && repository.cachedStreams == [] && repository.isUsingCache == old(repository.isUsingCache)
      ensures currentStream == old(currentStream) && sleepTimer == old(sleepTimer) && searchQuery == old(searchQuery)
      ensures isPlaying == old(isPlaying) && controller == old(controller)
      ensures sleepTimerJob == old(sleepTimerJob) && playStreamJob == old(playStreamJob) && clock == old(clock)
    {
      var result := repository.FetchLiveStreams(page);
      if result.Success? {
        streams := result.value;
      }
      uiState := LoadOutcome(result);
    }

    /** `playStream` up to its resolution: the older job is cancelled, a new one is
        launched, and the chosen stream becomes current at once. */
    method BeginPlay(stream: LofiStream) returns (job: PlayJob)
      requires Valid()
      modifies this
      ensures Valid()
      ensures job == PlayJob(old(playStreamJob) + 1, stream) && playStreamJob == job.id
      ensures currentStream == Some(stream)
      ensures uiState == old(uiState) && streams == old(streams) && sleepTimer == old(sleepTimer)
      ensures searchQuery == old(searchQuery) && isPlaying == old(isPlaying) && controller == old(controller)
      ensures sleepTimerJob == old(sleepTimerJob) && clock == old(clock)
    {
      playStreamJob := playStreamJob + 1;
      job := PlayJob(playStreamJob, stream);
      currentStream := Some(stream);
    }

    /** `playStream` after its resolution returned. A job that was cancelled in the
        meantime sees a `CancellationException` (`withContext` discards the result of
        a cancelled caller). Otherwise the URL is handed to the player if the stream
        is still current and the controller connected; failures show an error. */
    method CompletePlay(job: PlayJob, extractor: string -> ExtractorResponse)
      requires Valid()
      requires 1 <= job.id <= playStreamJob
      modifies this
      ensures Valid()
      ensures var hls := if job.id == old(playStreamJob) then GetHlsUrl(job.stream.videoId, extractor)
                         else Failure(CancellationException(None));
        var d := DecidePlay(job.stream, old(currentStream), old(controller).Some?, hls);
        && (d == Discard ==> uiState == old(uiState) && controller == old(controller))
        && (d.ShowError? ==> uiState == d.state && controller == old(controller))
        && (d.StartPlayback? ==>
              && uiState == old(uiState)
              && controller == Some(old(controller).value.(mediaItem := Some(d.item), prepared := true, playWhenReady := true)))
      ensures currentStream == old(currentStream) && streams == old(streams) && sleepTimer == old(sleepTimer)
      ensures searchQuery == old(searchQuery) && isPlaying == old(isPlaying)
      ensures playStreamJob == old(playStreamJob) && sleepTimerJob == old(sleepTimerJob) && clock == old(clock)
    {
      var hls := if job.id == playStreamJob then GetHlsUrl(job.stream.videoId, extractor)
                 else Failure(CancellationException(None));
      var d := DecidePlay(job.stream, currentStream, controller.Some?, hls);
      match d
      case Discard =>
      case ShowError(state) =>
        uiState := state;
      case StartPlayback(item) =>
        var p := controller.value;
        p := p.(mediaItem := Some(item));
        p := p.(prepared := true);
        p := p.(playWhenReady := true);
        controller := Some(p);
    }

    /** `togglePlayPause`: pause when the player reports playing, play otherwise;
        nothing without a controller. */
    method TogglePlayPause()
      modifies this
      ensures old(controller).None? ==> controller == None
      ensures old(controller).Some? ==>
        controller == Some(old(controller).value.(playWhenReady := !old(controller).value.isPlaying))
      ensures uiState == old(uiState) && streams == old(streams) && currentStream == old(currentStream)
      ensures sleepTimer == old(sleepTimer) && searchQuery == old(searchQuery) && isPlaying == old(isPlaying)
      ensures playStreamJob == old(playStreamJob) && sleepTimerJob == old(sleepTimerJob) && clock == old(clock)
    {
      match controller
      case None =>
      case Some(p) =>
        if p.isPlaying {
          controller := Some(p.(playWhenReady := false));
        } else {
          controller := Some(p.(playWhenReady := true));
        }
    }

    /** The player listener's `onIsPlayingChanged`: the engine's report is published. */
    method OnIsPlayingChanged(playing: bool)
      requires controller.Some?
      modifies this
      ensures isPlaying == playing && controller == Some(old(controller).value.(isPlaying := playing))
      ensures uiState == old(uiState) && streams == old(streams) && currentStream == old(currentStream)
      ensures sleepTimer == old(sleepTimer) && searchQuery == old(searchQuery)
      ensures playStreamJob == old(playStreamJob) && sleepTimerJob == old(sleepTimerJob) && clock == old(clock)
    {
      controller := Some(controller.value.(isPlaying := playing));
      isPlaying := playing;
    }

    /** `updateSearchQuery`: the query is stored and the shown list follows it. */
    method UpdateSearchQuery(query: string)
      modifies this
      ensures searchQuery == query && Filtered() == FilteredStreams(streams, query)
      ensures uiState == old(uiState) && streams == old(streams) && currentStream == old(currentStream)
      ensures sleepTimer == old(sleepTimer) && isPlaying == old(isPlaying) && controller == old(controller)
      ensures playStreamJob == old(playStreamJob) && sleepTimerJob == old(sleepTimerJob) && clock == old(clock)
    {
      searchQuery := query;
    }

    /** Timer expiry: the player is stopped, playing is cleared, the timer is reset
        and its loop ends. */
    method Expire()
      modifies this
      ensures Valid()
      ensures controller == (if old(controller).Some? then Some(old(controller).value.Stop()) else None)
      ensures !isPlaying && sleepTimer == DEFAULT_TIMER && sleepTimerJob == None
      ensures uiState == old(uiState) && streams == old(streams) && currentStream == old(currentStream)
      ensures searchQuery == old(searchQuery) && playStreamJob == old(playStreamJob) && clock == old(clock)
    {
      if controller.Some? {
        controller := Some(controller.value.Stop());
      }
      isPlaying := false;
      sleepTimer := DEFAULT_TIMER;
      sleepTimerJob := None;
    }

    /** One pass of the tick loop at monotonic time `now`: while the deadline is
        ahead the time left is published, which never grows; once it is reached
        the timer expires. Without a running loop nothing happens. */
    method Tick(now: int)
      requires Valid() && now >= clock
      modifies this
      ensures Valid()
      ensures old(sleepTimerJob).None? ==>
        && sleepTimer == old(sleepTimer) && controller == old(controller) && isPlaying == old(isPlaying)
        && sleepTimerJob == None
      ensures old(sleepTimerJob).Some? && old(sleepTimerJob).value - now > 0 ==>
        && sleepTimer == old(sleepTimer).(remainingMillis := old(sleepTimerJob).value - now)
        && sleepTimer.remainingMillis <= old(sleepTimer).remainingMillis
        && sleepTimerJob == old(sleepTimerJob) && controller == old(controller) && isPlaying == old(isPlaying)
      ensures old(sleepTimerJob).Some? && old(sleepTimerJob).value - now <= 0 ==>
        && controller == (if old(controller).Some? then Some(old(controller).value.Stop()) else None)
        && !isPlaying && sleepTimer == DEFAULT_TIMER && sleepTimerJob == None
      ensures uiState == old(uiState) && streams == old(streams) && currentStream == old(currentStream)
      ensures searchQuery == old(searchQuery) && playStreamJob == old(playStreamJob)
    {
      match sleepTimerJob
      case None =>
      case Some(endTime) =>
        var remaining := endTime - now;
        clock := now;
        if remaining <= 0 {
          Expire();
        } else {
          sleepTimer := sleepTimer.(remainingMillis := remaining);
        }
    }

    /** `startSleepTimer(minutes)` at monotonic time `now`: any running loop is
        cancelled, the timer shows `minutes` minutes left with that preset, and the
        new loop makes its first pass at once (so a non-positive duration expires
        immediately). */
    method StartSleepTimer(minutes: int, now: int)
      requires Valid() && now >= clock
      requires IsInt32(minutes)
      modifies this
      ensures Valid()
      ensures minutes > 0 ==>
        && sleepTimer == SleepTimerState(true, minutes * 60_000, Some(minutes))
        && sleepTimerJob == Some(now + minutes * 60_000)
        && controller == old(controller) && isPlaying == old(isPlaying)
      ensures minutes <= 0 ==>
        && controller == (if old(controller).Some? then Some(old(controller).value.Stop()) else None)
        && !isPlaying && sleepTimer == DEFAULT_TIMER && sleepTimerJob == None
      ensures uiState == old(uiState) && streams == old(streams) && currentStream == old(currentStream)
      ensures searchQuery == old(searchQuery) && playStreamJob == old(playStreamJob)
    {
      var durationMillis := minutes * 60_000;
      sleepTimer := SleepTimerState(true, durationMillis, Some(minutes));
      var endTime := now + durationMillis;
      sleepTimerJob := Some(endTime);
      // the launched loop's first pass, before its first delay
      var remaining := endTime - now;
      clock := now;
      if remaining <= 0 {
        Expire();
      } else {
        sleepTimer := sleepTimer.(remainingMillis := remaining);
      }
    }

    /** `cancelSleepTimer`: the loop is cancelled and the timer reset; playback is untouched. */
    method CancelSleepTimer()
      requires Valid()
      modifies this
      ensures Valid()
      ensures sleepTimer == DEFAULT_TIMER && sleepTimerJob == None
      ensures isPlaying == old(isPlaying) && currentStream == old(currentStream) && controller == old(controller)
      ensures uiState == old(uiState) && streams == old(streams) && searchQuery == old(searchQuery)
      ensures playStreamJob == old(playStreamJob) && clock == old(clock)
    {
      sleepTimerJob := None;
      sleepTimer := DEFAULT_TIMER;
    }
  }

  /** Selecting B while A is still resolving: A's late answer, whatever it is, leaves
      the screen and the player as they were, and B stays selected. */
  method SupersededResolution(a: LofiStream, b: LofiStream, player: Option<Player>, extractor: string -> ExtractorResponse)
    returns (selection: Option<LofiStream>, screen: UiState, after: Option<Player>)
    ensures selection == Some(b) && screen == Loading && after == player
  {
    var repository := new StreamRepository();
    var vm := new RadioViewModel(repository, 0);
    if player.Some? {
      vm.OnControllerReady(Success(player.value));
    }
    var jobA := vm.BeginPlay(a);
    var jobB := vm.BeginPlay(b);
    vm.CompletePlay(jobA, extractor);
    selection, screen, after := vm.currentStream, vm.uiState, vm.controller;
  }

  /** A successful load followed by a failed one: the second load shows the list
      the first one cached, and the repository reports that it is using its cache. */
  method ReloadFromCache(items: seq<InfoItem>, error: Exception)
    returns (shown: seq<LofiStream>, screen: UiState, usingCache: bool)
    ensures MapItems(items) != [] ==> shown == MapItems(items) && screen == Ready(MapItems(items)) && usingCache
    ensures MapItems(items) == [] ==> shown == [] && screen == LoadOutcome(Failure(error)) && !usingCache
  {
    var repository := new StreamRepository();
    var vm := new RadioViewModel(repository, 0);
    vm.BeginLoad();
    vm.CompleteLoad(Page(items));
    vm.BeginLoad();
    vm.CompleteLoad(PageFailed(error));
    shown, screen, usingCache := vm.streams, vm.uiState, repository.isUsingCache;
  }
}
