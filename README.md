# Lofi Girl Radio: a verified model of the player's core

Lofi Girl Radio is an Android app. It lists the live streams of the Lofi Girl
YouTube channel, plays one of them as an HLS audio stream, lets the listener
search the list by a fuzzy title match, and stops playback after a sleep timer
runs out. This project models in Dafny the logic the app's behaviour rests on,
and proves properties of that logic:

- the fuzzy relevance score;
- the countdown text;
- the stream catalog: the mapping of channel items to streams, the video-id
  extraction, the one-slot cache and the resolution of a stream to its HLS URL;
- the session view model: loading, the filtered and ranked list, stream
  selection with one outstanding resolution, play/pause and the sleep timer;
- the sleep-timer sheet: the duration until a wall-clock time, the preview
  text, the clamped steppers, the presets and the custom duration;
- the version code that the build script derives from the version name.

Modules, one per file:

| module | file | models |
|---|---|---|
| `Wrappers` | wrappers.dfy | `Option` and `Result` |
| `Strings` | strings.dfy | Kotlin `indexOf`, `substringBefore`, `substringAfter`, `substringAfterLast`, `split`, `isBlank`, `lowercase` |
| `Decimal` | decimal.dfy | `%d`, `%02d` and `String.toInt` |
| `FuzzyMatch` | fuzzy_match.dfy | util/FuzzyMatch.kt |
| `FormatTimer` | format_timer.dfy | util/FormatTimer.kt |
| `Data` | data.dfy | data/LofiStream.kt, data/StreamRepository.kt |
| `Ranking` | ranking.dfy | the stable `sortedByDescending` the view model uses |
| `ViewModel` | view_model.dfy | viewmodel/RadioViewModel.kt |
| `SleepTimerSheet` | sleep_timer_sheet.dfy | ui/SleepTimerSheet.kt |
| `VersionCode` | version_code.dfy | the `versionCode` expression of app/build.gradle.kts |

Each source file keeps its own form:

- `fuzzyMatchScore` is a method with the source's `for` loop. It is proved
  against a reference function, `Score`, which folds one step of the loop over
  the target.
- `formatTimer`, the build script's expression, the preview and the stepper
  arithmetic are functions.
- The repository, the view model and the sheet's remembered drafts are classes.
  Their methods assign the fields the source updates.
- `durationUntilTime` is a method, because the source reassigns a variable in it.

The suspension points of the view model's coroutines are made explicit. The
view model's scope runs a launched body without delay, up to its first
suspension. So each launched job becomes a pair of methods: one for the part
before the wait, and one for the part after the answer arrives. Where the job
does not wait before its first action, that action happens in the first method:
`StartSleepTimer` includes the first tick.

The outside world enters as parameters:

- the extraction backend's channel page (`ChannelPage`);
- its answer to a watch URL (`ExtractorResponse`), which includes how long the
  extractor took;
- the connected media controller (`Player`);
- the monotonic clock's readings, given to `Tick` and `StartSleepTimer`;
- the local time of day, given to the sheet's at-time methods.

Where the source throws, the model returns a `Result`, with a datatype of the
exception classes involved.

## Model

| member | source | states |
|---|---|---|
| FuzzyMatch.Score | app/src/main/java/com/vdustr/lofiradio/util/FuzzyMatch.kt:12-38 | The score is never negative. A non-blank query contained in the title, after lower-casing, scores above 1000 and at most 1000 plus the title length. |
| FuzzyMatch.FuzzyMatchScore | app/src/main/java/com/vdustr/lofiradio/util/FuzzyMatch.kt:12-38 | The score is the reference `Score` and is never negative. A blank query scores 1. A non-blank query scores above 0 exactly when its lower-cased text is a subsequence of the lower-cased title. |
| FuzzyMatch.ScorePositiveIffSubsequence | app/src/main/java/com/vdustr/lofiradio/util/FuzzyMatch.kt:18-37 | A non-blank query has a positive score if and only if it is a subsequence of the title, after lower-casing. |
| FuzzyMatch.WalkDecidesSubsequence | app/src/main/java/com/vdustr/lofiradio/util/FuzzyMatch.kt:24-37 | The greedy character walk matches the whole query exactly when the query is a subsequence of the title. |
| FuzzyMatch.GreedySound | app/src/main/java/com/vdustr/lofiradio/util/FuzzyMatch.kt:27-35 | The characters the walk matched in its first n steps form an embedding of that prefix of the query, at positions below n. |
| FuzzyMatch.GreedyComplete | app/src/main/java/com/vdustr/lofiradio/util/FuzzyMatch.kt:27-35 | Whenever some prefix of the query embeds in the first n characters, the walk matches at least that much of the query by step n. |
| FuzzyMatch.WalkBounds | app/src/main/java/com/vdustr/lofiradio/util/FuzzyMatch.kt:27-35 | The walk never matches more than the query's length or the steps taken. The streak never exceeds the matches. The score is at least the number of matches. |
| FuzzyMatch.WalkNeverDecreases | app/src/main/java/com/vdustr/lofiradio/util/FuzzyMatch.kt:27-35 | Later steps of the walk never lower the score or the match count. |
| FuzzyMatch.BlankScoresOne | app/src/main/java/com/vdustr/lofiradio/util/FuzzyMatch.kt:13 | A blank query scores 1 against every title. |
| FuzzyMatch.SubstringScore | app/src/main/java/com/vdustr/lofiradio/util/FuzzyMatch.kt:18-21 | A query contained in the title scores 1000 plus the title length minus the first match position. That is at least 1001. |
| FuzzyMatch.EarlierSubstringScoresHigher | app/src/main/java/com/vdustr/lofiradio/util/FuzzyMatch.kt:19 | Between titles of equal length, the one containing the query earlier scores higher. |
| FuzzyMatch.ScoreIgnoresCase | app/src/main/java/com/vdustr/lofiradio/util/FuzzyMatch.kt:14-15 | The score depends only on the lower-cased query and title. |
| FuzzyMatch.EmptyTargetScoresZero | app/src/main/java/com/vdustr/lofiradio/util/FuzzyMatch.kt:18-37 | A non-blank query scores 0 against an empty title. |
| FormatTimer.Split | app/src/main/java/com/vdustr/lofiradio/util/FormatTimer.kt:6-9 | Minutes and seconds are below 60. Hours, minutes and seconds add back up to the whole seconds in the duration. |
| FormatTimer.FormatTimerFields | app/src/main/java/com/vdustr/lofiradio/util/FormatTimer.kt:5-12 | With hours, the text is the unpadded hours, the two-digit minutes and the two-digit seconds, separated by ':'. Without hours, it is the unpadded minutes and the two-digit seconds. |
| FormatTimer.FormatTimer | app/src/main/java/com/vdustr/lofiradio/util/FormatTimer.kt:5-12 | Reading the text back gives exactly the whole seconds of the duration, so the text truncates and loses nothing else. |
| FormatTimer.ShowRoundTrip | app/src/main/java/com/vdustr/lofiradio/util/FormatTimer.kt:10-11 | Reading a countdown text back counts its hours, minutes and seconds. |
| FormatTimer.MinutesUnpaddedBelowAnHour | app/src/main/java/com/vdustr/lofiradio/util/FormatTimer.kt:11 | Under an hour the text has two fields. The minutes have no leading zero and the seconds have two digits. |
| Decimal.ParseIntOfDecimal | app/build.gradle.kts:17 | `toInt` reads back the decimal text of every non-negative `Int`. |
| Decimal.ParseIntShape | app/build.gradle.kts:17 | `toInt` accepts only an optional sign followed by digits. |
| Data.ExtractVideoId | app/src/main/java/com/vdustr/lofiradio/data/StreamRepository.kt:79-85 | A non-empty "v=" value is the id and holds no '&'. Otherwise the id is the last path segment before any '?', and holds neither '/' nor '?'. |
| Data.WatchUrl | app/src/main/java/com/vdustr/lofiradio/data/StreamRepository.kt:65 | The first "v=" of the watch URL ends its fixed prefix, and the text after it is exactly the video id. |
| Data.ExtractVideoIdOfWatchUrl | app/src/main/java/com/vdustr/lofiradio/data/StreamRepository.kt:79-85 | A video id without '&' is read back from its watch URL, whatever '&' parameters follow. |
| Data.PathUrlExample | app/src/main/java/com/vdustr/lofiradio/data/StreamRepository.kt:79-85 | A URL with no "v=" parameter, ".../live/abc?t=1", gives its last path segment without the query, "abc". |
| Data.ToStream | app/src/main/java/com/vdustr/lofiradio/data/StreamRepository.kt:33-45 | An item becomes a stream exactly when it is a live stream item with a non-empty id. The stream carries the item's name, id, first thumbnail and viewer count. |
| Data.MapItems | app/src/main/java/com/vdustr/lofiradio/data/StreamRepository.kt:33-45 | The list is never longer than the page. |
| Data.MapItemsAppend | app/src/main/java/com/vdustr/lofiradio/data/StreamRepository.kt:33-45 | Mapping works item by item and keeps the page's order. |
| Data.MapItemsMembers | app/src/main/java/com/vdustr/lofiradio/data/StreamRepository.kt:33-45 | A stream is listed exactly when some item maps to it. Every listed stream has a non-empty id. |
| Data.ReadHlsUrl | app/src/main/java/com/vdustr/lofiradio/data/StreamRepository.kt:69-75 | The answer succeeds exactly when it is a non-empty HLS URL. A missing or empty URL is an IllegalStateException. The extractor's own failure passes through. |
| Data.GetHlsUrlAsWritten | app/src/main/java/com/vdustr/lofiradio/data/StreamRepository.kt:61-77 | As written: an empty id is an IllegalArgumentException, raised before anything else. Otherwise the extractor's answer is returned however late it is. |
| Data.LateAnswerReturnedAsWritten | app/src/main/java/com/vdustr/lofiradio/data/StreamRepository.kt:63-76 | As written: an answer after 45 000 ms is still returned as a success. |
| Data.GetHlsUrl | app/src/main/java/com/vdustr/lofiradio/data/StreamRepository.kt:61-77 | As intended: an empty id is refused first. An answer taking 30 000 ms or more is a TimeoutCancellationException. Any other answer is read as above. |
| Data.GetHlsUrlSuccess | app/src/main/java/com/vdustr/lofiradio/data/StreamRepository.kt:61-77 | A resolved URL is the extractor's non-empty HLS URL for the id's watch URL, delivered within the bound. |
| Data.StreamRepository.constructor | app/src/main/java/com/vdustr/lofiradio/data/StreamRepository.kt:10-21 | A new repository has an empty cache and is not using it. |
| Data.StreamRepository.FetchLiveStreams | app/src/main/java/com/vdustr/lofiradio/data/StreamRepository.kt:23-59 | A page replaces the cache, clears the cache flag and is returned. A failure with a non-empty cache returns the cache and sets the flag. A failure with an empty cache propagates and changes nothing. |
| Data.EmptyPageThenFailure | app/src/main/java/com/vdustr/lofiradio/data/StreamRepository.kt:47-57 | An empty successful page also replaces the cache, so a later failure propagates even after streams were once found. |
| Data.PageThenFailure | app/src/main/java/com/vdustr/lofiradio/data/StreamRepository.kt:47-57 | After a page with streams, a failure returns that same list from the cache and sets the cache flag. |
| Ranking.Insert | app/src/main/java/com/vdustr/lofiradio/viewmodel/RadioViewModel.kt:65-70 | Insertion keeps the list ordered by key descending, then by input position, and adds exactly the inserted element. |
| Ranking.SortDescending | app/src/main/java/com/vdustr/lofiradio/viewmodel/RadioViewModel.kt:65-70 | `sortedByDescending` is a permutation, ordered by key descending and by input position among equal keys, so it is stable. |
| Ranking.SortStreams | app/src/main/java/com/vdustr/lofiradio/viewmodel/RadioViewModel.kt:65-70 | The sorted streams are the input streams, as a multiset. |
| ViewModel.FilteredStreams | app/src/main/java/com/vdustr/lofiradio/viewmodel/RadioViewModel.kt:60-72 | The filtered list holds exactly the kept streams, each as often as in the input: the blank query keeps all, and a search keeps the positive scores. |
| ViewModel.RankedStreams | app/src/main/java/com/vdustr/lofiradio/viewmodel/RadioViewModel.kt:60-72 | The ranked list holds each kept stream exactly once with its key. It is in strict key-then-position order. |
| ViewModel.CandidatesStreams | app/src/main/java/com/vdustr/lofiradio/viewmodel/RadioViewModel.kt:67-70 | The `mapNotNull` pass keeps exactly the matching streams, in input order. |
| ViewModel.FilteredBlankQuery | app/src/main/java/com/vdustr/lofiradio/viewmodel/RadioViewModel.kt:64-65 | For a blank query, `filteredStreams` is a permutation of all streams, by viewer count descending; two streams with equal viewer counts keep their input order. |
| ViewModel.FilteredSearch | app/src/main/java/com/vdustr/lofiradio/viewmodel/RadioViewModel.kt:66-71 | For a non-blank query, `filteredStreams` holds exactly the streams with a positive score, each as often as in the input, by score descending; two streams with equal scores keep their input order. |
| ViewModel.TiesKeepInputOrder | app/src/main/java/com/vdustr/lofiradio/viewmodel/RadioViewModel.kt:64-70 | `sortedByDescending` is stable: two listed streams with equal sort keys stand in the order of two input positions that hold them. |
| ViewModel.LoadOutcome | app/src/main/java/com/vdustr/lofiradio/viewmodel/RadioViewModel.kt:145-153 | An empty list shows Empty and any other list shows Ready with it. An IOException shows OFFLINE with no message. Any other exception shows EXTRACTION_ERROR with its message. |
| ViewModel.DecidePlayAsWritten | app/src/main/java/com/vdustr/lofiradio/viewmodel/RadioViewModel.kt:161-188 | As written: every cancellation, including a timeout, is dropped silently. Other failures show STREAM_DOWN with their message. A URL is handled as in `DecideResolved`. |
| ViewModel.DecidePlay | app/src/main/java/com/vdustr/lofiradio/viewmodel/RadioViewModel.kt:161-188 | As intended: only the job's own cancellation is silent. A timeout shows STREAM_DOWN. Playback starts exactly when the URL arrived, the stream is still current and the controller is connected. |
| ViewModel.BuildMediaItem | app/src/main/java/com/vdustr/lofiradio/viewmodel/RadioViewModel.kt:165-175 | The player gets the HLS URL with the HLS MIME type, the stream's title, "Lofi Girl" as artist and the stream's thumbnail, if any, as artwork. |
| ViewModel.DecideResolved | app/src/main/java/com/vdustr/lofiradio/viewmodel/RadioViewModel.kt:164-183 | A URL for a stream that is no longer current is dropped. Without a controller the screen shows "Playback service not ready". Otherwise the player gets the HLS media item. |
| ViewModel.LateAnswerPlaysAsWritten | app/src/main/java/com/vdustr/lofiradio/data/StreamRepository.kt:63-76 | As written, an answer that arrives after 45 000 ms is still played: the current stream with a connected controller gets its media item. |
| ViewModel.TimeoutSilentOnceBounded | app/src/main/java/com/vdustr/lofiradio/viewmodel/RadioViewModel.kt:184-188 | Once the 30-second bound is enforced, the catch as written drops a timed-out resolution silently. As intended it shows STREAM_DOWN with the timeout message. |
| ViewModel.RadioViewModel.constructor | app/src/main/java/com/vdustr/lofiradio/viewmodel/RadioViewModel.kt:50-109 | Every flow starts at its initial value: Loading, no streams, an empty query, nothing current or playing, the default timer, and no controller until one connects. |
| ViewModel.RadioViewModel.OnControllerReady | app/src/main/java/com/vdustr/lofiradio/viewmodel/RadioViewModel.kt:125-136 | A connected controller is kept. A failed connection shows EXTRACTION_ERROR "Failed to connect to playback service". |
| ViewModel.RadioViewModel.BeginLoad | app/src/main/java/com/vdustr/lofiradio/viewmodel/RadioViewModel.kt:141-143 | Loading is shown before the fetch and nothing else changes. |
| ViewModel.RadioViewModel.CompleteLoad | app/src/main/java/com/vdustr/lofiradio/viewmodel/RadioViewModel.kt:144-154 | A fetched or cached list replaces the streams and shows Empty or Ready. A failure keeps the streams and shows its error. The repository's cache and cache flag change as `FetchLiveStreams` says. |
| ViewModel.RadioViewModel.BeginPlay | app/src/main/java/com/vdustr/lofiradio/viewmodel/RadioViewModel.kt:157-160 | The older job is cancelled and a new job is numbered. The stream becomes current at once. |
| ViewModel.RadioViewModel.CompletePlay | app/src/main/java/com/vdustr/lofiradio/viewmodel/RadioViewModel.kt:161-189 | A superseded job sees a cancellation. A live job resolves the id and acts on `DecidePlay`: it leaves everything, shows the error, or hands the item to the controller and prepares and plays it. |
| ViewModel.SupersededResolution | app/src/main/java/com/vdustr/lofiradio/viewmodel/RadioViewModel.kt:157-164 | Selecting B while A resolves: A's late answer leaves the screen and the player untouched, and B stays current. |
| ViewModel.ReloadFromCache | app/src/main/java/com/vdustr/lofiradio/viewmodel/RadioViewModel.kt:141-154 | A load of a page with streams followed by a failed load shows the same list again, and the repository reports that it uses its cache. A page with no streams leaves the failure to show. |
| ViewModel.RadioViewModel.TogglePlayPause | app/src/main/java/com/vdustr/lofiradio/viewmodel/RadioViewModel.kt:192-197 | A playing controller is paused and any other is told to play. Nothing happens without a controller. |
| ViewModel.RadioViewModel.OnIsPlayingChanged | app/src/main/java/com/vdustr/lofiradio/viewmodel/RadioViewModel.kt:128-131 | The engine's report is published as `isPlaying`. |
| ViewModel.RadioViewModel.UpdateSearchQuery | app/src/main/java/com/vdustr/lofiradio/viewmodel/RadioViewModel.kt:199-201 | The query is stored, and the shown list becomes the filtered list for it. |
| ViewModel.RadioViewModel.StartSleepTimer | app/src/main/java/com/vdustr/lofiradio/viewmodel/RadioViewModel.kt:215-236 | Any running timer is replaced. For a positive duration the timer is active with minutes × 60 000 left, that preset, and a deadline that far ahead. A non-positive duration expires at once. |
| ViewModel.RadioViewModel.Tick | app/src/main/java/com/vdustr/lofiradio/viewmodel/RadioViewModel.kt:225-235 | While the deadline is ahead, the time left is published and never grows. At the deadline the controller is stopped, `isPlaying` is cleared and the timer reset. The timer invariant is kept. |
| ViewModel.RadioViewModel.Expire | app/src/main/java/com/vdustr/lofiradio/viewmodel/RadioViewModel.kt:231-234 | Expiry stops the player, clears `isPlaying` and resets the timer. |
| ViewModel.RadioViewModel.CancelSleepTimer | app/src/main/java/com/vdustr/lofiradio/viewmodel/RadioViewModel.kt:238-242 | The timer is reset and its loop ends. Playback, the current stream and the screen are untouched. |
| SleepTimerSheet.DurationUntilTime | app/src/main/java/com/vdustr/lofiradio/ui/SleepTimerSheet.kt:447-455 | The result is the least strictly positive wait that ends at the target time of day, so it is at most a day. It is exactly a day when the target is now. "(tomorrow)" holds exactly when the wait crosses midnight. |
| SleepTimerSheet.MidnightExample | app/src/main/java/com/vdustr/lofiradio/ui/SleepTimerSheet.kt:447-455 | At 23:50 an 00:10 target is 1 200 000 ms away, tomorrow. |
| SleepTimerSheet.FormatDurationPreview | app/src/main/java/com/vdustr/lofiradio/ui/SleepTimerSheet.kt:457-466 | Reading the preview back gives exactly the whole minutes of the duration. |
| SleepTimerSheet.PreviewOfRoundTrip | app/src/main/java/com/vdustr/lofiradio/ui/SleepTimerSheet.kt:461-465 | Each of the three preview forms reads back as its hours times 60 plus its minutes. |
| SleepTimerSheet.PreviewShapes | app/src/main/java/com/vdustr/lofiradio/ui/SleepTimerSheet.kt:457-466 | The preview is "~Hh Mm" when hours and minutes are both positive. It is "~Hh" for whole hours and "~Mm" under an hour. |
| SleepTimerSheet.PreviewUnderAMinute | app/src/main/java/com/vdustr/lofiradio/ui/SleepTimerSheet.kt:464 | Less than a minute previews as "~0m". |
| SleepTimerSheet.PreviewNinetyMinutes | app/src/main/java/com/vdustr/lofiradio/ui/SleepTimerSheet.kt:462 | Ninety minutes preview as "~1h 30m". |
| SleepTimerSheet.CoerceIn | app/src/main/java/com/vdustr/lofiradio/ui/SleepTimerSheet.kt:406-435 | `coerceIn` always lands in the range. It keeps a value already in the range and clamps the others to the nearer end. |
| SleepTimerSheet.StepperClick | app/src/main/java/com/vdustr/lofiradio/ui/SleepTimerSheet.kt:405-443 | Up is enabled exactly below the top of the range, and down exactly above its bottom. An enabled click moves an in-range value by one and stays in range. |
| SleepTimerSheet.ClicksStayInRange | app/src/main/java/com/vdustr/lofiradio/ui/SleepTimerSheet.kt:405-443 | Whatever the clicks, a stepper that starts in its range stays there. |
| SleepTimerSheet.ClicksUp | app/src/main/java/com/vdustr/lofiradio/ui/SleepTimerSheet.kt:406-407 | n clicks up rise by n, until the top of the range stops them. |
| SleepTimerSheet.PresetsInRange | app/src/main/java/com/vdustr/lofiradio/ui/SleepTimerSheet.kt:65-70 | Every preset starts between 15 and 120 minutes. |
| SleepTimerSheet.PresetCaptions | app/src/main/java/com/vdustr/lofiradio/ui/SleepTimerSheet.kt:65-70 | The preview of each preset's duration is its chip caption with a leading '~'. |
| SleepTimerSheet.CustomDuration | app/src/main/java/com/vdustr/lofiradio/ui/SleepTimerSheet.kt:188 | The custom duration is under a day. It is at least a minute exactly when hours or minutes are positive, and the hours and minutes can be read back from it. |
| SleepTimerSheet.CustomDurationInjective | app/src/main/java/com/vdustr/lofiradio/ui/SleepTimerSheet.kt:188 | Different custom settings give different durations. |
| SleepTimerSheet.SleepTimerSheetState.constructor | app/src/main/java/com/vdustr/lofiradio/ui/SleepTimerSheet.kt:100-104 | A new sheet is in duration mode with 0 h 30 m drafted and the current hour as the on-the-hour target. |
| SleepTimerSheet.SleepTimerSheetState.SelectMode | app/src/main/java/com/vdustr/lofiradio/ui/SleepTimerSheet.kt:152-167 | The mode changes and the drafts do not. |
| SleepTimerSheet.SleepTimerSheetState.Step | app/src/main/java/com/vdustr/lofiradio/ui/SleepTimerSheet.kt:405-443 | A click changes only its own draft, by `StepperClick`. Every draft stays in 0..23 or 0..59. |
| SleepTimerSheet.SleepTimerSheetState.CustomStart | app/src/main/java/com/vdustr/lofiradio/ui/SleepTimerSheet.kt:303-309 | Start is enabled exactly when hours or minutes are positive. It then starts the drafted duration, which is between a minute and a day. |
| SleepTimerSheet.SleepTimerSheetState.AtTimeView | app/src/main/java/com/vdustr/lofiradio/ui/SleepTimerSheet.kt:322-387 | The view shows the wait to the drafted target and "(tomorrow)" exactly when that wait crosses midnight. Start is enabled exactly when the wait is at least a minute. |
| SleepTimerSheet.SleepTimerSheetState.AtTimeStart | app/src/main/java/com/vdustr/lofiradio/ui/SleepTimerSheet.kt:380-392 | The button is judged by the wait at render time. The duration started is the least wait from the click time to the target. |
| SleepTimerSheet.LateClickExample | app/src/main/java/com/vdustr/lofiradio/ui/SleepTimerSheet.kt:380-387 | The view is drawn at 10:58:30 with an 11:00 target, so Start is enabled. A click one minute later starts a timer of 30 000 ms. |
| VersionCode.VersionCode | app/build.gradle.kts:15-18 | A version code, when there is one, is a 32-bit `Int`. |
| VersionCode.VersionCodeDefined | app/build.gradle.kts:16-18 | A version code exists exactly when the release part has three or more dot-separated parts whose first three are integers. It is then their wrapped encoding. |
| VersionCode.MissingPart | app/build.gradle.kts:16-17 | With fewer than three parts, the error is the first failure in evaluation order: a bad first part, a missing index 1, a bad second part, or a missing index 2. |
| VersionCode.DefaultVersionCode | app/build.gradle.kts:15-16 | With no version name, the default "1.0.0" encodes to 1 000 000. |
| VersionCode.VersionCodeOfRender | app/build.gradle.kts:16-18 | A rendered "major.minor.patch", with or without a "-" suffix, encodes to major × 1 000 000 + minor × 1 000 + patch. Major is up to 2146; minor and patch are up to 999. |
| VersionCode.PreReleaseIgnored | app/build.gradle.kts:16 | A pre-release suffix after "-" never changes the code. |
| VersionCode.ExtraPartsIgnored | app/build.gradle.kts:16-17 | Parts after the third are ignored. |
| VersionCode.EncodeOrder | app/build.gradle.kts:17 | Major up to 2146, minor and patch up to 999: the encoding is one-to-one and orders versions lexicographically. |
| VersionCode.EncodeExact | app/build.gradle.kts:17 | Major up to 2146, minor and patch up to 999: nothing wraps. |
| VersionCode.LargeMajorWraps | app/build.gradle.kts:17 | Kotlin's `Int` wrap-around makes the version name "2148.0.0" give the negative code 2 148 000 000 − 2³², and `Encode(2148, 0, 0)` is that value. |
| VersionCode.Wrap32 | app/build.gradle.kts:17 | Wrapping lands in the `Int` range, agrees with its input modulo 2^32, and leaves `Int` values alone. |

## Left out

- I/O is not modelled: the network, the extraction library and the media session are parameters. The backend's channel page and its answer to a watch URL are values given to the methods.
- Coroutines and threads are not modelled. The launched jobs are split at their suspension points, and the caller chooses the interleaving. The member fields marked `@Volatile` are plain fields.
- ViewModel.RadioViewModel.CompletePlay: it models the corrected resolution, `Data.GetHlsUrl` with its 30 000 ms bound, and the corrected handling `ViewModel.DecidePlay`. As written, the app plays an answer that arrives after 30 000 ms. `ViewModel.LateAnswerPlaysAsWritten` shows this.
- ViewModel.RadioViewModel.Tick: the one-second `delay` between ticks is not modelled. The caller supplies each tick's clock reading.
- `setAudioQuality` is not modelled: it is a bitrate setting passed through to the player's track selection.
- `openInYouTube` is not modelled: it builds an Android intent.
- `onCleared` is not modelled: it is lifecycle teardown, and no state is observed after it.
- `connectToPlaybackService` is modelled only by its listener, `OnControllerReady`. Building the session token and the controller future is platform code.
- FuzzyMatch.Score: lengths and positions count Unicode characters, while Kotlin counts UTF-16 code units. A character outside the Basic Multilingual Plane, such as an emoji, counts once in the model and twice in Kotlin. So every position bonus (the title length minus a match position, in the substring case and in the walk) is lower by one for each such character after that position. For the query "lofi", Kotlin scores the titles "lofi" + an emoji and "lofiab" 1006 each. The model scores the first 1005.
- ViewModel.FilteredStreams: because of the code-unit difference above, titles that tie in Kotlin can be ordered differently. The emoji title in that example comes before "lofiab" in Kotlin when it comes first in the input, and after it in the model.
- FuzzyMatch.FuzzyMatchScore: the score is an unbounded integer. A title long enough to overflow Kotlin's `Int` in the score is not modelled.
- Strings.Lower: `lowercase` maps only ASCII letters. Unicode case mapping beyond ASCII is not modelled.
- Decimal.ParseInt: `toInt` accepts ASCII digits only. Kotlin also accepts other Unicode decimal digits.
- FormatTimer.FormatTimer: negative durations are not modelled. Its callers pass remaining times that are never negative.
- SleepTimerSheet.FormatDurationPreview: negative durations are not modelled. Its one caller passes `durationUntilTime`, which is always positive.
- SleepTimerSheet.DurationUntilTime: the time of day is taken in one fixed offset. A daylight-saving change between now and the target is not modelled.
- The screen composition in ui/MainScreen.kt is not part of this model. That covers how the sheet's millisecond `onStart` meets the view model's `startSleepTimer(minutes)`, and the player bar's arguments.
- ui/MainScreen.kt's private copy of `formatTimer` is the same code as util/FormatTimer.kt, except that it names `java.util.Locale.US` in full, so it is modelled once, as `FormatTimer.FormatTimer`.
- The viewer-count formatting of the list rows and the colours, spacing and animations of the sheet are not modelled: they are presentation only.

## Findings

| source | as written | input that shows it | evidently intended | confidence | as-written member | corrected member |
|---|---|---|---|---|---|---|
| app/src/main/java/com/vdustr/lofiradio/data/StreamRepository.kt:63-76 | The extractor's calls block without suspending, so `withTimeout(30_000L)` never interrupts them. The block's late result is returned even after the deadline. | An extractor that answers with a usable URL after 45 000 ms. | The resolution fails with a timeout after 30 000 ms. | not executed | Data.GetHlsUrlAsWritten | Data.GetHlsUrl |
| app/src/main/java/com/vdustr/lofiradio/viewmodel/RadioViewModel.kt:184-188 | `catch (e: CancellationException) { throw e }` also catches `TimeoutCancellationException`. This is latent: as written the bound of the first row never fires, so today a late URL is played (`ViewModel.LateAnswerPlaysAsWritten`). Once that bound is enforced, a timed-out resolution ends the job silently: no error is shown and the screen keeps its previous state. | With the first row corrected (`Data.GetHlsUrl`), the current stream's resolution takes 30 000 ms or more, with a connected controller (`ViewModel.TimeoutSilentOnceBounded`). | The timeout shows STREAM_DOWN with its message; only the job's own cancellation is silent. | not executed | ViewModel.DecidePlayAsWritten | ViewModel.DecidePlay |
