# NM-TS music bot core, modelled in Dafny

NM-TS is a Discord music bot built on the magmastream Lavalink client. This
project models the bot's own logic:

- **Autoplay deduplication.** Levenshtein similarity, track fingerprints and
  their weighted comparison, the duplicate test against the play and autoplay
  histories, the related-track filter, and the bounded histories.
- **Session snapshots.** Saving, loading and deleting per-guild session files,
  and the fail-closed restore ladder run at start-up.
- **Track admission.** Option checks, cover and shorts filtering, queue
  placement, footers and the progress bar.
- **Text codecs.** The quick-add button URL compression, the seek time parser
  and formatter, `truncateWithEllipsis`, `hyperlink` and `msToTime`.
- **Small registries.** The cooldown manager, the processed-interaction set
  and the voice-channel inactivity timers.
- **Command validators.** `/play`, `/queue` (paging), `/seek`, `/remove`,
  `/skip` and `/repeat`.
- **Legacy helpers.** The older related-track helper and footer arithmetic in
  `src/utils/playerUtils.ts`.

How the model is built:

- **Pure code** becomes datatypes and functions with lemmas.
- **Stateful code** becomes classes with `modifies` clauses:
  - the magmastream player and manager (`Players`);
  - the cooldown table;
  - the interaction set;
  - the timer map;
  - the session store.
- **Loops** become methods proved against specification functions:
  - the edit-distance matrix;
  - the history scans;
  - the emoji progress bar;
  - the history trim;
  - the session loops.

Modules:

| file | module | source |
|---|---|---|
| `wrappers.dfy` | `Wrappers` | `Option` and `Result` |
| `text.dfy` | `Text` | the JavaScript string operations the code uses (`slice`, `replace`, `trim`, `padStart`, ...) |
| `tracks.dfy` | `Tracks` | the track record |
| `players.dfy` | `Players` | magmastream's player, queue and manager, as far as the bot calls them |
| `format.dfy` | `Format` | `src/utils/format.ts` |
| `guards.dfy` | `Guards` | the voice and playing guards of `src/utils/playerUtils.ts` and `src/utils/music/playerUtils.ts` |
| `similarity.dfy`, `fingerprint.dfy`, `autoplay.dfy` | `Similarity`, `Fingerprints`, `Autoplay` | `src/utils/music/autoplay.ts` |
| `sessions.dfy` | `Sessions` | `src/utils/music/sessionManager.ts` |
| `admission.dfy` | `Admission` | `src/utils/music/playerUtils.ts` |
| `quick_add.dfy` | `QuickAdd` | `src/utils/music/quickAddButton.ts` |
| `legacy_player_utils.dfy` | `LegacyPlayerUtils` | `src/utils/playerUtils.ts` |
| `play.dfy`, `queue_pages.dfy`, `seek.dfy`, `remove.dfy`, `skip.dfy`, `repeat.dfy` | `PlayCommand`, `QueueCommand`, `SeekCommand`, `RemoveCommand`, `SkipCommand`, `RepeatCommand` | the commands under `src/commands/` |
| `cooldown.dfy` | `Cooldowns` | `src/managers/CooldownManager.ts` |
| `interactions.dfy` | `Interactions` | `src/utils/discord/interactions/interactionManager.ts` |
| `voice_state.dfy` | `VoiceState` | `src/events/voiceStateUpdate.ts` |

## Model

| member | source | states |
|---|---|---|
| Format.TruncateWithEllipsis | src/utils/format.ts:1-5 | Text within the limit is returned unchanged. Longer text becomes a prefix of itself followed by the ellipsis. When the limit is at least the ellipsis length, the result is exactly the limit long. |
| Format.TruncateExamples | tests/utils/formatting.test.ts:7-25 | The unit-test cases hold: short text is unchanged, and long text is cut to the limit with "...". |
| Format.TruncateNegativeBudget | src/utils/format.ts:3 | With a limit below the ellipsis length, `slice` with a negative end counts from the back: ("Hello World", 2) gives "Hello Worl...". |
| Format.EscapeBrackets | src/utils/format.ts:8 | The result has the same length. Every '[' becomes '［' and every ']' becomes '］'; every other character is kept. No ASCII bracket is left. |
| Format.Hyperlink | src/utils/format.ts:7-9 | The result is "[" + escaped label + "](<" + url + ">)". The first ']' in it is the one that closes the label. |
| Format.HyperlinkPlain | tests/utils/formatting.test.ts:29-32 | The plain-label test case. |
| Format.HyperlinkBrackets | tests/utils/formatting.test.ts:33-35 | The test case whose label contains brackets: they are replaced by full-width ones. |
| Format.MsToTime | src/utils/format.ts:11-17 | The result ends in "MM:SS", with minutes (ms/1000 mod 3600)/60 and seconds ms/1000 mod 60, both two digits. The result is 5 characters long exactly when ms < 3600000. Otherwise it starts with the whole hours. |
| Format.MsToTimeZero | tests/utils/formatting.test.ts:47-49 | 0 gives "00:00". |
| Format.MsToTimeMinutes | tests/utils/formatting.test.ts:39-41 | 65000 gives "01:05". |
| Format.MsToTimeHours | tests/utils/formatting.test.ts:43-45 | 3665000 gives "1:01:05". |
| Guards.PlayingLegacyIsStricter | src/utils/playerUtils.ts:47-66 | The legacy ensurePlaying (playing, with a current track) implies the newer one at src/utils/music/playerUtils.ts:49-70 (playing or paused, with a current track). A paused player with a current track passes only the newer one. |
| Similarity.KeepWordAndSpace | src/utils/music/autoplay.ts:24 | The result is no longer than the input, and every character left is an ASCII word character or whitespace. |
| Similarity.KeepWordAndSpaceDropsHangul | src/utils/music/autoplay.ts:24 | Hangul syllables are removed by the ASCII-only `\w`. |
| Similarity.DistBounds | src/utils/music/autoplay.ts:32-48 | The matrix entry for prefixes of lengths i and j lies between \|i - j\| and max(i, j). |
| Similarity.DistZero | src/utils/music/autoplay.ts:32-48 | A zero entry means the two prefixes are equal. |
| Similarity.DistSymmetric | src/utils/music/autoplay.ts:32-48 | The edit distance does not depend on the order of the strings. |
| Similarity.Ratio | src/utils/music/autoplay.ts:50-51 | For two different, non-empty strings, (maxLen - distance) / maxLen lies in [0, 1). |
| Similarity.RatioSymmetric | src/utils/music/autoplay.ts:50-51 | The ratio is symmetric. |
| Similarity.NormalizedScore | src/utils/music/autoplay.ts:29-51 | On normalised strings the score is in [0, 1]. It is 1 exactly when the strings are equal, and 0 against an empty string that differs. |
| Similarity.Similarity | src/utils/music/autoplay.ts:20-52 | calculateSimilarity lies in [0, 1]. |
| Similarity.SimilarityOneIffSameNormalForm | src/utils/music/autoplay.ts:29 | The similarity is 1 exactly when both normal forms are equal. |
| Similarity.SimilarityZeroAgainstEmpty | src/utils/music/autoplay.ts:30 | It is 0 when exactly one normal form is empty. |
| Similarity.SimilaritySymmetric | src/utils/music/autoplay.ts:20-52 | The similarity is symmetric. |
| Similarity.HangulOnlyScoresOne | src/utils/music/autoplay.ts:24-29 | Two Hangul-only titles both normalise to "" and score 1, however different they are. |
| Similarity.CalculateSimilarity | src/utils/music/autoplay.ts:20-52 | The method, with its nested matrix loops, returns exactly Similarity(a, b). |
| Similarity.EditDistance | src/utils/music/autoplay.ts:32-48 | After the loops, the bottom-right matrix entry is the edit distance of the two strings. |
| Similarity.NewMatrix | src/utils/music/autoplay.ts:32-38 | Row 0 and column 0 hold their indices. |
| Similarity.FillRow | src/utils/music/autoplay.ts:40-48 | One pass of the inner loop fills row i with Dist(a, b, i, j) for every j. |
| Fingerprints.KeepWordSpaceHangul | src/utils/music/autoplay.ts:66 | Every character left is a word character, whitespace or Hangul. |
| Fingerprints.CollapseSpaces | src/utils/music/autoplay.ts:67 | Collapsing whitespace runs keeps a string made only of kept characters. |
| Fingerprints.CollapsedSpacing | src/utils/music/autoplay.ts:67 | Every whitespace character left is a plain space. A non-empty input gives a non-empty result whose first character is whitespace exactly when the input's was. |
| Fingerprints.CleanText | src/utils/music/autoplay.ts:66-81 | The normalised title or author holds only kept characters. |
| Fingerprints.KeptHasNoDash | src/utils/music/autoplay.ts:66-89 | A normalised title holds no '-'. |
| Fingerprints.SplitDash | src/utils/music/autoplay.ts:89 | The split gives at least one part, and a string without "-" gives itself alone. |
| Fingerprints.CreateFingerprint | src/utils/music/autoplay.ts:54-115 | The identifier, title, author and duration are copied unchanged. A topic author gives normalizedAuthor "", and any other author its cleaned form. For a non-topic author, the normalised title is StripArtist of the cleaned title and the cleaned author; the ' - ' split never changes it. |
| Fingerprints.DashRuleNeverApplies | src/utils/music/autoplay.ts:88-105 | For a non-topic author, the normalised title equals the artist-stripping of the cleaned title. So the " - " split, on a title that lost every "-", changes nothing. |
| Fingerprints.DurationSimilarity | src/utils/music/autoplay.ts:124-125 | The result is NaN exactly when both durations are 0. Otherwise it is in [0, 1], and it is 1 when the gap is under 10% of the longer duration. |
| Fingerprints.Parts | src/utils/music/autoplay.ts:120-125 | The title, author and duration similarities lie in their ranges. Only the duration part can be NaN, and only for two zero durations. |
| Fingerprints.Weigh | src/utils/music/autoplay.ts:127-142 | The weighted score lies in [0, 1], and is NaN only when the duration part is. |
| Fingerprints.Compare | src/utils/music/autoplay.ts:117-143 | Equal identifiers give exactly 1.0. Otherwise the score is in [0, 1], or NaN only when both durations are 0. |
| Fingerprints.CompareSymmetric | src/utils/music/autoplay.ts:117-143 | compareTrackFingerprints is symmetric. |
| Fingerprints.PartsSymmetric | src/utils/music/autoplay.ts:120-125 | The three partial similarities are symmetric. |
| Fingerprints.DurationSimilaritySymmetric | src/utils/music/autoplay.ts:124-125 | The duration similarity is symmetric. |
| Fingerprints.EqualTitlesWithoutAuthorScoreHigh | src/utils/music/autoplay.ts:127-130 | With an empty author, equal normalised titles and a non-zero duration, the score is a number of at least 0.9. |
| Fingerprints.ScoreWithoutAuthor | src/utils/music/autoplay.ts:127-131 | With an empty author, different titles, different identifiers and a non-zero duration, the score is exactly 0.8·title + 0.2·duration similarity. |
| Fingerprints.ScoreWithAuthors | src/utils/music/autoplay.ts:134-142 | With both authors present and neither 0.9 floor applying, two different tracks score exactly 0.7·title + 0.25·author + 0.05·duration. |
| Fingerprints.WeighFallThrough | src/utils/music/autoplay.ts:142 | With authors present and neither floor applying, Weigh gives exactly 0.7·title + 0.25·author + 0.05·duration. |
| Fingerprints.ZeroDurationsWithoutAuthorAreNaN | src/utils/music/autoplay.ts:125 | Two zero-duration tracks with different identifiers score NaN. |
| Fingerprints.EqualTitlesSimilarAuthorsScoreHigh | src/utils/music/autoplay.ts:134-136 | With both authors present, equal titles and author similarity above 0.7, the score is a number of at least 0.9. |
| Fingerprints.WeighFloorsMatches | src/utils/music/autoplay.ts:134-140 | With both authors present, either equal titles and author similarity above 0.7, or equal authors and title similarity above 0.7, gives a weighted score of at least 0.9. |
| Autoplay.DuplicateAtLowerThreshold | src/utils/music/autoplay.ts:145-163 | A duplicate at one threshold is a duplicate at every lower threshold. |
| Autoplay.SameIdentifierIsDuplicate | src/utils/music/autoplay.ts:118 | A history entry with the same identifier makes the track a duplicate at any threshold up to 1. |
| Autoplay.ReachesInJoinedHistory | src/utils/music/autoplay.ts:148-160 | A hit in two histories scanned one after the other is a hit in one of them. |
| Autoplay.FindSimilar | src/utils/music/autoplay.ts:148-153 | The early-return loop answers true exactly when some entry reaches the threshold. |
| Autoplay.IsDuplicateTrackEnhanced | src/utils/music/autoplay.ts:145-163 | The result is true exactly when some fingerprint of playHistory ++ autoplayHistory reaches the threshold. |
| Autoplay.FilterFresh | src/utils/music/autoplay.ts:192-195 | A candidate is kept exactly when its identifier is not in the pool and it is no duplicate at 0.7. |
| Autoplay.GetRelatedTracks | src/utils/music/autoplay.ts:165-203 | A limit above 50 is exactly the thrown limit error. A failing seed search is exactly the other error. A seed search with no hit, or a failing mix search, gives no tracks. Otherwise at most `limit` tracks are returned, every one fresh against the pool. |
| Autoplay.RelatedIsFreshPrefix | src/utils/music/autoplay.ts:169-200 | With a seed hit, a failing mix search gives no tracks, and a found mix gives its fresh tracks in mix order, cut to the first `limit`. |
| Autoplay.FilterFreshJoin | src/utils/music/autoplay.ts:192-195 | The freshness filter keeps order: filtering a joined list is joining the filtered parts. |
| Autoplay.FilterFreshOne | src/utils/music/autoplay.ts:192-195 | A single candidate survives the filter exactly when it is fresh against the pool. |
| Autoplay.PoolHoldsQueue | src/utils/music/autoplay.ts:181-188 | The identifiers of the current track and of every queued track are in the comparison pool. |
| Autoplay.PoolHoldsHistories | src/utils/music/autoplay.ts:181-188 | The identifiers of both histories are in the pool. |
| Autoplay.RelatedExcludesQueue | src/utils/music/autoplay.ts:183-193 | No related track shares an identifier with the current track, a queued track or a history entry. |
| Autoplay.MarkedAutoplay | src/utils/music/autoplay.ts:223-225 | Each track is kept except that its requester becomes "자동재생". |
| Autoplay.AddRelatedTracksToQueue | src/utils/music/autoplay.ts:217-242 | The added tracks are RelatedToAdd of the old state: the related tracks marked as autoplay's, or none after an error. With none, queue and autoplay history are unchanged. Otherwise queue.add appends them, and the history becomes the last 100 of the old history plus their fingerprints. |
| Autoplay.RelatedToAdd | src/utils/music/autoplay.ts:217-242 | The batch is empty after an error, and otherwise has one track per related track, each with requester "자동재생". |
| Autoplay.AppendedGrowsQueue | src/utils/music/autoplay.ts:227 | A non-empty batch added after a current track grows the waiting list by the batch, keeps every earlier track in place, and adds exactly the batch's tracks. |
| Autoplay.TopUp | src/utils/music/autoplay.ts:259-276 | With the gate closed or no current track the top-up adds nothing; otherwise it adds the current track's RelatedToAdd batch. |
| Autoplay.CheckAndAddAutoplayTracks | src/utils/music/autoplay.ts:259-276 | The added tracks are TopUp with 15: none with autoplay off, more than 5 waiting tracks or no current track, and otherwise the 15-track batch addRelatedTracksToQueue adds. `added` is true exactly when tracks were added. Queue and autoplay history change exactly as that batch's append says. |
| Autoplay.NoTopUpWhenQueueFull | src/utils/music/autoplay.ts:262 | With autoplay off or more than 5 waiting tracks, the gate is closed. |
| Autoplay.InitializeAutoplay | src/utils/music/autoplay.ts:244-257 | With no current track, the result is the failure and nothing changes. Otherwise it is a success whose tracks are exactly addRelatedTracksToQueue's 20-track batch, and queue and autoplay history change as that append says. |
| Autoplay.HandleAutoplayOnTrackStart | src/utils/music/autoplay.ts:312-326 | The result is always a success whose tracks are exactly TopUp with 15: none with the gate closed, otherwise the added batch. Queue and autoplay history change as that append says. |
| Autoplay.RecordPlayed | src/utils/music/autoplay.ts:300-310 | A known identifier leaves the history unchanged. A new one is appended as the last entry; the result is the newest min(\|history\| + 1, 50) entries of history plus it, in order. |
| Autoplay.RecordPlayedKeepsHistoryDistinct | src/utils/music/autoplay.ts:304-308 | The history keeps distinct identifiers and at most 50 entries. |
| Autoplay.ManageTrackHistory | src/utils/music/autoplay.ts:300-310 | The `some` scan and the push-and-trim set the player's playHistory to RecordPlayed of the old one. |
| Players.RemainingTimeIsWaitingTime | src/utils/music/playerUtils.ts:189-201 | queue.duration minus the current track's duration is exactly the total of the waiting tracks. |
| Players.QueueAdd | src/utils/music/playerUtils.ts:328-330 | An add to an empty player makes the first track current. An offset inserts at that position, and none appends. An offset outside [0, size] is the library's error. |
| Players.QueueAddKeepsTracks | src/utils/music/playerUtils.ts:328-330 | An add grows the queue's contents (as a multiset) by exactly the added tracks. |
| Admission.ShortsTagAnyCase | src/utils/music/playerUtils.ts:213 | "#Shorts" and "#SHORTS" count as the tag, and "#short" does not. |
| Admission.ShortsTagIsLoweredSubstring | src/utils/music/playerUtils.ts:213 | `/#shorts/i` matches a title exactly when its lower-cased form contains "#shorts" at some position. |
| Admission.ShortsTagIgnoresCase | src/utils/music/playerUtils.ts:213 | Lower-casing a title never finds or loses the tag, for every title. |
| Admission.LongUntaggedIsNotShorts | src/utils/music/playerUtils.ts:211-216 | A track longer than 60 s (or of unknown length) whose title has the tag nowhere, in any letter case, is not a short. |
| Admission.FilterTracks | src/utils/music/playerUtils.ts:290-299 | A track is kept exactly when the enabled exclusions do not match it. With no exclusion the list is unchanged. |
| Admission.CheckOptions | src/utils/music/playerUtils.ts:235-277 | An index with no player, or an idle player with an empty queue, is rejected. An accepted index is at most the queue size. ignorePlaylist needs both patterns, no current stream, and strips the first `list=`. Otherwise the query passes unchanged. |
| Admission.IndexAtEndAccepted | src/utils/music/playerUtils.ts:244 | index == queue size is accepted. |
| Admission.Resolve | src/utils/music/playerUtils.ts:279-318 | An empty result or a load failure is exactly "not found". An admitted single track is the first result no enabled exclusion matches, and without filtering the first result. An admitted playlist is exactly the listed tracks (the playlist's own list when present) after the filter. |
| Admission.KeepFindsFirst | src/utils/music/playerUtils.ts:290-304 | The head of the filtered list is a track of the list that no exclusion matches, and every track before it is excluded. |
| Admission.AllExcludedIsRejected | src/utils/music/playerUtils.ts:302-316 | When every track of a track or search result is excluded, the request is rejected with the count of removed tracks. |
| Admission.AllPlaylistExcludedIsRejected | src/utils/music/playerUtils.ts:290-393 | For a playlist, every found track excluded is rejected with their count; otherwise every listed track excluded is rejected as a filtered playlist with the listed count. |
| Admission.Placement | src/utils/music/playerUtils.ts:328-330 | addFirst gives offset 0, which wins over an index. Otherwise the index is used, or the track is appended. |
| Admission.SingleTrackStartsOnEmptyPlayer | src/utils/music/playerUtils.ts:333 | One track added to an idle, empty player becomes current, and play() is called. |
| Admission.PlaylistStartsOnEmptyPlayerIffTwoTracks | src/utils/music/playerUtils.ts:400 | On an idle, empty player, a playlist starts only when it has at least two tracks. A one-track playlist is left unplayed. |
| Admission.AddTrackToQueue | src/utils/music/playerUtils.ts:228-435 | The outcome is AddTrackOutcome of the player before: a rejection by the option checks or by Resolve, no player when none exists and none can be created, and otherwise the resolved tracks enqueued at the placement offset. Rejections and the failure change no existing player, and other guilds' players never change. An addition leaves the queue queue.add gives, and a started player is playing and not paused. The failure leaves the queue as it was. |
| Admission.EnqueueFailsOnlyOnBadOffsetOrNothingToPlay | src/utils/music/playerUtils.ts:328-335 | Enqueueing fails exactly when queue.add refuses the offset, or when play() is called on a queue with nothing current. |
| Admission.AddTrackFailsOnlyOnNegativeIndexOrEmptyPlaylist | src/utils/music/playerUtils.ts:235-401 | addTrackToQueue fails only past its checks, and only when a negative index reaches queue.add or an empty playlist meets a player that play() cannot start. |
| Admission.PlaylistFooter | src/utils/music/playerUtils.ts:191 | The playlist footer ends with the waiting time of the queue. |
| Admission.TrackFooter | src/utils/music/playerUtils.ts:180-205 | The track footer ends with the waiting time of the queue. |
| Admission.CircleShownOnce | src/utils/music/playerUtils.ts:455-475 | The emoji bar shows the circle once while progress ≤ barLength - 2, and not at all otherwise. |
| Admission.PlainBar | src/utils/music/playerUtils.ts:479-483 | For 0 ≤ progress < length, the bar has that length, with the indicator at `progress` and "▬" everywhere else. Past the end, the indicator follows a full bar. |
| Admission.BuildEmojiBar | src/utils/music/playerUtils.ts:453-475 | The for-loop builds EmojiBar: barLength segments, where interior slot i is the circle when i == progress, filled when i < progress, else unfilled. |
| Admission.CreateProgressBar | src/utils/music/playerUtils.ts:437-485 | A missing or stream track gives "". Otherwise the result is the elapsed time, the emoji or plain bar and the total time, separated by spaces. |
| PlayCommand.CheckPlayOptions | src/commands/play.ts:38-81 | ignorePlaylist without both pattern matches is rejected. An accepted request never pairs addFirst with an index. An accepted index is in [0, queue size] on a player that is not idle. Accepted ignorePlaylist needs no current stream and strips the playlist; any other query passes unchanged. |
| PlayCommand.PlayChecksAtLeastAsStrict | src/commands/play.ts:38-81 | Whatever `/play` accepts, addTrackToQueue's own checks accept with the same query. |
| PlayCommand.NegativeIndexOnlyCaughtByPlay | src/commands/play.ts:58-62 | Index -1 is rejected by `/play`, yet it passes addTrackToQueue's check. |
| PlayCommand.PlaylistNeverStartsOnEmptyPlayer | src/commands/play.ts:125 | `/play`'s playlist condition never starts playback on an idle, empty player. |
| PlayCommand.PlaylistStartsAfterCurrent | src/commands/play.ts:125 | It does start when a current track exists and the player is idle. |
| PlayCommand.Execute | src/commands/play.ts:22-142 | The outcome is PlayOutcome of the prechecks and the player before. Rejections (guards, option checks, search) change no player, and other guilds' players never change. An addition leaves the queue queue.add gives, and a started player is playing. The failure leaves the queue as it was. |
| PlayCommand.PlayFailsOnlyOnEmptyPlaylist | src/commands/play.ts:58-125 | Past `/play`'s own checks, the command fails only on a playlist with no tracks. |
| QueueCommand.TotalPages | src/commands/queue.ts:67 | The result is max(1, ceil(total / 10)). |
| QueueCommand.ClampPage | src/commands/queue.ts:68-69 | The requested page (default 1) lands in [1, totalPages], and is unchanged when already in range. |
| QueueCommand.PageTracks | src/commands/queue.ts:14-16 | Page p lists the tracks (p-1)·10 ... (p-1)·10+9 of the queue, at most 10 of them. |
| QueueCommand.PageAccountsForQueue | src/commands/queue.ts:14-21 | The tracks on page p plus the remaining count cover the whole queue. |
| QueueCommand.EveryTrackOnItsPage | src/commands/queue.ts:14-23 | Track k is entry k mod 10 of page k/10 + 1, and that page is within range. |
| QueueCommand.EveryTrackListed | src/commands/queue.ts:13-33 | Track k is rendered on page k/10 + 1 as entry k mod 10, numbered k + 1. |
| QueueCommand.FootersAgree | src/commands/queue.ts:87-88 | The embed's footer is the footer of max(0, total - page·10) remaining tracks, as computed in both places. |
| QueueCommand.NextPage | src/commands/queue.ts:132-134 | From a page in range, a press stays within [1, totalPages] and moves by at most one page. |
| QueueCommand.ButtonsMatchMoves | src/commands/queue.ts:35-51 | Previous (or Next) is disabled exactly when pressing it would leave the page unchanged. Refresh keeps the page. |
| QueueCommand.NextReachesLastPage | src/commands/queue.ts:132-134 | totalPages - page presses of Next reach the last page. |
| QueueCommand.QueueView | src/commands/queue.ts:66-91 | The empty-queue reply is given exactly for an empty queue. A shown page is the clamped one, with its rendering and buttons. |
| QueueCommand.QueueReply | src/commands/queue.ts:59-91 | The guard refusal is given exactly when nothing is playing. Otherwise the reply is QueueView of the queue. |
| QueueCommand.InvalidPageUnreachable | src/commands/queue.ts:80-85 | After clamping, the invalid-page branch is never taken. |
| QueueCommand.Pager.Collect | src/commands/queue.ts:98-140 | A press by anyone but the command's user is rejected and keeps the page. Any other press moves the page as NextPage says, and the page stays in range. |
| SeekCommand.ParseTime | src/commands/seek.ts:9-17 | An all-digit string gives its decimal value. Any accepted time with a colon is below 100·3600 + 3600. |
| SeekCommand.ParseSeconds | src/commands/seek.ts:10 | The decimal text of n parses back to n. |
| SeekCommand.ParseMinutesSeconds | src/commands/seek.ts:12-16 | "m:ss" with m of 1-2 digits and s < 60 parses back to m·60 + s. |
| SeekCommand.ParseHoursMinutesSeconds | src/commands/seek.ts:12-16 | "h:mm:ss" with h of 1-2 digits and m, s < 60 parses back to h·3600 + m·60 + s. |
| SeekCommand.RejectedForms | src/commands/seek.ts:12-13 | "1:60", "100:00" and "" are rejected. |
| SeekCommand.ClockOf | src/commands/seek.ts:20-22 | h·3600 + m·60 + s is the number of seconds, with m and s below 60. |
| SeekCommand.Units | src/commands/seek.ts:25-27 | The hours part is present exactly when h > 0, and the minutes part exactly when m > 0. The seconds part is present exactly when s > 0 or h = m = 0. |
| SeekCommand.FormatClockIsJoinedUnits | src/commands/seek.ts:19-29 | The appended-and-trimmed string equals the units joined by single spaces. |
| SeekCommand.FormatTimeZero | src/commands/seek.ts:19-29 | formatTime(0) is "0초". |
| SeekCommand.FormatTimeWholeHours | src/commands/seek.ts:19-29 | formatTime(7200) is "2시간". |
| SeekCommand.FormatTimeAllUnits | src/commands/seek.ts:19-29 | formatTime(3725) is "1시간 2분 5초". |
| SeekCommand.SeekTarget | src/commands/seek.ts:59-73 | The seek is issued exactly when a current track exists, seconds·1000 ≤ its duration, and it is not paused, not a stream, and seekable. The target is seconds·1000. |
| SeekCommand.SeekToEndAllowed | src/commands/seek.ts:62 | Seeking to exactly the duration is allowed. |
| SeekCommand.SeekPlan | src/commands/seek.ts:47-73 | An unparsable time is a format error, and the negative-time rejection is never produced. |
| SeekCommand.Execute | src/commands/seek.ts:37-77 | Guards, then SeekPlan. Only a granted seek moves the position; no other field of the guild's player may change, and players of other guilds are unchanged. When the member is in a voice channel, shares the bot's channel and a track is playing, the reply is SeekPlan's: its error, or the seeked-to time formatted. |
| RemoveCommand.RemoveTarget | src/commands/remove.ts:23-39 | A position n is accepted exactly when it is a whole number in [1, size], giving index n - 1. Out-of-range and non-integer positions get their own replies. |
| RemoveCommand.EveryShownPositionRemovable | src/commands/remove.ts:23-39 | Every position 1..size shown by `/queue` removes index k - 1. |
| RemoveCommand.Execute | src/commands/remove.ts:14-50 | Only an accepted index removes, exactly that waiting track, and reports its title read before removal. Every other outcome changes nothing. When the member is in the bot's voice channel and the player is playing, the reply is RemoveTarget's: its error, or the removed position and title. |
| SkipCommand.SkipCount | src/commands/skip.ts:23-34 | The count defaults to 1. It is accepted exactly when 1 ≤ count ≤ queue size, with a distinct reply for each side. |
| SkipCommand.NothingToSkipTo | src/commands/skip.ts:30-34 | With an empty queue, even the default count is rejected. |
| SkipCommand.Execute | src/commands/skip.ts:14-38 | stop(count) is called only with an accepted count, and its effect is that the count-th waiting track becomes current. Other outcomes change nothing. When the member is in the bot's voice channel and the player is playing, the reply is SkipCount's: its error, or the number skipped. |
| RepeatCommand.NextModes | src/commands/repeat.ts:26-57 | "track" toggles track repeat and turns queue repeat off. "queue" toggles queue repeat and turns track repeat off. "off" clears both. The two modes are never on together. |
| RepeatCommand.ReplyTo | src/commands/repeat.ts:26-61 | "off" replies "already off" exactly when both were off. The queue reply mentions track repeat turning off exactly when it was on. |
| RepeatCommand.TrackTwiceRestores | src/commands/repeat.ts:26-31 | "track" twice restores track repeat and leaves queue repeat off. |
| RepeatCommand.OffTwice | src/commands/repeat.ts:45-57 | "off" is idempotent, and a second "off" answers "already off". |
| RepeatCommand.Execute | src/commands/repeat.ts:16-63 | Guards, then the player's modes become NextModes. No field other than the repeat modes may change, and players of other guilds are unchanged. When the guards pass, the reply is not the refusal but the one for the old modes and the subcommand. |
| QuickAdd.Shorten | src/utils/music/quickAddButton.ts:42-49 | The result is a prefix of the URL of at most 94 characters. It is the URL itself exactly when the URL is at most 94 long. |
| QuickAdd.Decompress | src/utils/music/quickAddButton.ts:56-74 | Text is returned unchanged exactly when it has no "yt:", "sp:" or "sc:" tag. Tagged text becomes an "https://" URL. |
| QuickAdd.ButtonId | src/utils/music/quickAddButton.ts:80-83 | The id is "qa:" + the compressed URL. |
| QuickAdd.ButtonIdRoundTrip | src/utils/music/quickAddButton.ts:82-92 | The handler recovers the compressed text from a button id. |
| QuickAdd.YouTubeRoundTrip | src/utils/music/quickAddButton.ts:23-29 | For a youtube.com host, decompress(compress(u)) is "https://www.youtube.com" + path + search. |
| QuickAdd.ShortLinkRoundTrip | src/utils/music/quickAddButton.ts:25-26 | A youtu.be link comes back as "https://www.youtube.com/watch?v=" + id + search. |
| QuickAdd.SpotifyRoundTrip | src/utils/music/quickAddButton.ts:32-34 | A Spotify link whose path starts with "/" comes back as "https://open.spotify.com" + path + search. |
| QuickAdd.SoundCloudRoundTrip | src/utils/music/quickAddButton.ts:37-39 | A SoundCloud link comes back as "https://soundcloud.com" + path + search. |
| QuickAdd.PlainRoundTrip | src/utils/music/quickAddButton.ts:42-49 | An untagged URL of at most 94 characters comes back unchanged. |
| QuickAdd.TaggedTextIsRewritten | src/utils/music/quickAddButton.ts:47-59 | Unparsable text "yt:abc" is kept as it is by compress, but decompress turns it into "https://www.youtube.comabc": the plain path does not round-trip for tagged text. |
| QuickAdd.MissingUrlOnlyWhenEmpty | src/utils/music/quickAddButton.ts:94-100 | The handler's missing-URL branch is taken only for an empty decompressed text. |
| QuickAdd.PlainButtonIdFits | src/utils/music/quickAddButton.ts:41-49 | A plain button id is at most 97 characters. |
| Cooldowns.SecondsLeft | src/managers/CooldownManager.ts:39 | ceil((t + cd·1000 - now) / 1000), which is at least 1 while the window is open. |
| Cooldowns.CheckVerdict | src/managers/CooldownManager.ts:30-41 | The user is on cooldown exactly when the stored timestamp t is non-zero and now < t + cd·1000. The seconds left are the ceiling of the remaining milliseconds over 1000, at least 1. |
| Cooldowns.CheckState | src/managers/CooldownManager.ts:23-45 | A refused check leaves the table unchanged. An allowed one records now for that user under that command (creating the command's map), and nothing else changes. |
| Cooldowns.RecheckIsRefused | src/managers/CooldownManager.ts:30-45 | A second check with a positive cooldown inside the window is refused. |
| Cooldowns.ReadyAfterWindow | src/managers/CooldownManager.ts:30-45 | Once the window has passed, the command may run again. |
| Cooldowns.StampAtZeroIsIgnored | src/managers/CooldownManager.ts:32 | A stored timestamp of 0 counts as absent. |
| Cooldowns.ClearedOne | src/managers/CooldownManager.ts:51-56 | clearCooldown removes only that user's entry under that command. |
| Cooldowns.ReadyAfterClear | src/managers/CooldownManager.ts:51-56 | After clearCooldown the user may run the command. |
| Cooldowns.ClearedAll | src/managers/CooldownManager.ts:58-64 | A non-empty name drops only that command's map. No name (or "") empties everything. |
| Cooldowns.ReadyAfterClearAll | src/managers/CooldownManager.ts:58-64 | After clearAllCooldowns naming the command, the user may run it again. |
| Cooldowns.CooldownManager.CheckCooldown | src/managers/CooldownManager.ts:15-49 | The object's table moves as CheckState says, and the verdict is CheckVerdict. |
| Cooldowns.CooldownManager.ClearCooldown | src/managers/CooldownManager.ts:51-56 | The table becomes ClearedOne. |
| Cooldowns.CooldownManager.ClearAllCooldowns | src/managers/CooldownManager.ts:58-64 | The table becomes ClearedAll. |
| Interactions.ProcessedInteractions.Mark | src/utils/discord/interactions/interactionManager.ts:7-11 | The id is added to the set. Marking a present id changes neither the set nor the count. |
| Interactions.ProcessedInteractions.IsProcessed | src/utils/discord/interactions/interactionManager.ts:18-20 | The result is exactly set membership. |
| Interactions.ProcessedInteractions.CheckAndMark | src/utils/discord/interactions/interactionManager.ts:27-33 | The result is false the first time (and the id is recorded), and true while the id stays recorded. |
| Interactions.ProcessedInteractions.Count | src/utils/discord/interactions/interactionManager.ts:38-40 | The result is the size of the set. |
| Interactions.ProcessedInteractions.Expire | src/utils/discord/interactions/interactionManager.ts:10 | The five-minute expiry removes exactly that id. |
| Interactions.CheckMarkExpire | src/utils/discord/interactions/interactionManager.ts:7-33 | Check, check again, expire, check: the results are false, true, then false. |
| VoiceState.OneTimerPerGuild | src/events/voiceStateUpdate.ts:33-47 | While activePlayers tracks the pending timeouts, a guild has at most one, the one its entry names. |
| VoiceState.ScheduleKeepsTracked | src/events/voiceStateUpdate.ts:33-47 | handleEmptyChannel starts a timeout only when the guild has none, and keeps the tracking invariant. |
| VoiceState.CancelKeepsTracked | src/events/voiceStateUpdate.ts:56-59 | handleMemberJoin leaves no timeout able to destroy the guild's player. |
| VoiceState.FiredKeepsTracked | src/events/voiceStateUpdate.ts:35-41 | A fired timeout removes its guild's entry, keeping the invariant. |
| VoiceState.ForgetLeavesStrayTimer | src/events/voiceStateUpdate.ts:62-69 | The kick handler as written breaks the invariant: the pending timeout survives without an entry. |
| VoiceState.StrayTimerOutlivesRejoin | src/events/voiceStateUpdate.ts:33-69 | After that kick, a new player's timeout is not cancelled by a rejoin once the stray timeout has fired. |
| VoiceState.Monitor.KickAsWritten | src/events/voiceStateUpdate.ts:62-69 | The entry is deleted without clearTimeout, which breaks the invariant when a timeout was pending. The player is marked stopped by command, destroyed and removed. |
| VoiceState.Monitor.Kick | src/events/voiceStateUpdate.ts:62-69 | The corrected kick cancels the guild's pending timeout and keeps the invariant. The player is marked stopped by command, destroyed and removed. |
| VoiceState.Monitor.Handle | src/events/voiceStateUpdate.ts:10-83 | With no player, nothing happens. The bot without a channel means a kick, handled by the corrected Kick (cancel the timeout, then destroy) rather than lines 62-69 as written (see Findings). An empty channel pauses the player and schedules one timeout. A member present resumes the player and cancels the timeout. The invariant is kept. Players of other guilds are untouched, and the guild's own player keeps its queue, repeat modes, position and settings; pausing and resuming change only the pause and playing flags. |
| VoiceState.Monitor.Fire | src/events/voiceStateUpdate.ts:35-41 | The timeout marks its player stopped by command, destroys it and removes the entry. |
| LegacyPlayerUtils.KeepUnrelated | src/utils/playerUtils.ts:171 | A related track is kept exactly when its identifier, title and author all differ from the seed's. |
| LegacyPlayerUtils.GetRelatedTracksLegacy | src/utils/playerUtils.ts:151-177 | A limit above 30 is exactly the limit error. A failing seed search is exactly the seed error. Every result differs from the seed in identifier, title and author, and there are at most `limit` of them. An empty seed search gives []. |
| LegacyPlayerUtils.LegacyRelatedIsMixPrefix | src/utils/playerUtils.ts:159-176 | For 0 ≤ limit ≤ 30 and a non-empty seed search, a failing related search is thrown on. Otherwise the result is the first `limit` unrelated tracks of the mix. |
| LegacyPlayerUtils.NegativeLimitDropsFromEnd | src/utils/playerUtils.ts:171 | A negative limit drops that many tracks from the end, as `slice` does. |
| LegacyPlayerUtils.LegacyTrackFooterShowsWaitingTime | src/utils/playerUtils.ts:146 | The single-track footer shows queue.duration - track.duration, which is the waiting tracks' total time. |
| LegacyPlayerUtils.TrackWithinTotal | src/utils/playerUtils.ts:146 | A track's duration never exceeds the total duration of a list that holds it. |
| Sessions.FileName | src/utils/music/sessionManager.ts:54 | The session file of a guild is `${guildId}.json`. |
| Sessions.FileNameInjective | src/utils/music/sessionManager.ts:54 | Different guilds never share a file. |
| Sessions.LoadFrom | src/utils/music/sessionManager.ts:74-82 | A load gives a session exactly when the file exists and parses, and null otherwise. |
| Sessions.LoadAfterSave | src/utils/music/sessionManager.ts:32-59 | A saved snapshot loads back unchanged, and saving touches no other guild's session. |
| Sessions.LoadAfterDelete | src/utils/music/sessionManager.ts:87-95 | A deleted session no longer loads, and other guilds are untouched. |
| Sessions.SessionIds | src/utils/music/sessionManager.ts:104 | Exactly the names ending in ".json" are kept, each with its first ".json" removed. |
| Sessions.SessionIdsOfFileNames | src/utils/music/sessionManager.ts:104 | The listing of files saved for digit-only guild ids gives back those ids, in order. |
| Sessions.Check | src/utils/music/sessionManager.ts:137-174 | The ladder is: no node, then a missing channel id, then a voice channel that does not resolve, then a text channel that does not resolve. The session is restored exactly when all checks pass. |
| Sessions.CheckFailsClosed | src/utils/music/sessionManager.ts:137-174 | Without a node nothing is deleted or cleaned up. A snapshot with a missing id is never deleted. |
| Sessions.BuiltTrack | src/utils/music/sessionManager.ts:197 | The live track keeps its identifier and duration and takes the saved requester. |
| Sessions.RestoredQueueRoundTrip | src/utils/music/sessionManager.ts:202-213 | Without a live track, a saved current track and queue come back as they were. |
| Sessions.RestoredQueueLive | src/utils/music/sessionManager.ts:195-213 | A live track on the node becomes current, and the saved queue follows. |
| Sessions.RestoredQueueWithoutCurrent | src/utils/music/sessionManager.ts:209-213 | A snapshot without a current track comes back with its first queued track as current. |
| Sessions.RestoredRepeatRoundTrip | src/utils/music/sessionManager.ts:216-217 | Repeat modes that are not both on come back as saved. |
| Sessions.SessionStore.Save | src/utils/music/sessionManager.ts:32-59 | The snapshot of the player, stamped with now, is stored under its file. A failed write changes nothing. |
| Sessions.SessionStore.Delete | src/utils/music/sessionManager.ts:87-95 | The guild's file is removed, and a missing file is ignored. |
| Sessions.SessionStore.Load | src/utils/music/sessionManager.ts:74-82 | The result is LoadFrom of the store. |
| Sessions.SaveAllSessions | src/utils/music/sessionManager.ts:65-69 | Every player whose write succeeds has its snapshot stored, whatever happens to the other writes. Nothing else changes. |
| Sessions.CleanupPlayer | src/utils/music/sessionManager.ts:113-129 | The guild's player, if any, is marked stopped by command and destroyed, and its entry removed. The other players are unchanged. |
| Sessions.RestorePlayerSession | src/utils/music/sessionManager.ts:134-229 | The result is true exactly when Check restores and no later step throws. The snapshot is deleted exactly on a channel that is gone or a completed restore. With no node, or an error after the checks, the players are untouched. The other failures clean the guild up. A restored player is connected, with the restored queue, repeat modes and autoplay flag. Only the snapshot's guild can change: every other entry and player is untouched. |
| Sessions.RecreatePlayer | src/utils/music/sessionManager.ts:183-218 | The player create returns is connected and left in the Restored state. |
| Sessions.ResumePlayback | src/utils/music/sessionManager.ts:194-207 | The live track wins, with its pause state. Otherwise the saved current track is added and played. |
| Sessions.RestoreSettings | src/utils/music/sessionManager.ts:216-218 | Each flag is set only when it was saved true. |
| Sessions.RestoreAllSessions | src/utils/music/sessionManager.ts:234-272 | Each listed id is judged at its own clock reading, `Date.now()` when its turn comes (line 249). The directory only shrinks. A snapshot of a listed id that is stale (older than 5 minutes) at its turn is deleted, and so is every snapshot whose checks end in a deletion. Every id reported restored was fresh at one of its turns, passed every check and did not throw. When every listed snapshot names its own id: exactly the ids removed at one of their turns load null afterwards, every other load is as before, the restored ids are exactly those restorable at their first turn, each has a player in the Restored state for its snapshot, and players of unlisted guilds are untouched. |
| Sessions.RestoreOne | src/utils/music/sessionManager.ts:244-255 | The directory becomes AfterRestoreOne: a null load changes nothing, a stale snapshot is deleted, and any other is deleted exactly when its restore deletes it. The result is true exactly when the snapshot is restorable and its restore does not throw. A null load, a stale snapshot, a missing node or an error after the checks leaves every player as it was. Only the guild the snapshot names can change; the cleanup failures remove it, and success leaves it in the Restored state. |
| Sessions.AfterRestoreOneFailsClosed | src/utils/music/sessionManager.ts:137-152 | A null load, a missing node, a missing channel id, or an error after the checks leaves the whole directory as it was. |
| Sessions.AfterRestoreOneShrinks | src/utils/music/sessionManager.ts:244-255 | One id of the listing only ever deletes. |
| Sessions.AfterRestoreOneLoads | src/utils/music/sessionManager.ts:244-255 | For a snapshot naming its own id, only that id's load changes, and it becomes null exactly when the snapshot is removed. |
| Sessions.RestoreEach | src/utils/music/sessionManager.ts:244-271 | The loop over the listing leaves the directory as Progress describes after all ids. For self-named snapshots every restored id has its Restored player, from the queue and modes recorded before the loop, and unlisted guilds are untouched. |
| Sessions.RestoreTurn | src/utils/music/sessionManager.ts:244-271 | One turn moves Progress on by one id. Guilds not yet processed keep their queues and repeat modes, and every restored id, old or new, has its Restored player. |
| Sessions.RestoreListedId | src/utils/music/sessionManager.ts:245-255 | The i-th id runs at clock(i). For self-named snapshots only that id's player can change: not at all if it was already restored, and to its Restored state when this turn restores it. |

## Left out

- The magmastream library is not part of this model. `Players` fixes the behaviour the bot relies on:
  - `queue.add` makes the first track current on an empty player, and otherwise inserts at the offset or appends;
  - `size` counts the waiting tracks, and `duration` counts the current track too;
  - the repeat setters are exclusive;
  - `stop(n)` is taken by its net effect: the n-th waiting track becomes current;
  - `create` and `destroy` act on the guild's entry.
- `shuffle`, `clear` and the queue's own algorithms are not part of this model.
- Regular expressions are parameters, not interpreted. This covers the cover, video and playlist patterns (`Patterns`) and the fingerprint normalisation rules (`Rules`), each with the properties the code needs. The `[^\w\s]` filters and the shorts tag are modelled character by character.
- `toLowerCase` is modelled on ASCII plus the two non-ASCII letters that lower-case to ASCII (U+212A and U+0130). Other Unicode case mappings are not modelled.
- String lengths count characters, not UTF-16 code units.
- `new URL(...)` (the WHATWG URL parser) is taken as its hostname, pathname and search, which are inputs. A URL that fails to parse is treated like an unrecognised host.
- The following are left out, because they are network and UI side effects:
  - Discord and Lavalink I/O: embeds, replies, colours (`getColors`), message edits and sends;
  - the ensure* guards' reply texts: each guard is modelled as its condition only;
  - the "session restored" message.
- createAutoplayEmbed (src/utils/music/autoplay.ts:279-298) only builds an embed, and is left out.
- getAdditionalRelatedTracks (src/utils/music/autoplay.ts:205-215) is not called anywhere in the file, and is left out.
- Scores are Dafny `real`. IEEE rounding is not modelled, and NaN is an explicit case of the score type.
- The progress of the bar (`Math.round(current / total * barLength)`) is an input.
- Environment overrides of the progress-bar emoji are not modelled.
- CreateProgressBar: requires a non-negative length for the plain bar. `repeat` with a negative count throws a RangeError there, and that error path is not modelled.
- LegacyPlayerUtils.LegacyTrackFooter: requires queue.duration ≥ track.duration, because `msToTime` is modelled on non-negative numbers only. TrackWithinTotal shows the requirement always holds for the current track.
- LegacyPlayerUtils.LegacyPlaylistFooter and QuickAdd.Compress carry no contract of their own. What they promise is stated by the lemmas about them (the round trips and the footer lemmas).
- Timers, the clock and async scheduling are explicit parameters and events:
  - the interaction expiry is `Expire`;
  - a voice timeout firing is `Fire`;
  - the clock is a `now` parameter.
- The cooldown's own expiry timer (src/managers/CooldownManager.ts:46) is not modelled. It deletes from the per-command map it captured, so after clearAllCooldowns it touches a map that is no longer in the table.
- The race between the awaited message send in handleEmptyChannel and a later event for the same guild is not modelled. Events are handled one at a time.
- Cooldowns: cooldown seconds are modelled as whole, non-negative numbers.
- QueueCommand: page numbers are modelled as integers; Discord's `getNumber` could deliver a fraction.
- Option minimums enforced by Discord before a command runs are not assumed. The commands' own checks are modelled instead.
- parseInt precision beyond 2^53 is not modelled.
- Session files are a map from name to parsed content. JSON parsing is only "parses or gives null".
- A session's saved pause flag and position are not restored, as in the source, and `node.rest.destroyPlayer` is a backend call that is not modelled.
- handleQuickAddButton (src/utils/music/quickAddButton.ts:88-185) is modelled only as far as recovering the URL from the button id. The rest of the handler is not modelled:
  - its own search, which filters neither covers nor shorts;
  - its player creation, with the same-channel check made only after the player exists (lines 135-145);
  - its 100-track cap on playlists (line 148);
  - its start conditions: a playlist starts when the queue is non-empty (`queueSize`, lines 151-152), a single track only when it is empty (`!queueSize`, lines 175-176).
- The queue collector's 60-second end is not modelled. Only its page moves are.
- Sessions.RestorePlayerSession: an error escaping a step after the checks (the catch at src/utils/music/sessionManager.ts:225-228) is taken before `create`. A partially restored player is not modelled; the false result and the kept snapshot are.
- Sessions.RestoreAllSessions: the exact loads and the exact restored ids are stated only when every listed snapshot names its own id, as saved snapshots do. A file naming another guild is covered only by the shrinking and deletion clauses.

## Findings

| source | as written | input that shows it | evidently intended | confidence | as-written member | corrected member |
|---|---|---|---|---|---|---|
| src/events/voiceStateUpdate.ts:62-69 | handleBotKicked deletes the guild's `activePlayers` entry without `clearTimeout` on the pending ten-minute timeout | The channel empties, so a timeout is pending. The bot is then kicked. A new player is created and its channel empties, so a second timeout starts. The stray first timeout fires and deletes the new entry. A member rejoins: handleMemberJoin finds no entry and cancels nothing, so the second timeout still destroys the new player. | Clear the pending timeout before deleting the entry, as handleMemberJoin does; VoiceState.Monitor.Handle handles a kick with this corrected Kick | not executed | VoiceState.StrayTimerOutlivesRejoin | VoiceState.Monitor.Kick |
