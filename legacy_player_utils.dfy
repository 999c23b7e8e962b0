/**
 * The older player helpers (src/utils/playerUtils.ts): the related-track
 * lookup and the footers of the "now playing" embeds. The newer versions in
 * src/utils/music/ are in the Autoplay and Admission modules.
 */
module LegacyPlayerUtils {
  import opened Wrappers
  import opened Text
  import opened Format
  import opened Tracks
  import opened Players
  import opened Autoplay

  /** The largest `limit` the older getRelatedTracks accepts. */
  const MaxLegacyLimit: int := 30

  /** The errors it lets escape; the related search's error is rethrown wrapped. */
  datatype LegacyError = LimitTooHigh | SeedSearchThrew | RelatedSearchThrew

  /** A related track is kept only if it differs from the seed in identifier, title and author alike. */
  predicate Unrelated(seed: Track, t: Track) {
    t.identifier != seed.identifier && t.title != seed.title && t.author != seed.author
  }

  /** The `filter` of the related results, in their order. */
  function KeepUnrelated(seed: Track, candidates: seq<Track>): (r: seq<Track>)
    ensures |r| <= |candidates|
    ensures forall t :: t in r <==> t in candidates && Unrelated(seed, t)
  {
    if candidates == [] then []
    else
      var rest := KeepUnrelated(seed, candidates[1..]);
      assert forall t :: t in candidates <==> t == candidates[0] || t in candidates[1..];
      if Unrelated(seed, candidates[0]) then [candidates[0]] + rest else rest
  }

  /** getRelatedTracks of src/utils/playerUtils.ts, with `client.manager.search` as `search`. */
  function GetRelatedTracksLegacy(track: Track, limit: int, search: string -> Search)
    : (r: Result<seq<Track>, LegacyError>)
    ensures limit > MaxLegacyLimit <==> r == Err(LimitTooHigh)
    ensures r == Err(SeedSearchThrew)
        <==> limit <= MaxLegacyLimit && search(track.author + " - " + track.title).Failed?
    ensures r.Ok? ==> forall t :: t in r.value ==> Unrelated(track, t)
    ensures r.Ok? && limit >= 0 ==> |r.value| <= limit
    ensures limit <= MaxLegacyLimit && search(track.author + " - " + track.title) == Found([]) ==> r == Ok([])
  {
    if limit > MaxLegacyLimit then Err(LimitTooHigh)
    else
      match search(track.author + " - " + track.title)
      case Failed => Err(SeedSearchThrew)
      case Found(seed) =>
        if seed == [] then Ok([])
        else
          match search(RelatedUri(seed[0].identifier))
          case Failed => Err(RelatedSearchThrew)
          case Found(related) =>
            var kept := KeepUnrelated(track, related);
            var r := SlicePrefix(kept, limit);
            assert forall t :: t in r ==> t in kept;
            Ok(r)
  }

  /**
   * What the older lookup returns is exactly the first `limit` unrelated tracks
   * of the mix of the first search hit; a related search that fails is an error
   * here, where the newer lookup gives [].
   */
  lemma LegacyRelatedIsMixPrefix(track: Track, limit: int, search: string -> Search)
    requires 0 <= limit <= MaxLegacyLimit
    requires search(track.author + " - " + track.title).Found?
    requires search(track.author + " - " + track.title).tracks != []
    ensures var hit := search(track.author + " - " + track.title).tracks[0];
      match search(RelatedUri(hit.identifier))
      case Failed => GetRelatedTracksLegacy(track, limit, search) == Err(RelatedSearchThrew)
      case Found(related) =>
        var kept := KeepUnrelated(track, related);
        GetRelatedTracksLegacy(track, limit, search).Ok?
        && GetRelatedTracksLegacy(track, limit, search).value == kept[..if limit <= |kept| then limit else |kept|]
  {
  }

  /** A negative limit is not refused: `slice(0, -n)` drops the last n kept tracks instead. */
  lemma NegativeLimitDropsFromEnd(track: Track, limit: int, search: string -> Search)
    requires limit < 0
    requires search(track.author + " - " + track.title).Found?
    requires search(track.author + " - " + track.title).tracks != []
    requires search(RelatedUri(search(track.author + " - " + track.title).tracks[0].identifier)).Found?
    ensures var related := search(RelatedUri(search(track.author + " - " + track.title).tracks[0].identifier)).tracks;
      var kept := KeepUnrelated(track, related);
      GetRelatedTracksLegacy(track, limit, search)
      == Ok(if |kept| + limit >= 0 then kept[..|kept| + limit] else [])
  {
  }

  /** The playlist footer: count and time of the added tracks, then the queue size and `queue.duration`. */
  function LegacyPlaylistFooter(tracks: seq<Track>, q: Queue): string {
    "추가된 음악 " + NatToString(|tracks|) + "곡 (" + MsToTime(TotalDuration(tracks)) + ") | 대기열에 "
      + NatToString(Size(q)) + "곡 (" + MsToTime(Duration(q)) + ")"
  }

  /** The time the single-track footer shows after the queue size: `queue.duration - track.duration`. */
  function LegacyQueueTime(t: Track, q: Queue): int {
    Duration(q) - t.duration
  }

  /**
   * For the current track (the only one the older trackStart handler passes)
   * that time is exactly the waiting tracks' total; for a waiting track it is
   * never negative either.
   */
  lemma LegacyQueueTimeOfCurrent(t: Track, q: Queue)
    requires q.current == Some(t)
    ensures LegacyQueueTime(t, q) == TotalDuration(q.tracks)
  {
    RemainingTimeIsWaitingTime(q);
  }

  lemma LegacyQueueTimeOfWaiting(t: Track, q: Queue, k: nat)
    requires k < |q.tracks| && q.tracks[k] == t
    ensures LegacyQueueTime(t, q) >= 0
  {
    RemainingTimeIsWaitingTime(q);
    TrackWithinTotal(q.tracks, k);
  }

  /** One track's duration never exceeds the total of a list it is in. */
  lemma {:induction false} TrackWithinTotal(tracks: seq<Track>, k: nat)
    requires k < |tracks|
    ensures tracks[k].duration <= TotalDuration(tracks)
    decreases |tracks|
  {
    if k < |tracks| - 1 {
      TrackWithinTotal(tracks[..|tracks| - 1], k);
    }
  }

  /** The single-track footer; `added` picks "추가된" over "재생중인". */
  function LegacyTrackFooter(t: Track, q: Queue, added: bool): (r: string)
    requires LegacyQueueTime(t, q) >= 0
  {
    LegacyTrackHead(t, q, added) + (MsToTime(LegacyQueueTime(t, q)) + ")")
  }

  /** Everything of the single-track footer before the queue time. */
  function LegacyTrackHead(t: Track, q: Queue, added: bool): string {
    (if added then "추가된" else "재생중인") + " 음악 (" + (if t.isStream then "실시간 스트리밍" else MsToTime(t.duration))
      + ") | 대기열에 " + NatToString(Size(q)) + "곡 ("
  }

  /** For the current track the older footer shows the same waiting time as the newer one. */
  lemma LegacyTrackFooterShowsWaitingTime(t: Track, q: Queue, added: bool)
    requires q.current == Some(t)
    ensures LegacyQueueTime(t, q) >= 0
    ensures EndsWith(LegacyTrackFooter(t, q, added), MsToTime(TotalDuration(q.tracks)) + ")")
  {
    LegacyQueueTimeOfCurrent(t, q);
    EndsWithLast(LegacyTrackHead(t, q, added), MsToTime(TotalDuration(q.tracks)) + ")");
  }
}
