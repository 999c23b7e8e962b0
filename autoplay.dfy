/**
 * Autoplay's duplicate detection, related-track selection and history keeping
 * (src/utils/music/autoplay.ts:145-310). Searches are a parameter: `search(q)`
 * is what `client.manager.search(q)` resolves to, or `Failed` when it throws.
 */
module Autoplay {
  import opened Wrappers
  import opened Text
  import opened Tracks
  import opened Fingerprints
  import opened Players

  /** `similarity >= threshold`; a NaN score never reaches any threshold. */
  predicate Reaches(s: Score, threshold: real) {
    s.Num? && s.v >= threshold
  }

  /** Some fingerprint of the history scores at least `threshold` against `fp` under `score`. */
  predicate AnyReaches(fp: Fingerprint, history: seq<Fingerprint>, threshold: real,
                       score: (Fingerprint, Fingerprint) -> Score) {
    exists i :: 0 <= i < |history| && Reaches(score(fp, history[i]), threshold)
  }

  /** Some fingerprint of the history is at least `threshold` similar to `fp`. */
  predicate IsDuplicate(fp: Fingerprint, history: seq<Fingerprint>, threshold: real) {
    AnyReaches(fp, history, threshold, Compare)
  }

  /** A duplicate at one threshold is a duplicate at every lower one. */
  lemma DuplicateAtLowerThreshold(fp: Fingerprint, history: seq<Fingerprint>, threshold: real, lower: real,
                                  score: (Fingerprint, Fingerprint) -> Score)
    requires lower <= threshold
    requires AnyReaches(fp, history, threshold, score)
    ensures AnyReaches(fp, history, lower, score)
  {
    var i :| 0 <= i < |history| && Reaches(score(fp, history[i]), threshold);
    assert Reaches(score(fp, history[i]), lower);
  }

  /** A history entry with the same identifier makes a track a duplicate at any threshold up to 1. */
  lemma SameIdentifierIsDuplicate(fp: Fingerprint, history: seq<Fingerprint>, i: nat, threshold: real)
    requires i < |history| && history[i].identifier == fp.identifier
    requires threshold <= 1.0
    ensures IsDuplicate(fp, history, threshold)
  {
    assert Reaches(Compare(fp, history[i]), threshold);
  }

  /** A hit in a joined history is a hit in one of its parts. */
  lemma ReachesInJoinedHistory(fp: Fingerprint, h1: seq<Fingerprint>, h2: seq<Fingerprint>, threshold: real,
                               score: (Fingerprint, Fingerprint) -> Score)
    ensures AnyReaches(fp, h1 + h2, threshold, score) <==>
      AnyReaches(fp, h1, threshold, score) || AnyReaches(fp, h2, threshold, score)
  {
    var all := h1 + h2;
    if AnyReaches(fp, all, threshold, score) {
      var k :| 0 <= k < |all| && Reaches(score(fp, all[k]), threshold);
      if k < |h1| {
        assert all[k] == h1[k];
      } else {
        assert all[k] == h2[k - |h1|];
      }
    }
    if AnyReaches(fp, h1, threshold, score) {
      var k :| 0 <= k < |h1| && Reaches(score(fp, h1[k]), threshold);
      assert all[k] == h1[k];
    }
    if AnyReaches(fp, h2, threshold, score) {
      var k :| 0 <= k < |h2| && Reaches(score(fp, h2[k]), threshold);
      assert all[|h1| + k] == h2[k];
    }
  }

  /** The `for ... of` loop over one history: true at the first entry reaching the threshold. */
  method FindSimilar(fp: Fingerprint, history: seq<Fingerprint>, threshold: real,
                     score: (Fingerprint, Fingerprint) -> Score) returns (found: bool)
    ensures found == AnyReaches(fp, history, threshold, score)
  {
    var i := 0;
    while i < |history|
      invariant 0 <= i <= |history|
      invariant forall k :: 0 <= k < i ==> !Reaches(score(fp, history[k]), threshold)
    {
      if Reaches(score(fp, history[i]), threshold) {
        return true;
      }
      i := i + 1;
    }
    return false;
  }

  /** isDuplicateTrackEnhanced: the play history first, then the autoplay history, stopping at the first hit. */
  method IsDuplicateTrackEnhanced(rules: Rules, track: Track, playHistory: seq<Fingerprint>,
                                  autoplayHistory: seq<Fingerprint>, threshold: real := 0.75)
    returns (duplicate: bool)
    ensures duplicate == IsDuplicate(CreateFingerprint(rules, track), playHistory + autoplayHistory, threshold)
  {
    var fp := CreateFingerprint(rules, track);
    ReachesInJoinedHistory(fp, playHistory, autoplayHistory, threshold, Compare);
    duplicate := FindSimilar(fp, playHistory, threshold, Compare);
    if duplicate {
      return;
    }
    duplicate := FindSimilar(fp, autoplayHistory, threshold, Compare);
  }

  /** What `client.manager.search` gives: a track list, or an error thrown. */
  datatype Search = Failed | Found(tracks: seq<Track>)

  datatype RelatedError = LimitExceeded | SeedSearchFailed

  /** The largest `limit` getRelatedTracks accepts. */
  const MaxRelatedLimit: int := 50

  /** The YouTube mix of a video. */
  function RelatedUri(videoId: string): string {
    "https://www.youtube.com/watch?v=" + videoId + "&list=RD" + videoId
  }

  function FingerprintsOf(rules: Rules, tracks: seq<Track>): (fps: seq<Fingerprint>)
    ensures |fps| == |tracks|
    ensures forall i :: 0 <= i < |tracks| ==> fps[i] == CreateFingerprint(rules, tracks[i])
  {
    seq(|tracks|, i requires 0 <= i < |tracks| => CreateFingerprint(rules, tracks[i]))
  }

  /** The pool getRelatedTracks compares against: both histories, the queue, then the current track. */
  function HistoryPool(rules: Rules, playHistory: seq<Fingerprint>, autoplayHistory: seq<Fingerprint>, q: Queue): seq<Fingerprint> {
    playHistory + autoplayHistory + FingerprintsOf(rules, q.tracks)
      + (if q.current.Some? then [CreateFingerprint(rules, q.current.value)] else [])
  }

  function Identifiers(fps: seq<Fingerprint>): (ids: set<string>)
    ensures forall i :: 0 <= i < |fps| ==> fps[i].identifier in ids
  {
    set i | 0 <= i < |fps| :: fps[i].identifier
  }

  /** A related track survives if its identifier is new and it is no duplicate at 0.7. */
  predicate Fresh(rules: Rules, t: Track, pool: seq<Fingerprint>) {
    t.identifier !in Identifiers(pool) && !IsDuplicate(CreateFingerprint(rules, t), pool, 0.7)
  }

  /** The `filter` of getRelatedTracks. */
  function FilterFresh(rules: Rules, candidates: seq<Track>, pool: seq<Fingerprint>): (r: seq<Track>)
    ensures |r| <= |candidates|
    ensures forall t :: t in r ==> t in candidates && Fresh(rules, t, pool)
    ensures forall t :: t in candidates && Fresh(rules, t, pool) ==> t in r
  {
    if candidates == [] then []
    else
      var rest := FilterFresh(rules, candidates[1..], pool);
      assert forall t :: t in candidates ==> t == candidates[0] || t in candidates[1..];
      if Fresh(rules, candidates[0], pool) then [candidates[0]] + rest else rest
  }

  /** getRelatedTracks over the player's histories and queue. */
  function GetRelatedTracks(rules: Rules, track: Track, limit: int, playHistory: seq<Fingerprint>,
                            autoplayHistory: seq<Fingerprint>, q: Queue, search: string -> Search)
    : (r: Result<seq<Track>, RelatedError>)
    ensures limit > MaxRelatedLimit <==> r == Err(LimitExceeded)
    ensures r.Ok? && limit >= 0 ==> |r.value| <= limit
    ensures r.Ok? ==> forall t :: t in r.value ==> Fresh(rules, t, HistoryPool(rules, playHistory, autoplayHistory, q))
    ensures r == Err(SeedSearchFailed) <==> limit <= MaxRelatedLimit && search(track.author + " - " + track.title).Failed?
    ensures limit <= MaxRelatedLimit && search(track.author + " - " + track.title).Found? ==>
      var seed := search(track.author + " - " + track.title).tracks;
      (seed == [] || search(RelatedUri(seed[0].identifier)).Failed?) ==> r == Ok([])
  {
    if limit > MaxRelatedLimit then Err(LimitExceeded)
    else
      match search(track.author + " - " + track.title)
      case Failed => Err(SeedSearchFailed)
      case Found(seed) =>
        if seed == [] then Ok([])
        else
          match search(RelatedUri(seed[0].identifier))
          case Failed => Ok([])
          case Found(related) =>
            var pool := HistoryPool(rules, playHistory, autoplayHistory, q);
            var survivors := FilterFresh(rules, related, pool);
            var kept := SlicePrefix(survivors, limit);
            assert forall t :: t in kept ==> t in survivors;
            Ok(kept)
  }

  /**
   * With a seed found, the related tracks are the mix of its first hit, filtered
   * against the pool and cut with `slice(0, limit)`; a failing mix search gives none.
   */
  lemma RelatedIsFreshPrefix(rules: Rules, track: Track, limit: int, playHistory: seq<Fingerprint>,
                             autoplayHistory: seq<Fingerprint>, q: Queue, search: string -> Search)
    requires limit <= MaxRelatedLimit
    requires search(track.author + " - " + track.title).Found?
    requires search(track.author + " - " + track.title).tracks != []
    ensures var hit := search(track.author + " - " + track.title).tracks[0];
      var r := GetRelatedTracks(rules, track, limit, playHistory, autoplayHistory, q, search);
      match search(RelatedUri(hit.identifier))
      case Failed => r == Ok([])
      case Found(related) =>
        r == Ok(SlicePrefix(FilterFresh(rules, related, HistoryPool(rules, playHistory, autoplayHistory, q)), limit))
  {
  }

  /** FilterFresh keeps the order of the candidates: it distributes over concatenation. */
  lemma {:induction false} FilterFreshJoin(rules: Rules, a: seq<Track>, b: seq<Track>, pool: seq<Fingerprint>)
    ensures FilterFresh(rules, a + b, pool) == FilterFresh(rules, a, pool) + FilterFresh(rules, b, pool)
  {
    if a != [] {
      assert (a + b)[1..] == a[1..] + b;
      FilterFreshJoin(rules, a[1..], b, pool);
    } else {
      assert a + b == b;
    }
  }

  /** A single candidate is kept exactly when it is fresh. */
  lemma FilterFreshOne(rules: Rules, t: Track, pool: seq<Fingerprint>)
    ensures FilterFresh(rules, [t], pool) == if Fresh(rules, t, pool) then [t] else []
  {
    assert [t][1..] == [];
  }

  /** The identifiers of the current and the queued tracks are in the pool. */
  lemma PoolHoldsQueue(rules: Rules, playHistory: seq<Fingerprint>, autoplayHistory: seq<Fingerprint>, q: Queue)
    ensures forall u :: u in AllTracks(q) ==> u.identifier in Identifiers(HistoryPool(rules, playHistory, autoplayHistory, q))
  {
    var pool := HistoryPool(rules, playHistory, autoplayHistory, q);
    forall u | u in AllTracks(q)
      ensures u.identifier in Identifiers(pool)
    {
      if q.current.Some? && u == q.current.value {
        assert pool[|pool| - 1] == CreateFingerprint(rules, u);
      } else {
        assert u in q.tracks;
        var k :| 0 <= k < |q.tracks| && q.tracks[k] == u;
        PoolHoldsWaiting(rules, playHistory, autoplayHistory, q, k);
      }
    }
  }

  /** The k-th waiting track's fingerprint sits after both histories in the pool. */
  lemma PoolHoldsWaiting(rules: Rules, playHistory: seq<Fingerprint>, autoplayHistory: seq<Fingerprint>, q: Queue, k: nat)
    requires k < |q.tracks|
    ensures q.tracks[k].identifier in Identifiers(HistoryPool(rules, playHistory, autoplayHistory, q))
  {
    var pool := HistoryPool(rules, playHistory, autoplayHistory, q);
    var fps := FingerprintsOf(rules, q.tracks);
    var tail := if q.current.Some? then [CreateFingerprint(rules, q.current.value)] else [];
    ThirdPartAt(playHistory, autoplayHistory, fps, tail, k);
    assert pool[|playHistory| + |autoplayHistory| + k].identifier == q.tracks[k].identifier;
  }

  lemma ThirdPartAt<T>(a: seq<T>, b: seq<T>, c: seq<T>, d: seq<T>, k: nat)
    requires k < |c|
    ensures |a| + |b| + k < |a + b + c + d| && (a + b + c + d)[|a| + |b| + k] == c[k]
  {
  }

  /** The identifiers of both histories are in the pool. */
  lemma PoolHoldsHistories(rules: Rules, playHistory: seq<Fingerprint>, autoplayHistory: seq<Fingerprint>, q: Queue)
    ensures forall h :: h in playHistory + autoplayHistory ==> h.identifier in Identifiers(HistoryPool(rules, playHistory, autoplayHistory, q))
  {
    var pool := HistoryPool(rules, playHistory, autoplayHistory, q);
    forall h | h in playHistory + autoplayHistory
      ensures h.identifier in Identifiers(pool)
    {
      var k :| 0 <= k < |playHistory + autoplayHistory| && (playHistory + autoplayHistory)[k] == h;
      assert pool[k] == h;
    }
  }

  /** The current track, every queued track and every history entry are always excluded from the related tracks. */
  lemma RelatedExcludesQueue(rules: Rules, track: Track, limit: int, playHistory: seq<Fingerprint>,
                             autoplayHistory: seq<Fingerprint>, q: Queue, search: string -> Search, t: Track)
    requires GetRelatedTracks(rules, track, limit, playHistory, autoplayHistory, q, search).Ok?
    requires t in GetRelatedTracks(rules, track, limit, playHistory, autoplayHistory, q, search).value
    ensures forall u :: u in AllTracks(q) ==> u.identifier != t.identifier
    ensures forall h :: h in playHistory + autoplayHistory ==> h.identifier != t.identifier
  {
    PoolHoldsQueue(rules, playHistory, autoplayHistory, q);
    PoolHoldsHistories(rules, playHistory, autoplayHistory, q);
  }

  /** The tracks with the autoplay requester written on them. */
  function MarkedAutoplay(tracks: seq<Track>): (r: seq<Track>)
    ensures |r| == |tracks|
    ensures forall i :: 0 <= i < |r| ==> r[i] == tracks[i].(requester := AutoplayRequester)
  {
    seq(|tracks|, i requires 0 <= i < |tracks| => tracks[i].(requester := AutoplayRequester))
  }

  /** The autoplay history keeps its last 100 fingerprints. */
  const AutoplayHistoryLimit: nat := 100

  /** The play history keeps its last 50 fingerprints. */
  const PlayHistoryLimit: nat := 50

  /** The tracks addRelatedTracksToQueue adds: the related tracks marked as autoplay's, or none after an error. */
  function RelatedToAdd(rules: Rules, currentTrack: Track, count: int, playHistory: seq<Fingerprint>,
                        autoplayHistory: seq<Fingerprint>, q: Queue, search: string -> Search): (added: seq<Track>)
    ensures var r := GetRelatedTracks(rules, currentTrack, count, playHistory, autoplayHistory, q, search);
      added == [] || (r.Ok? && |added| == |r.value|)
    ensures forall t :: t in added ==> t.requester == AutoplayRequester
  {
    var r := GetRelatedTracks(rules, currentTrack, count, playHistory, autoplayHistory, q, search);
    if r.Err? then [] else MarkedAutoplay(r.value)
  }

  /**
   * The player's queue and autoplay history after `added` went in: unchanged when
   * nothing was added; otherwise appended to the queue, and their fingerprints to
   * the history, cut to its last 100 entries.
   */
  predicate Appended(rules: Rules, q0: Queue, h0: seq<Fingerprint>, added: seq<Track>, q1: Queue, h1: seq<Fingerprint>) {
    if added == [] then q1 == q0 && h1 == h0
    else
      q1 == QueueAdd(q0, added, None).value
      && h1 == SliceLast(h0 + FingerprintsOf(rules, added), AutoplayHistoryLimit)
  }

  /**
   * addRelatedTracksToQueue: the related tracks, marked as autoplay's, are appended
   * to the queue and their fingerprints to the autoplay history, which keeps its
   * last 100 entries. Any error leaves the player untouched and returns [].
   */
  method AddRelatedTracksToQueue(rules: Rules, p: Player, currentTrack: Track, count: int, search: string -> Search)
    returns (added: seq<Track>)
    modifies p`queue, p`autoplayHistory
    ensures added == RelatedToAdd(rules, currentTrack, count, old(p.playHistory), old(p.autoplayHistory), old(p.queue), search)
    ensures Appended(rules, old(p.queue), old(p.autoplayHistory), added, p.queue, p.autoplayHistory)
    ensures |p.autoplayHistory| <= AutoplayHistoryLimit || p.autoplayHistory == old(p.autoplayHistory)
  {
    var related := GetRelatedTracks(rules, currentTrack, count, p.playHistory, p.autoplayHistory, p.queue, search);
    if related.Err? || related.value == [] {
      return [];
    }
    added := MarkedAutoplay(related.value);
    var ok := p.Add(added, None);
    p.SetAutoplayHistory(SliceLast(p.autoplayHistory + FingerprintsOf(rules, added), AutoplayHistoryLimit));
  }

  /** Adding a non-empty batch grows the queue by the batch and keeps every earlier track. */
  lemma AppendedGrowsQueue(rules: Rules, q0: Queue, h0: seq<Fingerprint>, added: seq<Track>, q1: Queue, h1: seq<Fingerprint>)
    requires q0.current.Some?
    requires Appended(rules, q0, h0, added, q1, h1)
    ensures Size(q1) == Size(q0) + |added|
    ensures q1.current == q0.current && q1.tracks[..Size(q0)] == q0.tracks
    ensures multiset(AllTracks(q1)) == multiset(AllTracks(q0)) + multiset(added)
  {
    if added != [] {
      QueueAddKeepsTracks(q0, added, None);
    } else {
      assert q0.tracks + [] == q0.tracks;
    }
  }

  /** The gate of checkAndAddAutoplayTracks: autoplay on, at most 5 waiting tracks, and a current track. */
  predicate ShouldTopUp(autoplayEnabled: bool, q: Queue) {
    autoplayEnabled && Size(q) <= 5 && q.current.Some?
  }

  /** The tracks a top-up of `count` adds: those of addRelatedTracksToQueue after the current track, or none with the gate shut. */
  function TopUp(rules: Rules, autoplayEnabled: bool, playHistory: seq<Fingerprint>, autoplayHistory: seq<Fingerprint>,
                 q: Queue, count: int, search: string -> Search): (added: seq<Track>)
    ensures !ShouldTopUp(autoplayEnabled, q) ==> added == []
    ensures ShouldTopUp(autoplayEnabled, q) ==>
      added == RelatedToAdd(rules, q.current.value, count, playHistory, autoplayHistory, q, search)
  {
    if ShouldTopUp(autoplayEnabled, q)
    then RelatedToAdd(rules, q.current.value, count, playHistory, autoplayHistory, q, search)
    else []
  }

  /** The batch checkAndAddAutoplayTracks asks for when the queue runs low. */
  const TopUpCount: int := 15

  /** The batch initializeAutoplay asks for. */
  const InitialCount: int := 20

  /** checkAndAddAutoplayTracks: tops the queue up with 15 related tracks when the gate is open. */
  method CheckAndAddAutoplayTracks(rules: Rules, p: Player, search: string -> Search)
    returns (added: bool, tracks: seq<Track>)
    modifies p`queue, p`autoplayHistory
    ensures tracks == TopUp(rules, old(p.autoplayEnabled), old(p.playHistory), old(p.autoplayHistory), old(p.queue), TopUpCount, search)
    ensures added <==> tracks != []
    ensures Appended(rules, old(p.queue), old(p.autoplayHistory), tracks, p.queue, p.autoplayHistory)
  {
    if !p.autoplayEnabled || Size(p.queue) > 5 {
      return false, [];
    }
    if p.queue.current.None? {
      return false, [];
    }
    tracks := AddRelatedTracksToQueue(rules, p, p.queue.current.value, TopUpCount, search);
    added := |tracks| > 0;
  }

  /** The `{success, addedTracks, error}` result of initializeAutoplay and handleAutoplayOnTrackStart. */
  datatype Outcome = Outcome(success: bool, addedTracks: seq<Track>, error: Option<string>)

  const NoCurrentTrackError: string := "현재 재생중인 음악이 없어요."

  /** initializeAutoplay: 20 related tracks after the current one, or a failure when nothing is playing. */
  method InitializeAutoplay(rules: Rules, p: Player, search: string -> Search) returns (o: Outcome)
    modifies p`queue, p`autoplayHistory
    ensures old(p.queue.current).None? ==>
      o == Outcome(false, [], Some(NoCurrentTrackError)) && p.queue == old(p.queue) && p.autoplayHistory == old(p.autoplayHistory)
    ensures old(p.queue.current).Some? ==>
      o == Outcome(true, RelatedToAdd(rules, old(p.queue.current).value, InitialCount, old(p.playHistory),
                                      old(p.autoplayHistory), old(p.queue), search), None)
      && Appended(rules, old(p.queue), old(p.autoplayHistory), o.addedTracks, p.queue, p.autoplayHistory)
  {
    if p.queue.current.None? {
      return Outcome(false, [], Some(NoCurrentTrackError));
    }
    var added := AddRelatedTracksToQueue(rules, p, p.queue.current.value, InitialCount, search);
    o := Outcome(true, added, None);
  }

  /** handleAutoplayOnTrackStart: the top-up of checkAndAddAutoplayTracks, reported as a success. */
  method HandleAutoplayOnTrackStart(rules: Rules, p: Player, search: string -> Search) returns (o: Outcome)
    modifies p`queue, p`autoplayHistory
    ensures o == Outcome(true, TopUp(rules, old(p.autoplayEnabled), old(p.playHistory), old(p.autoplayHistory),
                                     old(p.queue), TopUpCount, search), None)
    ensures Appended(rules, old(p.queue), old(p.autoplayHistory), o.addedTracks, p.queue, p.autoplayHistory)
  {
    var added, tracks := CheckAndAddAutoplayTracks(rules, p, search);
    o := Outcome(true, if added then tracks else [], None);
  }

  /** A full queue, or autoplay switched off, is never topped up. */
  lemma NoTopUpWhenQueueFull(autoplayEnabled: bool, q: Queue)
    requires Size(q) > 5 || !autoplayEnabled
    ensures !ShouldTopUp(autoplayEnabled, q)
  {
  }

  /** The play history after manageTrackHistory: appended and cut to the last 50 only when the identifier is new. */
  function RecordPlayed(history: seq<Fingerprint>, fp: Fingerprint): (r: seq<Fingerprint>)
    ensures (exists i :: 0 <= i < |history| && history[i].identifier == fp.identifier) ==> r == history
    ensures (forall i :: 0 <= i < |history| ==> history[i].identifier != fp.identifier) ==>
      |r| == (if |history| < PlayHistoryLimit then |history| + 1 else PlayHistoryLimit) && r[|r| - 1] == fp
      && r == (history + [fp])[|history| + 1 - |r|..]
  {
    if exists i :: 0 <= i < |history| && history[i].identifier == fp.identifier then history
    else SliceLast(history + [fp], PlayHistoryLimit)
  }

  /** No two fingerprints of a history share an identifier. */
  predicate DistinctIdentifiers(history: seq<Fingerprint>) {
    forall i, j :: 0 <= i < j < |history| ==> history[i].identifier != history[j].identifier
  }

  /** manageTrackHistory keeps identifiers distinct and the history within 50 entries. */
  lemma RecordPlayedKeepsHistoryDistinct(history: seq<Fingerprint>, fp: Fingerprint)
    requires DistinctIdentifiers(history) && |history| <= PlayHistoryLimit
    ensures DistinctIdentifiers(RecordPlayed(history, fp)) && |RecordPlayed(history, fp)| <= PlayHistoryLimit
  {
    if forall i :: 0 <= i < |history| ==> history[i].identifier != fp.identifier {
      var all := history + [fp];
      assert DistinctIdentifiers(all) by {
        forall i, j | 0 <= i < j < |all|
          ensures all[i].identifier != all[j].identifier
        {
          if j == |history| {
            assert all[i] == history[i];
          } else {
            assert all[i] == history[i] && all[j] == history[j];
          }
        }
      }
      var r := SliceLast(all, PlayHistoryLimit);
      forall i, j | 0 <= i < j < |r|
        ensures r[i].identifier != r[j].identifier
      {
        assert r[i] == all[|all| - |r| + i] && r[j] == all[|all| - |r| + j];
      }
    }
  }

  /** manageTrackHistory on the player: `playHistory.some(...)`, then the push and the cut to 50. */
  method ManageTrackHistory(rules: Rules, p: Player, track: Track)
    modifies p`playHistory
    ensures p.playHistory == RecordPlayed(old(p.playHistory), CreateFingerprint(rules, track))
  {
    var history := p.playHistory;
    var i := 0;
    while i < |history| && history[i].identifier != track.identifier
      invariant 0 <= i <= |history|
      invariant forall k :: 0 <= k < i ==> history[k].identifier != track.identifier
    {
      i := i + 1;
    }
    var fp := CreateFingerprint(rules, track);
    if i == |history| {
      p.SetPlayHistory(SliceLast(history + [fp], PlayHistoryLimit));
    }
  }
}
