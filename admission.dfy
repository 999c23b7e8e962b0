/**
 * Track admission and the now-playing helpers of src/utils/music/playerUtils.ts:
 * cover and shorts detection, the option checks and filtering of
 * addTrackToQueue, where the tracks go and whether playback starts, the footer
 * arithmetic of getEmbedMeta and createProgressBar. The URL and cover regular
 * expressions are parameters; the search is a function from query to result.
 */
module Admission {
  import opened Wrappers
  import opened Text
  import opened Tracks
  import opened Players
  import opened Format

  /** `coverPattern`, `videoPattern`, `playlistPattern` and `query.replace(playlistPattern, '')`. */
  datatype Patterns = Patterns(
    cover: string -> bool,
    video: string -> bool,
    playlist: string -> bool,
    stripPlaylist: string -> string)

  /** isCoverTrack: the cover pattern matches the title or the author. */
  predicate IsCover(pat: Patterns, t: Track) {
    pat.cover(t.title) || pat.cover(t.author)
  }

  const ShortsTag: string := "#shorts"

  /** Upper-case ASCII letters to lower case; `/i` without the `u` flag folds nothing else onto ASCII. */
  function AsciiLower(c: char): (r: char)
    ensures 'A' <= c <= 'Z' ==> r as int == c as int + 32
    ensures !('A' <= c <= 'Z') ==> r == c
  {
    if 'A' <= c <= 'Z' then (c as int + 32) as char else c
  }

  /** `#shorts` starts at `i`, in any letter case. */
  predicate ShortsTagAt(title: string, i: nat) {
    i + |ShortsTag| <= |title| && forall k :: 0 <= k < |ShortsTag| ==> AsciiLower(title[i + k]) == ShortsTag[k]
  }

  /** `/#shorts/i.test(title)`. */
  predicate HasShortsTag(title: string) {
    exists i: nat :: i + |ShortsTag| <= |title| && ShortsTagAt(title, i)
  }

  /** isShortsTrack: at most a minute long (but not 0), or tagged #shorts. */
  predicate IsShorts(t: Track) {
    (t.duration > 0 && t.duration <= 60000) || HasShortsTag(t.title)
  }

  /** The tag is found whatever its letter case. */
  lemma ShortsTagAnyCase()
    ensures HasShortsTag("Best moments #Shorts")
    ensures HasShortsTag("#SHORTS")
    ensures !HasShortsTag("#short")
  {
    assert ShortsTagAt("Best moments #Shorts", 13);
    assert ShortsTagAt("#SHORTS", 0);
  }

  /** The title as `/i` compares it: ASCII capitals lowered, everything else kept. */
  function LowerAsciiTitle(title: string): (r: string)
    ensures |r| == |title| && forall i :: 0 <= i < |title| ==> r[i] == AsciiLower(title[i])
  {
    seq(|title|, i requires 0 <= i < |title| => AsciiLower(title[i]))
  }

  /** Lowering twice is lowering once. */
  lemma AsciiLowerIdempotent(c: char)
    ensures AsciiLower(AsciiLower(c)) == AsciiLower(c)
  {
  }

  /** The lowered title holds "#shorts" from position `i`. */
  predicate LoweredTagAt(title: string, i: nat) {
    i + |ShortsTag| <= |title| && LowerAsciiTitle(title)[i..i + |ShortsTag|] == ShortsTag
  }

  /** The tag is found at a position exactly when the lowered title holds "#shorts" there. */
  lemma ShortsTagAtIsLoweredSlice(title: string, i: nat)
    ensures ShortsTagAt(title, i) <==> LoweredTagAt(title, i)
  {
    if i + |ShortsTag| <= |title| {
      var low := LowerAsciiTitle(title)[i..i + |ShortsTag|];
      if ShortsTagAt(title, i) {
        assert forall k :: 0 <= k < |ShortsTag| ==> low[k] == ShortsTag[k];
      }
      if low == ShortsTag {
        forall k | 0 <= k < |ShortsTag|
          ensures AsciiLower(title[i + k]) == ShortsTag[k]
        {
          assert low[k] == AsciiLower(title[i + k]);
        }
      }
    }
  }

  /** `/#shorts/i` matches exactly the titles whose lowered form contains "#shorts". */
  lemma ShortsTagIsLoweredSubstring(title: string)
    ensures HasShortsTag(title) <==> exists i: nat :: LoweredTagAt(title, i)
  {
    if HasShortsTag(title) {
      var i: nat :| i + |ShortsTag| <= |title| && ShortsTagAt(title, i);
      ShortsTagAtIsLoweredSlice(title, i);
    }
    if exists i: nat :: LoweredTagAt(title, i) {
      var i: nat :| LoweredTagAt(title, i);
      ShortsTagAtIsLoweredSlice(title, i);
    }
  }

  /** The tag ignores letter case: lowering the title never finds or loses it. */
  lemma ShortsTagIgnoresCase(title: string)
    ensures HasShortsTag(LowerAsciiTitle(title)) <==> HasShortsTag(title)
  {
    var low := LowerAsciiTitle(title);
    forall j | 0 <= j < |title|
      ensures AsciiLower(low[j]) == AsciiLower(title[j])
    {
      AsciiLowerIdempotent(title[j]);
    }
    forall i: nat | i + |ShortsTag| <= |title|
      ensures ShortsTagAt(low, i) <==> ShortsTagAt(title, i)
    {
      forall k | 0 <= k < |ShortsTag|
        ensures AsciiLower(low[i + k]) == ShortsTag[k] <==> AsciiLower(title[i + k]) == ShortsTag[k]
      {
        var j := i + k;
        assert AsciiLower(low[j]) == AsciiLower(title[j]);
      }
    }
  }

  /** A track is shorts only if it lasts at most a minute or carries the tag. */
  lemma LongUntaggedIsNotShorts(t: Track)
    requires t.duration > 60000 || t.duration == 0
    requires !HasShortsTag(t.title)
    ensures !IsShorts(t)
  {
  }

  /** The exclusions switched on by `excludeCover` and `excludeShorts`. */
  predicate Excluded(t: Track, excludeCover: bool, excludeShorts: bool, pat: Patterns) {
    (excludeCover && IsCover(pat, t)) || (excludeShorts && IsShorts(t))
  }

  /** The three `filter` branches of addTrackToQueue, as one. */
  function FilterTracks(tracks: seq<Track>, excludeCover: bool, excludeShorts: bool, pat: Patterns): (r: seq<Track>)
    ensures |r| <= |tracks|
    ensures forall t :: t in r <==> t in tracks && !Excluded(t, excludeCover, excludeShorts, pat)
    ensures !excludeCover && !excludeShorts ==> r == tracks
  {
    if tracks == [] then []
    else
      var rest := FilterTracks(tracks[1..], excludeCover, excludeShorts, pat);
      assert forall t :: t in tracks <==> t == tracks[0] || t in tracks[1..];
      if Excluded(tracks[0], excludeCover, excludeShorts, pat) then rest else [tracks[0]] + rest
  }

  /** Filtering works track by track, so it keeps the order: filtering a join joins the filtered parts. */
  lemma {:induction false} FilterJoin(a: seq<Track>, b: seq<Track>, excludeCover: bool, excludeShorts: bool, pat: Patterns)
    ensures FilterTracks(a + b, excludeCover, excludeShorts, pat)
      == FilterTracks(a, excludeCover, excludeShorts, pat) + FilterTracks(b, excludeCover, excludeShorts, pat)
  {
    if a == [] {
      assert a + b == b;
    } else {
      assert (a + b)[1..] == a[1..] + b;
      FilterJoin(a[1..], b, excludeCover, excludeShorts, pat);
    }
  }

  /** The options of addTrackToQueue, with their defaults applied. */
  datatype AddOptions = AddOptions(
    query: string,
    addFirst: bool,
    index: Option<int>,
    ignorePlaylist: bool,
    excludeCover: bool,
    excludeShorts: bool)

  /** What the checks read of the guild's player. */
  datatype PlayerView = PlayerView(playing: bool, paused: bool, queue: Queue)

  function ViewOf(players: map<string, Player>, guildId: string): Option<PlayerView>
    reads players.Values
  {
    if guildId in players then
      Some(PlayerView(players[guildId].playing, players[guildId].paused, players[guildId].queue))
    else None
  }

  /** Why a request is turned down, each with its own reply. */
  datatype Rejection =
    | IndexWhileIdle
    | IndexBeyondQueue(size: nat)
    | IgnorePlaylistOnStream
    | NotAPlaylistVideo
    | NotFound
    | AllFiltered(count: nat)
    | AllPlaylistFiltered(count: nat)
    | AddFirstWithIndex
    | NegativeIndex
    | NoVoiceChannel
    | OtherVoiceChannel

  /** Nothing is playing or paused and nothing waits. */
  predicate Idle(v: PlayerView) {
    !v.playing && !v.paused && Size(v.queue) == 0
  }

  predicate StreamIsCurrent(v: Option<PlayerView>) {
    v.Some? && v.value.queue.current.Some? && v.value.queue.current.value.isStream
  }

  /** The checks of addTrackToQueue before the search; Ok carries the query to search for. */
  function CheckOptions(opts: AddOptions, view: Option<PlayerView>, pat: Patterns): (r: Result<string, Rejection>)
    ensures opts.index.Some? && (view.None? || Idle(view.value)) ==> r == Err(IndexWhileIdle)
    ensures r.Ok? && opts.index.Some? ==> view.Some? && !Idle(view.value) && opts.index.value <= Size(view.value.queue)
    ensures r.Ok? && opts.ignorePlaylist ==>
      !StreamIsCurrent(view) && pat.video(opts.query) && pat.playlist(opts.query) && r.value == pat.stripPlaylist(opts.query)
    ensures r.Ok? && !opts.ignorePlaylist ==> r.value == opts.query
    ensures opts.index.None? && !opts.ignorePlaylist ==> r == Ok(opts.query)
  {
    if opts.index.Some? && (view.None? || Idle(view.value)) then Err(IndexWhileIdle)
    else if opts.index.Some? && opts.index.value > Size(view.value.queue) then Err(IndexBeyondQueue(Size(view.value.queue)))
    else if opts.ignorePlaylist && StreamIsCurrent(view) then Err(IgnorePlaylistOnStream)
    else if opts.ignorePlaylist then
      if pat.video(opts.query) && pat.playlist(opts.query) then Ok(pat.stripPlaylist(opts.query)) else Err(NotAPlaylistVideo)
    else Ok(opts.query)
  }

  /** `index == queue.size` is accepted: the track goes after the last waiting one. */
  lemma IndexAtEndAccepted(opts: AddOptions, v: PlayerView, pat: Patterns)
    requires opts.index == Some(Size(v.queue)) && !opts.ignorePlaylist && !Idle(v)
    ensures CheckOptions(opts, Some(v), pat) == Ok(opts.query)
  {
  }

  /** The result of `client.manager.search`: Track and Search results carry at least one track. */
  datatype SearchResult =
    | Empty
    | LoadFailed
    | Found(first: Track, rest: seq<Track>)
    | Playlist(tracks: seq<Track>, playlistTracks: Option<seq<Track>>)

  /** What will be added: one track, or a playlist's tracks. */
  datatype Admitted = Single(track: Track) | Many(tracks: seq<Track>)

  /** The tracks an admitted result adds. */
  function Items(a: Admitted): seq<Track> {
    match a
    case Single(t) => [t]
    case Many(ts) => ts
  }

  predicate Filtering(opts: AddOptions) {
    opts.excludeCover || opts.excludeShorts
  }

  function Keep(opts: AddOptions, pat: Patterns, tracks: seq<Track>): seq<Track> {
    FilterTracks(tracks, opts.excludeCover, opts.excludeShorts, pat)
  }

  /** The playlist's tracks after the first filter and the switch to `res.playlist.tracks`. */
  function PlaylistListed(opts: AddOptions, pat: Patterns, tracks: seq<Track>, playlistTracks: Option<seq<Track>>): seq<Track> {
    if playlistTracks.Some? then playlistTracks.value
    else if Filtering(opts) && tracks != [] then Keep(opts, pat, tracks)
    else tracks
  }

  /** `t` is the first of `tracks` that no filter excludes: every track before it is excluded. */
  predicate FirstKept(opts: AddOptions, pat: Patterns, tracks: seq<Track>, t: Track) {
    exists k :: 0 <= k < |tracks| && tracks[k] == t && !Excluded(t, opts.excludeCover, opts.excludeShorts, pat)
      && forall j :: 0 <= j < k ==> Excluded(tracks[j], opts.excludeCover, opts.excludeShorts, pat)
  }

  /** The head of the filtered list is the first track the filters let through. */
  lemma {:induction false} KeepFindsFirst(opts: AddOptions, pat: Patterns, tracks: seq<Track>)
    requires Keep(opts, pat, tracks) != []
    ensures FirstKept(opts, pat, tracks, Keep(opts, pat, tracks)[0])
  {
    if Excluded(tracks[0], opts.excludeCover, opts.excludeShorts, pat) {
      KeepFindsFirst(opts, pat, tracks[1..]);
      var t := Keep(opts, pat, tracks)[0];
      var k :| 0 <= k < |tracks[1..]| && tracks[1..][k] == t && !Excluded(t, opts.excludeCover, opts.excludeShorts, pat)
        && forall j :: 0 <= j < k ==> Excluded(tracks[1..][j], opts.excludeCover, opts.excludeShorts, pat);
      assert tracks[k + 1] == t;
      forall j | 0 <= j < k + 1
        ensures Excluded(tracks[j], opts.excludeCover, opts.excludeShorts, pat)
      {
        if j > 0 {
          assert tracks[j] == tracks[1..][j - 1];
        }
      }
    } else {
      assert Keep(opts, pat, tracks)[0] == tracks[0];
    }
  }

  /** The search result after the not-found check and the filters. */
  function Resolve(opts: AddOptions, pat: Patterns, res: SearchResult): (r: Result<Admitted, Rejection>)
    ensures (res.Empty? || res.LoadFailed?) <==> r == Err(NotFound)
    ensures r.Ok? && r.value.Single? ==>
      (res.Found? && r.value.track in [res.first] + res.rest
       && !Excluded(r.value.track, opts.excludeCover, opts.excludeShorts, pat))
    ensures r.Ok? && r.value.Single? && !Filtering(opts) ==> r.value.track == res.first
    ensures r.Ok? && r.value.Many? ==>
      (res.Playlist? && forall t :: t in r.value.tracks ==> !Excluded(t, opts.excludeCover, opts.excludeShorts, pat))
    ensures r.Ok? && r.value.Many? && res.playlistTracks.Some? ==>
      forall t :: t in r.value.tracks ==> t in res.playlistTracks.value
    ensures res.Found? && !Filtering(opts) ==> r == Ok(Single(res.first))
    ensures r.Ok? && r.value.Single? ==> FirstKept(opts, pat, [res.first] + res.rest, r.value.track)
    ensures r.Ok? && r.value.Many? ==>
      r.value.tracks == if Filtering(opts) then Keep(opts, pat, PlaylistListed(opts, pat, res.tracks, res.playlistTracks))
                        else PlaylistListed(opts, pat, res.tracks, res.playlistTracks)
  {
    match res
    case Empty => Err(NotFound)
    case LoadFailed => Err(NotFound)
    case Found(first, rest) =>
      if Filtering(opts) then
        var kept := Keep(opts, pat, [first] + rest);
        if kept == [] then Err(AllFiltered(1 + |rest|))
        else
          KeepFindsFirst(opts, pat, [first] + rest);
          Ok(Single(kept[0]))
      else
        assert ([first] + rest)[0] == first;
        Ok(Single(first))
    case Playlist(tracks, playlistTracks) =>
      if Filtering(opts) && tracks != [] && Keep(opts, pat, tracks) == [] then Err(AllFiltered(|tracks|))
      else
        var listed := PlaylistListed(opts, pat, tracks, playlistTracks);
        if Filtering(opts) && listed != [] then
          var kept := Keep(opts, pat, listed);
          if kept == [] then Err(AllPlaylistFiltered(|listed|)) else Ok(Many(kept))
        else Ok(Many(listed))
  }

  /** If every found track is excluded, the request is turned down and nothing is added. */
  lemma AllExcludedIsRejected(opts: AddOptions, pat: Patterns, first: Track, rest: seq<Track>)
    requires forall t :: t in [first] + rest ==> Excluded(t, opts.excludeCover, opts.excludeShorts, pat)
    requires Filtering(opts)
    ensures Resolve(opts, pat, Found(first, rest)) == Err(AllFiltered(1 + |rest|))
  {
    var kept := Keep(opts, pat, [first] + rest);
    if kept != [] {
      assert kept[0] in kept;
    }
  }

  /**
   * A playlist whose tracks are all excluded is turned down: by the first filter
   * when the result's own list is all excluded, otherwise by the second filter
   * when the playlist's list is.
   */
  lemma AllPlaylistExcludedIsRejected(opts: AddOptions, pat: Patterns, tracks: seq<Track>, playlistTracks: Option<seq<Track>>)
    requires Filtering(opts)
    ensures tracks != [] && (forall t :: t in tracks ==> Excluded(t, opts.excludeCover, opts.excludeShorts, pat)) ==>
      Resolve(opts, pat, Playlist(tracks, playlistTracks)) == Err(AllFiltered(|tracks|))
    ensures var listed := PlaylistListed(opts, pat, tracks, playlistTracks);
      (tracks == [] || Keep(opts, pat, tracks) != []) && listed != []
      && (forall t :: t in listed ==> Excluded(t, opts.excludeCover, opts.excludeShorts, pat)) ==>
      Resolve(opts, pat, Playlist(tracks, playlistTracks)) == Err(AllPlaylistFiltered(|listed|))
  {
    var kept := Keep(opts, pat, tracks);
    if tracks != [] && kept != [] {
      assert kept[0] in kept;
    }
    var listed := PlaylistListed(opts, pat, tracks, playlistTracks);
    var keptListed := Keep(opts, pat, listed);
    if listed != [] && keptListed != [] {
      assert keptListed[0] in keptListed;
    }
  }

  /** Where the tracks go: addFirst at 0, else at the given index, else at the end. */
  function Placement(addFirst: bool, index: Option<int>): (at: Option<int>)
    ensures addFirst ==> at == Some(0)
    ensures !addFirst ==> at == index
  {
    if addFirst then Some(0) else index
  }

  /** A single track starts playback when the player is idle and nothing waits after the add. */
  predicate TrackStarts(playing: bool, paused: bool, sizeAfter: nat) {
    !playing && !paused && sizeAfter == 0
  }

  /** A playlist starts playback when the player is idle and something waits after the add. */
  predicate PlaylistStarts(playing: bool, paused: bool, sizeAfter: nat) {
    !playing && !paused && sizeAfter > 0
  }

  /** On an idle, empty player a single track becomes current and starts. */
  lemma SingleTrackStartsOnEmptyPlayer(t: Track, at: Option<int>)
    ensures QueueAdd(Queue(None, []), [t], at) == Some(Queue(Some(t), []))
    ensures TrackStarts(false, false, Size(QueueAdd(Queue(None, []), [t], at).value))
  {
    var q: Queue := Queue(None, []);
    assert q.tracks + [t][1..] == [];
  }

  /**
   * On an idle, empty player a playlist of one track becomes current but does
   * not start, since nothing waits after it; two or more tracks start.
   */
  lemma PlaylistStartsOnEmptyPlayerIffTwoTracks(tracks: seq<Track>, at: Option<int>)
    requires tracks != []
    ensures PlaylistStarts(false, false, Size(QueueAdd(Queue(None, []), tracks, at).value)) <==> |tracks| >= 2
  {
  }

  /** A playlist of the play command starts playback when the player is idle and the queue holds exactly the added tracks. */
  predicate PlaylistStartsHere(playing: bool, paused: bool, sizeAfter: nat, added: nat) {
    !playing && !paused && sizeAfter == added
  }

  /** When `play()` follows the add: the single-track rule, addTrackToQueue's playlist rule, or the play command's. */
  datatype StartRule = SingleRule | PlaylistRule | ExactPlaylistRule(count: nat)

  predicate StartsUnder(rule: StartRule, playing: bool, paused: bool, sizeAfter: nat) {
    match rule
    case SingleRule => TrackStarts(playing, paused, sizeAfter)
    case PlaylistRule => PlaylistStarts(playing, paused, sizeAfter)
    case ExactPlaylistRule(count) => PlaylistStartsHere(playing, paused, sizeAfter, count)
  }

  /** How a request ends. `Failed`: an error escapes, from `queue.add` (a bad offset) or from `play()`. */
  datatype Outcome = Rejected(reason: Rejection) | NoPlayer | Added(tracks: seq<Track>, started: bool) | Failed

  /** The player a request works on: the guild's, or the idle, empty one createPlayer makes. */
  function ViewBefore(view: Option<PlayerView>): PlayerView {
    if view.Some? then view.value else PlayerView(false, false, Queue(None, []))
  }

  /**
   * `queue.add(items, at)` on a player in state `v`, then `play()` when the rule
   * says so for the queue's new size. Failed when `queue.add` throws or when
   * `play()` finds nothing current; otherwise the tracks and whether playback started.
   */
  function Enqueue(v: PlayerView, items: seq<Track>, at: Option<int>, rule: StartRule): Outcome {
    var after := QueueAdd(v.queue, items, at);
    if after.None? then Failed
    else
      var start := StartsUnder(rule, v.playing, v.paused, Size(after.value));
      if start && after.value.current.None? then Failed else Added(items, start)
  }

  /** An add fails only on an offset outside the queue, or when nothing is added to a queue with nothing current. */
  lemma EnqueueFailsOnlyOnBadOffsetOrNothingToPlay(v: PlayerView, items: seq<Track>, at: Option<int>, rule: StartRule)
    ensures Enqueue(v, items, at, rule) == Failed <==>
      QueueAdd(v.queue, items, at).None?
      || (items == [] && v.queue.current.None? && StartsUnder(rule, v.playing, v.paused, Size(v.queue)))
  {
  }

  /** The start rule of addTrackToQueue for what was found. */
  function RuleOf(a: Admitted): StartRule {
    if a.Single? then SingleRule else PlaylistRule
  }

  /** How addTrackToQueue ends, from the guild's player before the request (None: there is none yet). */
  function AddTrackOutcome(opts: AddOptions, pat: Patterns, search: string -> SearchResult, view: Option<PlayerView>,
                           canCreate: bool): Outcome {
    var checked := CheckOptions(opts, view, pat);
    if checked.Err? then Rejected(checked.error)
    else
      var resolved := Resolve(opts, pat, search(checked.value));
      if resolved.Err? then Rejected(resolved.error)
      else if view.None? && !canCreate then NoPlayer
      else Enqueue(ViewBefore(view), Items(resolved.value), Placement(opts.addFirst, opts.index), RuleOf(resolved.value))
  }

  /**
   * addTrackToQueue fails only when a negative index slips through its checks to
   * `queue.add`, or when a playlist with no tracks meets a queue with nothing to play.
   */
  lemma AddTrackFailsOnlyOnNegativeIndexOrEmptyPlaylist(opts: AddOptions, pat: Patterns, search: string -> SearchResult,
                                                        view: Option<PlayerView>, canCreate: bool)
    requires AddTrackOutcome(opts, pat, search, view, canCreate) == Failed
    ensures CheckOptions(opts, view, pat).Ok?
    ensures (!opts.addFirst && opts.index.Some? && opts.index.value < 0)
      || Resolve(opts, pat, search(CheckOptions(opts, view, pat).value)) == Ok(Many([]))
  {
    var checked := CheckOptions(opts, view, pat);
    var resolved := Resolve(opts, pat, search(checked.value));
    EnqueueFailsOnlyOnBadOffsetOrNothingToPlay(ViewBefore(view), Items(resolved.value),
      Placement(opts.addFirst, opts.index), RuleOf(resolved.value));
  }

  /**
   * addTrackToQueue. `search` is `client.manager.search`; `canCreate` is whether
   * createPlayer gives a player (it gives none when the bot lacks permissions or
   * creation throws); `voiceChannelId`, `textChannelId` and `volume` are what it
   * passes to `manager.create`.
   */
  method AddTrackToQueue(m: Manager, guildId: string, opts: AddOptions, pat: Patterns, search: string -> SearchResult,
                         canCreate: bool, voiceChannelId: Option<string>, textChannelId: string, volume: int)
    returns (o: Outcome)
    requires m.Valid()
    modifies m, m.players.Values
    ensures m.Valid()
    ensures o == AddTrackOutcome(opts, pat, search, old(ViewOf(m.players, guildId)), canCreate)
    ensures o.Rejected? || o == NoPlayer ==> m.players == old(m.players)
    ensures forall p :: p in old(m.players.Values) && (p.guildId != guildId || o.Rejected? || o == Failed) ==> unchanged(p)
    ensures o.Added? || o == Failed ==> guildId in m.players && (guildId in old(m.players) ==> m.players == old(m.players))
    ensures o.Added? ==>
      QueueAdd(old(QueueBefore(m.players, guildId)), o.tracks, Placement(opts.addFirst, opts.index)).Some?
      && m.players[guildId].queue == QueueAdd(old(QueueBefore(m.players, guildId)), o.tracks, Placement(opts.addFirst, opts.index)).value
    ensures o.Added? && o.started ==> m.players[guildId].playing && !m.players[guildId].paused
    ensures o == Failed ==> m.players[guildId].queue == old(QueueBefore(m.players, guildId))
  {
    var view := ViewOf(m.players, guildId);
    var checked := CheckOptions(opts, view, pat);
    if checked.Err? {
      return Rejected(checked.error);
    }
    var resolved := Resolve(opts, pat, search(checked.value));
    if resolved.Err? {
      return Rejected(resolved.error);
    }
    var p: Player;
    if guildId in m.players {
      p := m.players[guildId];
    } else {
      if !canCreate {
        return NoPlayer;
      }
      p := m.Create(guildId, Some(textChannelId), voiceChannelId, volume);
      p.Connect();
    }
    assert ViewBefore(view) == PlayerView(p.playing, p.paused, p.queue);
    var items := Items(resolved.value);
    var ok := p.Add(items, Placement(opts.addFirst, opts.index));
    if !ok {
      return Failed;
    }
    var start := StartsUnder(RuleOf(resolved.value), p.playing, p.paused, Size(p.queue));
    var started := false;
    if start {
      started := p.Play();
      if !started {
        return Failed;
      }
    }
    return Added(items, started);
  }

  /** The end both footers share: the waiting time of the queue, in brackets. */
  function WaitingTail(q: Queue): (r: string)
    ensures EndsWith(r, MsToTime(TotalDuration(q.tracks)) + ")")
  {
    RemainingTimeIsWaitingTime(q);
    EndsWithLast("곡 (", MsToTime(RemainingTime(q)) + ")");
    "곡 (" + (MsToTime(RemainingTime(q)) + ")")
  }

  /** The footer of a playlist embed: the added tracks and their time, then the queue and its waiting time. */
  function PlaylistFooter(tracks: seq<Track>, q: Queue): (r: string)
    ensures EndsWith(r, MsToTime(TotalDuration(q.tracks)) + ")")
  {
    var head := "추가된 음악 " + NatToString(|tracks|) + "곡 (" + MsToTime(TotalDuration(tracks)) + ") | 대기열에 "
      + NatToString(Size(q));
    EndsWithAfter(head, WaitingTail(q), MsToTime(TotalDuration(q.tracks)) + ")");
    head + WaitingTail(q)
  }

  /** The footer of a single-track embed: the track's time (or live), then the queue and its waiting time. */
  function TrackFooter(t: Track, q: Queue, added: bool): (r: string)
    ensures EndsWith(r, MsToTime(TotalDuration(q.tracks)) + ")")
  {
    var head := (if added then "추가된" else "재생중인") + " 음악 (" + (if t.isStream then "실시간 스트리밍" else MsToTime(t.duration))
      + ") | 대기열에 " + NatToString(Size(q));
    EndsWithAfter(head, WaitingTail(q), MsToTime(TotalDuration(q.tracks)) + ")");
    head + WaitingTail(q)
  }

  /** The pieces of the emoji progress bar (the `PROGRESS_*` settings). */
  datatype Segment = CircleStart | FilledStart | FilledMiddle | CircleMiddle | UnfilledMiddle | UnfilledEnd

  /** The default emoji of each piece. */
  function SegmentText(s: Segment): string {
    match s
    case CircleStart => "<:progress_circle_start:1411859909842309180>"
    case CircleMiddle => "<:progress_circle_middle:1411859900723892305>"
    case FilledStart => "<:progress_filled_start:1411859892268175431>"
    case UnfilledMiddle => "<:progress_unfilled_middle:1411859885175607306>"
    case UnfilledEnd => "<:progress_unfilled_end:1411859876182757527>"
    case FilledMiddle => "<:progress_filled_middle:1411859864921182329>"
  }

  /** Slot `i` of a bar of `n` slots at `progress`. */
  function Slot(i: int, n: int, progress: int): Segment {
    if i == 0 then (if i < progress then FilledStart else CircleStart)
    else if i == n - 1 then (if i < progress then FilledMiddle else UnfilledEnd)
    else if i == progress then CircleMiddle
    else if i < progress then FilledMiddle
    else UnfilledMiddle
  }

  /** The first `k` slots of the bar, as text. */
  function EmojiBarUpTo(k: nat, n: int, progress: int): string {
    if k == 0 then "" else EmojiBarUpTo(k - 1, n, progress) + SegmentText(Slot(k - 1, n, progress))
  }

  /** The whole emoji bar: `n` slots, none when `n` is not positive. */
  function EmojiBar(n: int, progress: int): string {
    if n <= 0 then "" else EmojiBarUpTo(n, n, progress)
  }

  predicate IsCircle(s: Segment) {
    s == CircleStart || s == CircleMiddle
  }

  /** How many of the first `k` slots show the position circle. */
  function CirclesUpTo(k: nat, n: int, progress: int): nat {
    if k == 0 then 0 else CirclesUpTo(k - 1, n, progress) + (if IsCircle(Slot(k - 1, n, progress)) then 1 else 0)
  }

  lemma {:induction false} CirclesUpToCount(k: nat, n: int, progress: int)
    requires 2 <= n && k <= n
    ensures CirclesUpTo(k, n, progress) ==
      if (progress <= 0 && k >= 1) || (1 <= progress <= n - 2 && progress < k) then 1 else 0
  {
    if k > 0 {
      CirclesUpToCount(k - 1, n, progress);
    }
  }

  /**
   * A bar of two or more slots shows the position circle exactly once while
   * progress is below its last slot, and not at all from the last slot on.
   */
  lemma CircleShownOnce(n: int, progress: int)
    requires n >= 2
    ensures CirclesUpTo(n, n, progress) == if progress <= n - 2 then 1 else 0
  {
    CirclesUpToCount(n, n, progress);
  }

  const BarChar: char := '▬'
  const Indicator: char := '\U{1F518}'

  function Repeat(c: char, n: nat): (r: string)
    ensures |r| == n && forall i :: 0 <= i < n ==> r[i] == c
  {
    if n == 0 then "" else Repeat(c, n - 1) + [c]
  }

  /** `Math.min(Math.max(x, 0), n)`, as `substring` clamps its arguments. */
  function Clamp(x: int, n: nat): (r: nat)
    ensures r <= n
  {
    if x < 0 then 0 else if x > n then n else x
  }

  /** `bar.substring(0, progress) + indicator + bar.substring(progress + 1)`. */
  function PlainBar(n: nat, progress: int): (r: string)
    ensures 0 <= progress < n ==>
      (|r| == n && r[progress] == Indicator && forall i :: 0 <= i < n && i != progress ==> r[i] == BarChar)
    ensures progress >= n ==> |r| == n + 1 && r[n] == Indicator
  {
    Repeat(BarChar, Clamp(progress, n)) + [Indicator] + Repeat(BarChar, n - Clamp(progress + 1, n))
  }

  /** The loop of createProgressBar that lays out the emoji slots. */
  method BuildEmojiBar(barLength: int, progress: int) returns (progressBar: string)
    ensures progressBar == EmojiBar(barLength, progress)
  {
    progressBar := "";
    var i := 0;
    while i < barLength
      invariant 0 <= i && (barLength > 0 ==> i <= barLength) && (barLength <= 0 ==> i == 0)
      invariant progressBar == EmojiBarUpTo(i, barLength, progress)
    {
      if i == 0 {
        progressBar := progressBar + (if i < progress then SegmentText(FilledStart) else SegmentText(CircleStart));
      } else if i == barLength - 1 {
        progressBar := progressBar + (if i < progress then SegmentText(FilledMiddle) else SegmentText(UnfilledEnd));
      } else if i == progress {
        progressBar := progressBar + SegmentText(CircleMiddle);
      } else if i < progress {
        progressBar := progressBar + SegmentText(FilledMiddle);
      } else {
        progressBar := progressBar + SegmentText(UnfilledMiddle);
      }
      i := i + 1;
    }
  }

  /** createProgressBar; `progress` is `Math.round(current / total * barLength)`. */
  method CreateProgressBar(track: Option<Track>, position: nat, barLength: int, useEmoji: bool, progress: int)
    returns (s: string)
    requires !useEmoji ==> barLength >= 0
    ensures track.None? || track.value.isStream ==> s == ""
    ensures track.Some? && !track.value.isStream && useEmoji ==>
      s == MsToTime(position) + " " + EmojiBar(barLength, progress) + " " + MsToTime(track.value.duration)
    ensures track.Some? && !track.value.isStream && !useEmoji ==>
      s == MsToTime(position) + " " + PlainBar(barLength, progress) + " " + MsToTime(track.value.duration)
  {
    if track.None? || track.value.isStream {
      return "";
    }
    var total := track.value.duration;
    if useEmoji {
      var progressBar := BuildEmojiBar(barLength, progress);
      return MsToTime(position) + " " + progressBar + " " + MsToTime(total);
    } else {
      var bar := Repeat(BarChar, barLength);
      var before := bar[..Clamp(progress, barLength)];
      var after := bar[Clamp(progress + 1, barLength)..];
      assert before == Repeat(BarChar, Clamp(progress, barLength));
      assert after == Repeat(BarChar, barLength - Clamp(progress + 1, barLength));
      return MsToTime(position) + " " + (before + [Indicator] + after) + " " + MsToTime(total);
    }
  }
}
