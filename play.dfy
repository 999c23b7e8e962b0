/**
 * The play command (src/commands/play.ts): its own option checks, in its own
 * order, then the search, createPlayer, the placement and the start of playback.
 * Unlike addTrackToQueue it has no cover or shorts filter, it rejects addFirst
 * together with an index and a negative index, and it starts a playlist only
 * when the queue holds exactly the added tracks.
 */
module PlayCommand {
  import opened Wrappers
  import opened Tracks
  import opened Players
  import opened Guards
  import opened Admission

  /** The command's options: `query`, `addfirst` (default false), `index`, `ignoreplaylist` (default false). */
  datatype PlayOptions = PlayOptions(query: string, addFirst: bool, index: Option<int>, ignorePlaylist: bool)

  /** The same request as addTrackToQueue options, with both filters off. */
  function AsAddOptions(opts: PlayOptions): AddOptions {
    AddOptions(opts.query, opts.addFirst, opts.index, opts.ignorePlaylist, false, false)
  }

  /** The checks between the voice guards and the search; Ok carries the query to search for. */
  function CheckPlayOptions(opts: PlayOptions, view: Option<PlayerView>, pat: Patterns): (r: Result<string, Rejection>)
    ensures opts.ignorePlaylist && !(pat.video(opts.query) && pat.playlist(opts.query)) ==> r == Err(NotAPlaylistVideo)
    ensures r.Ok? ==> !(opts.addFirst && opts.index.Some?)
    ensures r.Ok? && opts.index.Some? ==>
      (0 <= opts.index.value && view.Some? && !Idle(view.value) && opts.index.value <= Size(view.value.queue))
    ensures r.Ok? && opts.ignorePlaylist ==> (!StreamIsCurrent(view) && r.value == pat.stripPlaylist(opts.query))
    ensures r.Ok? && !opts.ignorePlaylist ==> r.value == opts.query
    ensures opts.index.None? && !opts.ignorePlaylist ==> r == Ok(opts.query)
  {
    if opts.ignorePlaylist && !(pat.video(opts.query) && pat.playlist(opts.query)) then Err(NotAPlaylistVideo)
    else
      var query := if opts.ignorePlaylist then pat.stripPlaylist(opts.query) else opts.query;
      if opts.addFirst && opts.index.Some? then Err(AddFirstWithIndex)
      else if opts.index.Some? && opts.index.value < 0 then Err(NegativeIndex)
      else if opts.index.Some? && (view.None? || Idle(view.value)) then Err(IndexWhileIdle)
      else if opts.index.Some? && opts.index.value > Size(view.value.queue) then Err(IndexBeyondQueue(Size(view.value.queue)))
      else if opts.ignorePlaylist && StreamIsCurrent(view) then Err(IgnorePlaylistOnStream)
      else Ok(query)
  }

  /** Whatever the play command lets through, addTrackToQueue lets through too, with the same query. */
  lemma PlayChecksAtLeastAsStrict(opts: PlayOptions, view: Option<PlayerView>, pat: Patterns)
    requires CheckPlayOptions(opts, view, pat).Ok?
    ensures CheckOptions(AsAddOptions(opts), view, pat) == CheckPlayOptions(opts, view, pat)
  {
  }

  /**
   * A negative index is turned down by the play command, while addTrackToQueue
   * lets it through to `queue.add`, whose offset check then fails.
   */
  lemma NegativeIndexOnlyCaughtByPlay(t: Track, playing: Track, pat: Patterns)
    ensures var opts := PlayOptions("q", false, Some(-1), false);
      var view := Some(PlayerView(true, false, Queue(Some(playing), [t])));
      CheckPlayOptions(opts, view, pat) == Err(NegativeIndex)
      && CheckOptions(AsAddOptions(opts), view, pat) == Ok("q")
      && QueueAdd(view.value.queue, [t], Some(-1)).None?
  {
  }

  /**
   * On an idle player with an empty queue the first added track becomes current,
   * so the queue holds one track fewer than were added and the playlist never starts.
   */
  lemma PlaylistNeverStartsOnEmptyPlayer(tracks: seq<Track>, at: Option<int>)
    requires tracks != []
    ensures !PlaylistStartsHere(false, false, Size(QueueAdd(Queue(None, []), tracks, at).value), |tracks|)
  {
  }

  /** With a current track and nothing waiting, a stopped player starts an appended playlist. */
  lemma PlaylistStartsAfterCurrent(current: Track, tracks: seq<Track>)
    ensures PlaylistStartsHere(false, false, Size(QueueAdd(Queue(Some(current), []), tracks, None).value), |tracks|)
  {
  }

  /** The start rule of the play command for what was found. */
  function PlayRuleOf(a: Admitted): StartRule {
    if a.Single? then SingleRule else ExactPlaylistRule(|a.tracks|)
  }

  /** The rejection the checks before createPlayer give, if any. */
  function Precheck(players: map<string, Player>, guildId: string, memberChannel: Option<string>, opts: PlayOptions,
                    pat: Patterns, search: string -> SearchResult): Result<Admitted, Rejection>
    reads players.Values
  {
    if !InVoice(memberChannel) then Err(NoVoiceChannel)
    else if !SameVoice(players, guildId, memberChannel) then Err(OtherVoiceChannel)
    else
      var checked := CheckPlayOptions(opts, ViewOf(players, guildId), pat);
      if checked.Err? then Err(checked.error)
      else Resolve(AsAddOptions(opts), pat, search(checked.value))
  }

  /** How the play command ends, from its prechecks and the guild's player before the request. */
  function PlayOutcome(pre: Result<Admitted, Rejection>, view: Option<PlayerView>, canCreate: bool, opts: PlayOptions): Outcome {
    if pre.Err? then Rejected(pre.error)
    else if !canCreate then NoPlayer
    else Enqueue(ViewBefore(view), Items(pre.value), Placement(opts.addFirst, opts.index), PlayRuleOf(pre.value))
  }

  /**
   * Past its own checks the play command fails only on a playlist with no
   * tracks: a negative index never reaches `queue.add`, and anything added to a
   * queue with nothing current becomes current.
   */
  lemma PlayFailsOnlyOnEmptyPlaylist(opts: PlayOptions, view: Option<PlayerView>, pat: Patterns, res: SearchResult, canCreate: bool)
    requires CheckPlayOptions(opts, view, pat).Ok?
    ensures var pre := Resolve(AsAddOptions(opts), pat, res);
      PlayOutcome(pre, view, canCreate, opts) == Failed ==> pre == Ok(Many([]))
  {
    var pre := Resolve(AsAddOptions(opts), pat, res);
    if pre.Ok? && canCreate {
      EnqueueFailsOnlyOnBadOffsetOrNothingToPlay(ViewBefore(view), Items(pre.value),
        Placement(opts.addFirst, opts.index), PlayRuleOf(pre.value));
    }
  }

  /**
   * The play command. `search` is `client.manager.search`; `canCreate` is whether
   * createPlayer gives a player (false when `manager.create` or `connect` throws);
   * `textChannelId` and `volume` are what it passes to `manager.create`.
   */
  method Execute(m: Manager, guildId: string, memberChannel: Option<string>, opts: PlayOptions, pat: Patterns,
              search: string -> SearchResult, canCreate: bool, textChannelId: string, volume: int)
    returns (o: Outcome)
    requires m.Valid()
    modifies m, m.players.Values
    ensures m.Valid()
    ensures o == old(PlayOutcome(Precheck(m.players, guildId, memberChannel, opts, pat, search), ViewOf(m.players, guildId), canCreate, opts))
    ensures o.Rejected? || o == NoPlayer ==> m.players == old(m.players)
    ensures forall p :: p in old(m.players.Values) && (p.guildId != guildId || o.Rejected? || o == NoPlayer) ==> unchanged(p)
    ensures o.Added? || o == Failed ==> guildId in m.players && (guildId in old(m.players) ==> m.players == old(m.players))
    ensures o.Added? ==>
      QueueAdd(old(QueueBefore(m.players, guildId)), o.tracks, Placement(opts.addFirst, opts.index)).Some?
      && m.players[guildId].queue == QueueAdd(old(QueueBefore(m.players, guildId)), o.tracks, Placement(opts.addFirst, opts.index)).value
    ensures o.Added? && o.started ==> m.players[guildId].playing && !m.players[guildId].paused
    ensures o == Failed ==> m.players[guildId].queue == old(QueueBefore(m.players, guildId))
  {
    var pre := Precheck(m.players, guildId, memberChannel, opts, pat, search);
    if pre.Err? {
      return Rejected(pre.error);
    }
    if !canCreate {
      return NoPlayer;
    }
    ghost var before := ViewBefore(ViewOf(m.players, guildId));
    var p := m.Create(guildId, Some(textChannelId), memberChannel, volume);
    if !p.connected {
      p.Connect();
    }
    assert before == PlayerView(p.playing, p.paused, p.queue);
    var items := Items(pre.value);
    var ok := p.Add(items, Placement(opts.addFirst, opts.index));
    if !ok {
      return Failed;
    }
    var started := false;
    if StartsUnder(PlayRuleOf(pre.value), p.playing, p.paused, Size(p.queue)) {
      started := p.Play();
      if !started {
        return Failed;
      }
    }
    return Added(items, started);
  }
}
