/**
 * The magmastream player and queue, only as far as the bot's code calls them.
 * The library itself is not part of this model; the behaviour below is the one
 * the bot relies on:
 *  - `queue.add` on a queue without a current track makes the first added track
 *    current and appends the rest; with a current track it inserts at the given
 *    offset (an offset outside [0, size] is a RangeError) or appends;
 *  - `queue.size` counts the waiting tracks, `queue.duration` also counts the
 *    current one (the comment at src/utils/music/playerUtils.ts:189 says so);
 *  - `setTrackRepeat(true)` / `setQueueRepeat(true)` switch the other mode off,
 *    and either setter with `false` switches both off;
 *  - `play()` throws when there is no current track;
 *  - `stop(n)` throws unless 1 <= n <= size; otherwise it drops the n - 1 tracks
 *    waiting before the n-th, and the library's track-end handling then plays
 *    the n-th (the model takes that net effect and leaves repeat modes aside);
 *  - `manager.create` returns the guild's existing player if there is one, and
 *    `destroy` removes the guild's entry from `manager.players`.
 */
module Players {
  import opened Wrappers
  import opened Tracks
  import opened Fingerprints

  /** A queue: the current track and the tracks waiting after it. */
  datatype Queue = Queue(current: Option<Track>, tracks: seq<Track>)

  function AllTracks(q: Queue): seq<Track> {
    (if q.current.Some? then [q.current.value] else []) + q.tracks
  }

  /** `queue.size`. */
  function Size(q: Queue): nat {
    |q.tracks|
  }

  /** `queue.duration`: the current track's duration plus those of the waiting tracks. */
  function Duration(q: Queue): nat {
    TotalDuration(AllTracks(q))
  }

  /** The queue-time arithmetic of getEmbedMeta: `queue.duration` minus the current track's duration. */
  function RemainingTime(q: Queue): int {
    if q.current.Some? then Duration(q) - q.current.value.duration else Duration(q)
  }

  /** What is left after the current track is exactly the waiting tracks' total time. */
  lemma RemainingTimeIsWaitingTime(q: Queue)
    ensures RemainingTime(q) == TotalDuration(q.tracks)
  {
    if q.current.Some? {
      TotalDurationAppend([q.current.value], q.tracks);
      assert TotalDuration([q.current.value]) == q.current.value.duration by {
        assert [q.current.value][..0] == [];
      }
    } else {
      assert AllTracks(q) == q.tracks;
    }
  }

  /** `queue.add(items, at)`; None is the library's RangeError for a bad offset. */
  function QueueAdd(q: Queue, items: seq<Track>, at: Option<int>): (r: Option<Queue>)
    ensures r.None? <==> q.current.Some? && at.Some? && !(0 <= at.value <= |q.tracks|)
    ensures r.Some? && q.current.Some? ==> r.value.current == q.current
    ensures r.Some? && q.current.Some? && at.Some? ==>
      r.value.tracks == q.tracks[..at.value] + items + q.tracks[at.value..]
    ensures r.Some? && q.current.Some? && at.None? ==> r.value.tracks == q.tracks + items
    ensures r.Some? && q.current.None? && items != [] ==> r.value == Queue(Some(items[0]), q.tracks + items[1..])
    ensures q.current.None? && items == [] ==> r == Some(q)
  {
    if q.current.None? then
      if items == [] then Some(q)
      else
        Some(Queue(Some(items[0]), q.tracks + items[1..]))
    else if at.None? then Some(Queue(q.current, q.tracks + items))
    else if 0 <= at.value <= |q.tracks| then
      Some(Queue(q.current, q.tracks[..at.value] + items + q.tracks[at.value..]))
    else None
  }

  /** Adding never loses or invents a track: the queue's contents grow by exactly the added tracks. */
  lemma QueueAddKeepsTracks(q: Queue, items: seq<Track>, at: Option<int>)
    requires QueueAdd(q, items, at).Some?
    ensures multiset(AllTracks(QueueAdd(q, items, at).value)) == multiset(AllTracks(q)) + multiset(items)
  {
    var r := QueueAdd(q, items, at).value;
    if q.current.None? {
      if items != [] {
        FirstBecomesCurrent(q.tracks, items);
        assert AllTracks(q) == q.tracks;
      }
    } else if at.Some? {
      InsertKeeps([q.current.value], q.tracks, items, at.value);
    } else {
      assert AllTracks(r) == AllTracks(q) + items;
    }
  }

  lemma FirstBecomesCurrent(waiting: seq<Track>, items: seq<Track>)
    requires items != []
    ensures multiset(AllTracks(Queue(Some(items[0]), waiting + items[1..]))) == multiset(waiting) + multiset(items)
  {
    assert items == [items[0]] + items[1..];
    assert AllTracks(Queue(Some(items[0]), waiting + items[1..])) == [items[0]] + waiting + items[1..];
  }

  lemma InsertKeeps(c: seq<Track>, waiting: seq<Track>, items: seq<Track>, k: nat)
    requires k <= |waiting|
    ensures multiset(c + (waiting[..k] + items + waiting[k..])) == multiset(c + waiting) + multiset(items)
  {
    assert waiting == waiting[..k] + waiting[k..];
    assert c + (waiting[..k] + items + waiting[k..]) == c + waiting[..k] + items + waiting[k..];
  }

  /** The two repeat modes of a player. */
  datatype Repeat = Repeat(track: bool, queue: bool)

  /** The modes after `setTrackRepeat(enabled)`, whatever they were before. */
  function TrackRepeatSet(enabled: bool): (r: Repeat)
    ensures r.track == enabled && !r.queue
  {
    Repeat(enabled, false)
  }

  /** The modes after `setQueueRepeat(enabled)`, whatever they were before. */
  function QueueRepeatSet(enabled: bool): (r: Repeat)
    ensures r.queue == enabled && !r.track
  {
    Repeat(false, enabled)
  }

  /** A guild's player; `stoppedByCommand` and the histories live in its key-value store. */
  class Player {
    const guildId: string
    var textChannelId: Option<string>
    var voiceChannelId: Option<string>
    var volume: int
    var playing: bool
    var paused: bool
    var position: nat
    var repeat: Repeat
    var isAutoplay: bool
    var queue: Queue
    var connected: bool
    var destroyed: bool
    var stoppedByCommand: bool
    var autoplayEnabled: bool
    var playHistory: seq<Fingerprint>
    var autoplayHistory: seq<Fingerprint>

    /** `manager.create` for a guild without a player. */
    constructor (guildId: string, textChannelId: Option<string>, voiceChannelId: Option<string>, volume: int)
      ensures this.guildId == guildId && this.textChannelId == textChannelId
      ensures this.voiceChannelId == voiceChannelId && this.volume == volume
      ensures !playing && !paused && position == 0 && repeat == Repeat(false, false) && !isAutoplay
      ensures queue == Queue(None, []) && !connected && !destroyed && !stoppedByCommand
      ensures !autoplayEnabled && playHistory == [] && autoplayHistory == []
    {
      this.guildId := guildId;
      this.textChannelId := textChannelId;
      this.voiceChannelId := voiceChannelId;
      this.volume := volume;
      playing := false;
      paused := false;
      position := 0;
      repeat := Repeat(false, false);
      isAutoplay := false;
      queue := Queue(None, []);
      connected := false;
      destroyed := false;
      stoppedByCommand := false;
      autoplayEnabled := false;
      playHistory := [];
      autoplayHistory := [];
    }

    /** `queue.add(items, at)`; `ok` is false for the library's RangeError, which changes nothing. */
    method Add(items: seq<Track>, at: Option<int>) returns (ok: bool)
      modifies this`queue
      ensures ok == QueueAdd(old(queue), items, at).Some?
      ensures ok ==> queue == QueueAdd(old(queue), items, at).value
      ensures !ok ==> queue == old(queue)
    {
      var r := QueueAdd(queue, items, at);
      ok := r.Some?;
      if ok {
        queue := r.value;
      }
    }

    /** `queue.setCurrent(track)`. */
    method SetCurrent(track: Track)
      modifies this`queue
      ensures queue == old(queue).(current := Some(track))
    {
      queue := queue.(current := Some(track));
    }

    /** `queue.remove(index)`: drops the waiting track at `index`. */
    method Remove(index: nat)
      requires index < |queue.tracks|
      modifies this`queue
      ensures queue == Queue(old(queue).current, old(queue).tracks[..index] + old(queue).tracks[index + 1..])
    {
      queue := Queue(queue.current, queue.tracks[..index] + queue.tracks[index + 1..]);
    }

    /** `stop(count)`, taken with the library's handling of the track end: the `count`-th waiting track plays next. */
    method Stop(count: nat)
      requires 1 <= count <= |queue.tracks|
      modifies this`queue, this`position
      ensures queue == Queue(Some(old(queue).tracks[count - 1]), old(queue).tracks[count..])
      ensures position == 0
    {
      queue := Queue(Some(queue.tracks[count - 1]), queue.tracks[count..]);
      position := 0;
    }

    /** `seek(position)`. */
    method Seek(to: nat)
      modifies this`position
      ensures position == to
    {
      position := to;
    }

    /** `play()` starts the current track from the beginning; `ok` is false for the library's error when there is none. */
    method Play() returns (ok: bool)
      modifies this`playing, this`paused, this`position
      ensures ok == queue.current.Some?
      ensures ok ==> playing && !paused && position == 0
      ensures !ok ==> playing == old(playing) && paused == old(paused) && position == old(position)
    {
      ok := queue.current.Some?;
      if ok {
        playing := true;
        paused := false;
        position := 0;
      }
    }

    /** `pause(state)`. */
    method Pause(state: bool)
      modifies this`playing, this`paused
      ensures paused == state
      ensures playing == if old(paused) == state then old(playing) else !state
    {
      if paused != state {
        playing := !state;
        paused := state;
      }
    }

    method SetPlaybackState(playing: bool, paused: bool)
      modifies this`playing, this`paused
      ensures this.playing == playing && this.paused == paused
    {
      this.playing := playing;
      this.paused := paused;
    }

    method SetTrackRepeat(enabled: bool)
      modifies this`repeat
      ensures repeat == TrackRepeatSet(enabled)
    {
      repeat := TrackRepeatSet(enabled);
    }

    method SetQueueRepeat(enabled: bool)
      modifies this`repeat
      ensures repeat == QueueRepeatSet(enabled)
    {
      repeat := QueueRepeatSet(enabled);
    }

    method SetAutoplay(enabled: bool)
      modifies this`isAutoplay
      ensures isAutoplay == enabled
    {
      isAutoplay := enabled;
    }

    method Connect()
      modifies this`connected
      ensures connected
    {
      connected := true;
    }

    /** `player.set('stoppedByCommand', true)`. */
    method MarkStoppedByCommand()
      modifies this`stoppedByCommand
      ensures stoppedByCommand
    {
      stoppedByCommand := true;
    }

    /** `player.set('playHistory', h)`. */
    method SetPlayHistory(h: seq<Fingerprint>)
      modifies this`playHistory
      ensures playHistory == h
    {
      playHistory := h;
    }

    /** `player.set('autoplayHistory', h)`. */
    method SetAutoplayHistory(h: seq<Fingerprint>)
      modifies this`autoplayHistory
      ensures autoplayHistory == h
    {
      autoplayHistory := h;
    }
  }

  /** The queue of the player `manager.create` returns for a guild: the existing one's, or an empty one. */
  function QueueBefore(players: map<string, Player>, guildId: string): Queue
    reads players.Values
  {
    if guildId in players then players[guildId].queue else Queue(None, [])
  }

  /** The repeat modes of the player `manager.create` returns for a guild. */
  function RepeatBefore(players: map<string, Player>, guildId: string): Repeat
    reads players.Values
  {
    if guildId in players then players[guildId].repeat else Repeat(false, false)
  }

  /** `client.manager`: the players by guild id. */
  class Manager {
    var players: map<string, Player>

    predicate Valid()
      reads this, players.Values
    {
      forall g :: g in players ==> players[g].guildId == g
    }

    constructor ()
      ensures players == map[] && Valid()
    {
      players := map[];
    }

    /** `manager.create(...)`: the existing player of the guild, or a new one registered under it. */
    method Create(guildId: string, textChannelId: Option<string>, voiceChannelId: Option<string>, volume: int)
      returns (p: Player)
      requires Valid()
      modifies this
      ensures Valid()
      ensures guildId in old(players) ==> p == old(players)[guildId] && players == old(players)
      ensures guildId !in old(players) ==> fresh(p) && players == old(players)[guildId := p]
      ensures guildId !in old(players) ==> p.queue == Queue(None, []) && !p.playing && !p.paused
      ensures guildId !in old(players) ==> p.repeat == Repeat(false, false) && !p.isAutoplay && !p.connected
      ensures guildId !in old(players) ==> p.textChannelId == textChannelId && p.voiceChannelId == voiceChannelId
      ensures p.guildId == guildId
    {
      if guildId in players {
        p := players[guildId];
      } else {
        p := new Player(guildId, textChannelId, voiceChannelId, volume);
        players := players[guildId := p];
      }
    }

    /** `player.destroy()`: disconnects and drops the guild's entry from the registry. */
    method Destroy(p: Player)
      requires Valid()
      modifies this, p`destroyed, p`connected, p`playing
      ensures Valid()
      ensures players == old(players) - {p.guildId}
      ensures p.destroyed && !p.connected && !p.playing
      ensures p.queue == old(p.queue) && p.stoppedByCommand == old(p.stoppedByCommand)
      ensures p.repeat == old(p.repeat) && p.paused == old(p.paused)
    {
      p.destroyed := true;
      p.connected := false;
      p.playing := false;
      players := players - {p.guildId};
    }
  }
}
