/**
 * Player sessions saved across restarts (src/utils/music/sessionManager.ts).
 * The session directory is a map from file name to content, where `None` is a
 * file whose content does not parse; a failed write is the `written` parameter.
 * The clock, the Lavalink node and Discord's channel lookups are parameters.
 */
module Sessions {
  import opened Wrappers
  import opened Text
  import opened Tracks
  import opened Players

  /** What a session file holds. */
  datatype PlayerSession = PlayerSession(
    guildId: string,
    textChannelId: Option<string>,
    voiceChannelId: Option<string>,
    volume: int,
    paused: bool,
    trackRepeat: bool,
    queueRepeat: bool,
    isAutoplay: bool,
    currentTrack: Option<Track>,
    queue: seq<Track>,
    position: nat,
    timestamp: int)

  /** The session directory: file name to content, `None` for content that does not parse. */
  type Directory = map<string, Option<PlayerSession>>

  const Extension: string := ".json"

  /** `${guildId}.json`. */
  function FileName(guildId: string): (f: string)
    ensures EndsWith(f, Extension) && |f| == |guildId| + |Extension| && f[..|guildId|] == guildId
  {
    guildId + Extension
  }

  /** Different guilds never share a session file. */
  lemma FileNameInjective(g: string, h: string)
    requires FileName(g) == FileName(h)
    ensures g == h
  {
    assert g == FileName(g)[..|g|];
  }

  /** The snapshot savePlayerSession writes for a player at time `now`. */
  function Snapshot(p: Player, now: int): PlayerSession
    reads p
  {
    PlayerSession(p.guildId, p.textChannelId, p.voiceChannelId, p.volume, p.paused,
      p.repeat.track, p.repeat.queue, p.isAutoplay, p.queue.current, p.queue.tracks, p.position, now)
  }

  /** loadPlayerSession: null for a missing file and for one that does not parse. */
  function LoadFrom(dir: Directory, guildId: string): (r: Option<PlayerSession>)
    ensures r.Some? <==> FileName(guildId) in dir && dir[FileName(guildId)].Some?
  {
    if FileName(guildId) in dir then dir[FileName(guildId)] else None
  }

  /** The directory after a successful write of `s`. */
  function SavedTo(dir: Directory, s: PlayerSession): Directory {
    dir[FileName(s.guildId) := Some(s)]
  }

  /** The directory after deletePlayerSession; a missing file is ignored. */
  function DeletedFrom(dir: Directory, guildId: string): Directory {
    dir - {FileName(guildId)}
  }

  /** A saved session loads back unchanged, and saving touches no other guild's session. */
  lemma LoadAfterSave(dir: Directory, s: PlayerSession, g: string)
    ensures LoadFrom(SavedTo(dir, s), g) == if g == s.guildId then Some(s) else LoadFrom(dir, g)
  {
    if g != s.guildId && FileName(g) == FileName(s.guildId) {
      FileNameInjective(g, s.guildId);
    }
  }

  /** A deleted session no longer loads, and deleting touches no other guild's session. */
  lemma LoadAfterDelete(dir: Directory, guildId: string, g: string)
    ensures LoadFrom(DeletedFrom(dir, guildId), g) == if g == guildId then None else LoadFrom(dir, g)
  {
    if g != guildId && FileName(g) == FileName(guildId) {
      FileNameInjective(g, guildId);
    }
  }

  /** getAllSavedSessionIds over a directory listing: the ".json" names with their first ".json" removed. */
  function SessionIds(names: seq<string>): (ids: seq<string>)
    ensures |ids| <= |names|
    ensures forall j :: 0 <= j < |names| && EndsWith(names[j], Extension) ==> ReplaceFirst(names[j], Extension, "") in ids
    ensures forall id :: id in ids ==> exists j :: 0 <= j < |names| && EndsWith(names[j], Extension) && id == ReplaceFirst(names[j], Extension, "")
  {
    if names == [] then []
    else
      var rest := SessionIds(names[1..]);
      assert forall j :: 1 <= j < |names| ==> names[j] == names[1..][j - 1];
      if EndsWith(names[0], Extension) then [ReplaceFirst(names[0], Extension, "")] + rest else rest
  }

  /** Discord guild ids are digit strings: ".json" cannot start inside them. */
  lemma DigitsHideNoExtension(g: string)
    requires AllDigits(g)
    ensures forall i :: 0 <= i < |g| ==> !OccursAt(g + Extension, Extension, i)
  {
    forall i | 0 <= i < |g|
      ensures !OccursAt(g + Extension, Extension, i)
    {
      assert (g + Extension)[i] == g[i] && IsDigit(g[i]);
    }
  }

  /** The listing of the files saved for digit-only guild ids gives those ids back, in order. */
  lemma {:induction false} SessionIdsOfFileNames(guildIds: seq<string>)
    requires forall i :: 0 <= i < |guildIds| ==> AllDigits(guildIds[i])
    ensures SessionIds(seq(|guildIds|, i requires 0 <= i < |guildIds| => FileName(guildIds[i]))) == guildIds
  {
    var names := seq(|guildIds|, i requires 0 <= i < |guildIds| => FileName(guildIds[i]));
    if guildIds != [] {
      var tailNames := seq(|guildIds| - 1, i requires 0 <= i < |guildIds| - 1 => FileName(guildIds[1..][i]));
      assert names[1..] == tailNames;
      SessionIdsOfFileNames(guildIds[1..]);
      DigitsHideNoExtension(guildIds[0]);
      ReplaceFirstOfSuffix(guildIds[0], Extension);
      assert EndsWith(names[0], Extension);
    }
  }

  /** A snapshot older than five minutes is discarded. */
  const StaleAfterMs: int := 5 * 60 * 1000

  /** `Date.now() - session.timestamp > 5 * 60 * 1000`. */
  predicate Stale(now: int, timestamp: int) {
    now - timestamp > StaleAfterMs
  }

  /** A falsy channel id: missing or "". */
  predicate Missing(id: Option<string>) {
    id.None? || id.value == ""
  }

  /** The ladder of restorePlayerSession before a player is created. */
  datatype Verdict = NoNode | NoChannel | VoiceChannelGone | TextChannelGone | Restore

  /**
   * The checks in order: a usable node, both channel ids present, the voice
   * channel resolving, the text channel resolving. `resolves(id)` is whether
   * `client.channels.fetch(id)` gives a channel (a rejection counts as none).
   */
  function Check(s: PlayerSession, nodeAvailable: bool, resolves: string -> bool): (v: Verdict)
    ensures v == Restore <==>
      nodeAvailable && !Missing(s.voiceChannelId) && !Missing(s.textChannelId)
      && resolves(s.voiceChannelId.value) && resolves(s.textChannelId.value)
    ensures v == NoNode <==> !nodeAvailable
    ensures v == NoChannel <==> nodeAvailable && (Missing(s.voiceChannelId) || Missing(s.textChannelId))
  {
    if !nodeAvailable then NoNode
    else if Missing(s.voiceChannelId) || Missing(s.textChannelId) then NoChannel
    else if !resolves(s.voiceChannelId.value) then VoiceChannelGone
    else if !resolves(s.textChannelId.value) then TextChannelGone
    else Restore
  }

  /** Whether the verdict deletes the snapshot: a channel that is gone, or a completed restore. */
  predicate DeletesSnapshot(v: Verdict) {
    v == VoiceChannelGone || v == TextChannelGone || v == Restore
  }

  /** Whether the verdict cleans the guild's player up: every failure except a missing node. */
  predicate CleansUp(v: Verdict) {
    v == NoChannel || v == VoiceChannelGone || v == TextChannelGone
  }

  /** Fail-closed: without a node nothing is deleted or cleaned up; a snapshot with a missing id is kept. */
  lemma CheckFailsClosed(s: PlayerSession, nodeAvailable: bool, resolves: string -> bool)
    ensures !nodeAvailable ==> !DeletesSnapshot(Check(s, nodeAvailable, resolves)) && !CleansUp(Check(s, nodeAvailable, resolves))
    ensures Missing(s.voiceChannelId) || Missing(s.textChannelId) ==> !DeletesSnapshot(Check(s, nodeAvailable, resolves))
    ensures DeletesSnapshot(Check(s, nodeAvailable, resolves)) ==> nodeAvailable && !Missing(s.voiceChannelId) && !Missing(s.textChannelId)
  {
  }

  /** What `node.rest.getPlayer` gives: the backend's track, if any, and its pause state. */
  datatype LavaPlayer = LavaPlayer(track: Option<Track>, paused: bool)

  /** `TrackUtils.build(lavaPlayer.track, session.currentTrack?.requester)`; an absent requester is "". */
  function BuiltTrack(t: Track, s: PlayerSession): (r: Track)
    ensures r.identifier == t.identifier && r.duration == t.duration
    ensures s.currentTrack.Some? ==> r.requester == s.currentTrack.value.requester
  {
    t.(requester := if s.currentTrack.Some? then s.currentTrack.value.requester else "")
  }

  predicate HasLiveTrack(lava: Option<LavaPlayer>) {
    lava.Some? && lava.value.track.Some?
  }

  /** The queue a restore leaves behind, starting from the queue `q` of the player `create` returned. */
  function RestoredQueue(q: Queue, s: PlayerSession, lava: Option<LavaPlayer>): Queue {
    var q1 := ResumedQueue(q, s, lava);
    if |s.queue| > 0 then QueueAdd(q1, s.queue, None).value else q1
  }

  /** The queue once the current track is back: the live one if the node has it, else the saved one added. */
  function ResumedQueue(q: Queue, s: PlayerSession, lava: Option<LavaPlayer>): Queue {
    if HasLiveTrack(lava) then q.(current := Some(BuiltTrack(lava.value.track.value, s)))
    else if s.currentTrack.Some? then QueueAdd(q, [s.currentTrack.value], None).value
    else q
  }

  /** The repeat modes a restore leaves: each saved flag is set only when true, the queue flag last. */
  function RestoredRepeat(r: Repeat, s: PlayerSession): Repeat {
    var r1 := if s.trackRepeat then TrackRepeatSet(true) else r;
    if s.queueRepeat then QueueRepeatSet(true) else r1
  }

  /** Restoring a snapshot with a current track into a new player, with nothing live on the node, gives the saved queue back. */
  lemma RestoredQueueRoundTrip(s: PlayerSession)
    requires s.currentTrack.Some?
    ensures RestoredQueue(Queue(None, []), s, None) == Queue(s.currentTrack, s.queue)
  {
    var q1 := QueueAdd(Queue(None, []), [s.currentTrack.value], None).value;
    assert q1 == Queue(s.currentTrack, []);
  }

  /** A snapshot saved without a current track comes back with its first queued track as current, not playing. */
  lemma RestoredQueueWithoutCurrent(s: PlayerSession)
    requires s.currentTrack.None? && s.queue != []
    ensures RestoredQueue(Queue(None, []), s, None) == Queue(Some(s.queue[0]), s.queue[1..])
  {
  }

  /** With a live track on the node, it is current and the saved queue follows. */
  lemma RestoredQueueLive(s: PlayerSession, lava: Option<LavaPlayer>)
    requires HasLiveTrack(lava)
    ensures RestoredQueue(Queue(None, []), s, lava)
      == Queue(Some(BuiltTrack(lava.value.track.value, s)), s.queue)
  {
    var q1 := Queue(Some(BuiltTrack(lava.value.track.value, s)), []);
    assert |s.queue| > 0 ==> QueueAdd(q1, s.queue, None).value.tracks == [] + s.queue;
    assert [] + s.queue == s.queue;
  }

  /** Repeat modes that are not both on come back as saved into a new player. */
  lemma RestoredRepeatRoundTrip(s: PlayerSession)
    requires !(s.trackRepeat && s.queueRepeat)
    ensures RestoredRepeat(Repeat(false, false), s) == Repeat(s.trackRepeat, s.queueRepeat)
  {
  }

  /** The session directory. */
  class SessionStore {
    var files: Directory

    constructor ()
      ensures files == map[]
    {
      files := map[];
    }

    /** savePlayerSession: the snapshot is written under `${guildId}.json`; a failed write is swallowed. */
    method Save(p: Player, now: int, written: bool)
      modifies this
      ensures files == if written then SavedTo(old(files), Snapshot(p, now)) else old(files)
    {
      if written {
        files := SavedTo(files, Snapshot(p, now));
      }
    }

    /** deletePlayerSession. */
    method Delete(guildId: string)
      modifies this
      ensures files == DeletedFrom(old(files), guildId)
    {
      files := DeletedFrom(files, guildId);
    }

    /** loadPlayerSession. */
    method Load(guildId: string) returns (r: Option<PlayerSession>)
      ensures r == LoadFrom(files, guildId)
    {
      r := LoadFrom(files, guildId);
    }
  }

  /**
   * saveAllSessions: every player is saved whatever happens to the others'
   * writes (`Promise.allSettled`); `written(g)` says whether guild g's write succeeds.
   */
  method SaveAllSessions(store: SessionStore, m: Manager, now: int, written: string -> bool)
    requires m.Valid()
    modifies store
    ensures forall g :: g in m.players && written(g) ==> LoadFrom(store.files, g) == Some(Snapshot(m.players[g], now))
    ensures forall g :: g !in m.players || !written(g) ==> LoadFrom(store.files, g) == LoadFrom(old(store.files), g)
  {
    var remaining := m.players.Keys;
    while remaining != {}
      invariant remaining <= m.players.Keys
      invariant forall g :: g in m.players && g !in remaining && written(g) ==> LoadFrom(store.files, g) == Some(Snapshot(m.players[g], now))
      invariant forall g :: g !in m.players || g in remaining || !written(g) ==> LoadFrom(store.files, g) == LoadFrom(old(store.files), g)
      decreases remaining
    {
      var g :| g in remaining;
      var p := m.players[g];
      ghost var before := store.files;
      store.Save(p, now, written(g));
      forall h
        ensures LoadFrom(store.files, h) == if h == g && written(g) then Some(Snapshot(p, now)) else LoadFrom(before, h)
      {
        if written(g) {
          LoadAfterSave(before, Snapshot(p, now), h);
        }
      }
      remaining := remaining - {g};
    }
  }

  /** cleanupPlayer: the guild's player, if any, is marked stopped by command and then destroyed. */
  method CleanupPlayer(m: Manager, guildId: string)
    requires m.Valid()
    modifies m, m.players.Values
    ensures m.Valid()
    ensures m.players == old(m.players) - {guildId}
    ensures guildId in old(m.players) ==>
      old(m.players)[guildId].stoppedByCommand && old(m.players)[guildId].destroyed
    ensures forall p :: p in old(m.players.Values) && p.guildId != guildId ==> unchanged(p)
  {
    if guildId in m.players {
      var p := m.players[guildId];
      p.MarkStoppedByCommand();
      m.Destroy(p);
    }
  }

  /**
   * The state a restore leaves a player in, from the queue `q0` and repeat
   * modes `r0` it had: connected, the restored queue and repeat modes, autoplay
   * on if saved on, and playing as the node says or, with no live track and a
   * saved current one, playing.
   */
  ghost predicate Restored(p: Player, s: PlayerSession, lava: Option<LavaPlayer>, q0: Queue, r0: Repeat)
    reads p
  {
    p.connected
    && p.queue == RestoredQueue(q0, s, lava)
    && p.repeat == RestoredRepeat(r0, s)
    && (s.isAutoplay ==> p.isAutoplay)
    && (HasLiveTrack(lava) ==> p.playing == !lava.value.paused && p.paused == lava.value.paused)
    && (!HasLiveTrack(lava) && s.currentTrack.Some? ==> p.playing && !p.paused)
  }

  /** The part of restorePlayerSession after the checks: create, connect, current track, queue, flags. */
  method RecreatePlayer(m: Manager, s: PlayerSession, lava: Option<LavaPlayer>) returns (p: Player)
    requires m.Valid()
    modifies m, m.players.Values
    ensures m.Valid()
    ensures s.guildId in m.players && m.players == old(m.players)[s.guildId := p]
    ensures s.guildId in old(m.players) ==> p == old(m.players)[s.guildId]
    ensures s.guildId !in old(m.players) ==> fresh(p)
    ensures Restored(p, s, lava, old(QueueBefore(m.players, s.guildId)), old(RepeatBefore(m.players, s.guildId)))
    ensures forall q :: q in old(m.players.Values) && q != p ==> unchanged(q)
  {
    ghost var queueBefore := QueueBefore(m.players, s.guildId);
    ghost var repeatBefore := RepeatBefore(m.players, s.guildId);
    p := m.Create(s.guildId, s.textChannelId, s.voiceChannelId, s.volume);
    assert p.queue == queueBefore && p.repeat == repeatBefore;
    RestoreInto(p, s, lava);
  }

  /** `connect`, then the current track, the saved queue and the flags, on the player `create` gave. */
  method RestoreInto(p: Player, s: PlayerSession, lava: Option<LavaPlayer>)
    modifies p`connected, p`queue, p`playing, p`paused, p`position, p`repeat, p`isAutoplay
    ensures Restored(p, s, lava, old(p.queue), old(p.repeat))
  {
    p.Connect();
    ResumePlayback(p, s, lava);
    if |s.queue| > 0 {
      var _ := p.Add(s.queue, None);
    }
    RestoreSettings(p, s);
  }

  /** The current track: the node's live track with its pause state, else the saved one added and played. */
  method ResumePlayback(p: Player, s: PlayerSession, lava: Option<LavaPlayer>)
    modifies p`queue, p`playing, p`paused, p`position
    ensures p.queue == ResumedQueue(old(p.queue), s, lava)
    ensures HasLiveTrack(lava) ==> p.playing == !lava.value.paused && p.paused == lava.value.paused
    ensures !HasLiveTrack(lava) && s.currentTrack.Some? ==> p.playing && !p.paused
    ensures !HasLiveTrack(lava) && s.currentTrack.None? ==> p.playing == old(p.playing) && p.paused == old(p.paused)
  {
    if HasLiveTrack(lava) {
      p.SetCurrent(BuiltTrack(lava.value.track.value, s));
      p.SetPlaybackState(!lava.value.paused, lava.value.paused);
    } else if s.currentTrack.Some? {
      var _ := p.Add([s.currentTrack.value], None);
      var _ := p.Play();
    }
  }

  /** `setTrackRepeat(true)`, `setQueueRepeat(true)` and `setAutoplay(true)`, each only for a saved true. */
  method RestoreSettings(p: Player, s: PlayerSession)
    modifies p`repeat, p`isAutoplay
    ensures p.repeat == RestoredRepeat(old(p.repeat), s)
    ensures p.isAutoplay == (s.isAutoplay || old(p.isAutoplay))
  {
    if s.trackRepeat {
      p.SetTrackRepeat(true);
    }
    if s.queueRepeat {
      p.SetQueueRepeat(true);
    }
    if s.isAutoplay {
      p.SetAutoplay(true);
    }
  }

  /**
   * Whether a restore with verdict `v` deletes the snapshot: a channel that is
   * gone, or a completed restore (an exception after the checks skips the deletion).
   */
  predicate SnapshotDeleted(v: Verdict, throws: bool) {
    DeletesSnapshot(v) && !(v == Restore && throws)
  }

  /**
   * restorePlayerSession. `nodeAvailable` is `manager.useableNode`, `resolves`
   * the channel lookups and `lava` what `node.rest.getPlayer` gives (None when
   * it throws). `throws` is whether an error escapes a later step (create,
   * connect, the track, the queue, the flags) into the catch-all, which returns
   * false; the model takes that error before `create`. The saved volume goes to
   * `create`; the saved pause flag and position are not restored.
   */
  method RestorePlayerSession(store: SessionStore, m: Manager, s: PlayerSession, nodeAvailable: bool,
                              resolves: string -> bool, lava: Option<LavaPlayer>, throws: bool)
    returns (ok: bool)
    requires m.Valid()
    modifies store, m, m.players.Values
    ensures m.Valid()
    ensures ok <==> Check(s, nodeAvailable, resolves) == Restore && !throws
    ensures store.files == if SnapshotDeleted(Check(s, nodeAvailable, resolves), throws)
      then DeletedFrom(old(store.files), s.guildId) else old(store.files)
    ensures Check(s, nodeAvailable, resolves) == NoNode || (Check(s, nodeAvailable, resolves) == Restore && throws) ==>
      m.players == old(m.players) && forall q :: q in old(m.players.Values) ==> unchanged(q)
    ensures m.players - {s.guildId} == old(m.players) - {s.guildId}
    ensures forall q :: q in old(m.players.Values) && q.guildId != s.guildId ==> unchanged(q)
    ensures CleansUp(Check(s, nodeAvailable, resolves)) ==>
      m.players == old(m.players) - {s.guildId}
      && (s.guildId in old(m.players) ==> old(m.players)[s.guildId].stoppedByCommand && old(m.players)[s.guildId].destroyed)
    ensures ok ==> s.guildId in m.players && m.players.Keys == old(m.players).Keys + {s.guildId}
    ensures ok ==> Restored(m.players[s.guildId], s, lava,
      old(QueueBefore(m.players, s.guildId)), old(RepeatBefore(m.players, s.guildId)))
    ensures forall p :: p in m.players.Values ==> p in old(m.players.Values) || fresh(p)
  {
    if !nodeAvailable {
      return false;
    }
    if Missing(s.voiceChannelId) || Missing(s.textChannelId) {
      CleanupPlayer(m, s.guildId);
      return false;
    }
    if !resolves(s.voiceChannelId.value) {
      Discard(store, m, s.guildId);
      return false;
    }
    if !resolves(s.textChannelId.value) {
      Discard(store, m, s.guildId);
      return false;
    }
    if throws {
      return false;
    }
    Reinstate(store, m, s, lava);
    return true;
  }

  /** A snapshot that passed every check: the player is recreated, then the file deleted. */
  method Reinstate(store: SessionStore, m: Manager, s: PlayerSession, lava: Option<LavaPlayer>)
    requires m.Valid()
    modifies store, m, m.players.Values
    ensures m.Valid()
    ensures store.files == DeletedFrom(old(store.files), s.guildId)
    ensures s.guildId in m.players && m.players.Keys == old(m.players).Keys + {s.guildId}
    ensures m.players - {s.guildId} == old(m.players) - {s.guildId}
    ensures forall q :: q in old(m.players.Values) && q.guildId != s.guildId ==> unchanged(q)
    ensures Restored(m.players[s.guildId], s, lava,
      old(QueueBefore(m.players, s.guildId)), old(RepeatBefore(m.players, s.guildId)))
    ensures forall p :: p in m.players.Values ==> p in old(m.players.Values) || fresh(p)
  {
    var p := RecreatePlayer(m, s, lava);
    store.Delete(s.guildId);
  }

  /** A snapshot whose channel is gone: the file is deleted and the guild's player cleaned up. */
  method Discard(store: SessionStore, m: Manager, guildId: string)
    requires m.Valid()
    modifies store, m, m.players.Values
    ensures m.Valid()
    ensures store.files == DeletedFrom(old(store.files), guildId)
    ensures m.players == old(m.players) - {guildId}
    ensures guildId in old(m.players) ==>
      old(m.players)[guildId].stoppedByCommand && old(m.players)[guildId].destroyed
    ensures forall q :: q in old(m.players.Values) && q.guildId != guildId ==> unchanged(q)
  {
    store.Delete(guildId);
    CleanupPlayer(m, guildId);
  }

  /** The directory only loses files: every file left is an original one with its original content. */
  predicate Shrunk(now: Directory, before: Directory) {
    forall k :: k in now ==> k in before && now[k] == before[k]
  }

  /** Guild `g`'s snapshot in `dir` is older than five minutes at `now`. */
  predicate StaleIn(dir: Directory, g: string, now: int) {
    LoadFrom(dir, g).Some? && Stale(now, LoadFrom(dir, g).value.timestamp)
  }

  /** Guild `g`'s snapshot in `dir` names `g` and its checks end in a deletion. */
  predicate DoomedIn(dir: Directory, g: string, nodeAvailable: bool, resolves: string -> bool, throws: string -> bool) {
    LoadFrom(dir, g).Some? && LoadFrom(dir, g).value.guildId == g
    && SnapshotDeleted(Check(LoadFrom(dir, g).value, nodeAvailable, resolves), throws(g))
  }

  /** Guild `g`'s snapshot in `dir` is fresh at `now` and passes every check. */
  predicate RestorableIn(dir: Directory, g: string, now: int, nodeAvailable: bool, resolves: string -> bool) {
    LoadFrom(dir, g).Some? && !Stale(now, LoadFrom(dir, g).value.timestamp)
    && Check(LoadFrom(dir, g).value, nodeAvailable, resolves) == Restore
  }

  /** Processing listed id `g` deletes a snapshot: a stale one, or one whose restore deletes it. */
  predicate RemovedIn(dir: Directory, g: string, now: int, nodeAvailable: bool, resolves: string -> bool, throws: string -> bool) {
    LoadFrom(dir, g).Some?
    && (Stale(now, LoadFrom(dir, g).value.timestamp)
        || SnapshotDeleted(Check(LoadFrom(dir, g).value, nodeAvailable, resolves), throws(g)))
  }

  /** Every listed id's snapshot, where one loads, names that id, as savePlayerSession writes them. */
  predicate SelfNamed(dir: Directory, ids: seq<string>) {
    forall g :: g in ids && LoadFrom(dir, g).Some? ==> LoadFrom(dir, g).value.guildId == g
  }

  /**
   * The directory after one id of the listing: a null load changes nothing, a
   * stale snapshot is deleted under the listed id, and any other is deleted
   * under the id it names exactly when its restore deletes it.
   */
  function AfterRestoreOne(dir: Directory, g: string, now: int, nodeAvailable: bool, resolves: string -> bool,
                           throws: string -> bool): Directory {
    var loaded := LoadFrom(dir, g);
    if loaded.None? then dir
    else if Stale(now, loaded.value.timestamp) then DeletedFrom(dir, g)
    else if SnapshotDeleted(Check(loaded.value, nodeAvailable, resolves), throws(g)) then DeletedFrom(dir, loaded.value.guildId)
    else dir
  }

  /**
   * Fail-closed, one id at a time: a null load, a missing node, a missing
   * channel id or an error after the checks leave the whole directory as it was.
   */
  lemma AfterRestoreOneFailsClosed(dir: Directory, g: string, now: int, nodeAvailable: bool, resolves: string -> bool,
                                   throws: string -> bool)
    ensures LoadFrom(dir, g).None? ==> AfterRestoreOne(dir, g, now, nodeAvailable, resolves, throws) == dir
    ensures (LoadFrom(dir, g).Some? && !Stale(now, LoadFrom(dir, g).value.timestamp)
             && (Check(LoadFrom(dir, g).value, nodeAvailable, resolves) in {NoNode, NoChannel}
                 || (RestorableIn(dir, g, now, nodeAvailable, resolves) && throws(g)))) ==>
      AfterRestoreOne(dir, g, now, nodeAvailable, resolves, throws) == dir
  {
  }

  /** One id only ever deletes: the directory after it is a shrunk one. */
  lemma AfterRestoreOneShrinks(dir: Directory, g: string, now: int, nodeAvailable: bool, resolves: string -> bool,
                               throws: string -> bool)
    ensures Shrunk(AfterRestoreOne(dir, g, now, nodeAvailable, resolves, throws), dir)
  {
  }

  /** For a snapshot naming its own id, only that id's load changes, and it becomes null exactly when the snapshot is removed. */
  lemma AfterRestoreOneLoads(dir: Directory, g: string, now: int, nodeAvailable: bool, resolves: string -> bool,
                             throws: string -> bool, h: string)
    requires LoadFrom(dir, g).Some? ==> LoadFrom(dir, g).value.guildId == g
    ensures LoadFrom(AfterRestoreOne(dir, g, now, nodeAvailable, resolves, throws), h)
      == if h == g && RemovedIn(dir, g, now, nodeAvailable, resolves, throws) then None else LoadFrom(dir, h)
  {
    if RemovedIn(dir, g, now, nodeAvailable, resolves, throws) {
      LoadAfterDelete(dir, g, h);
    }
  }

  /**
   * restoreAllSessions over the directory listing `names`: each id is loaded;
   * a null load is skipped, a stale snapshot deleted, and any other restored
   * on its own. `clock(j)` is `Date.now()` when the j-th listed id comes up,
   * read after the restores before it. `restored` lists the ids whose restore
   * succeeded. When every listed snapshot names its own id, exactly the
   * removed ones are gone, every other load is as before, the restored ids are
   * exactly those restorable at their first turn, each has its restored
   * player, and the players of unlisted guilds are untouched.
   */
  method RestoreAllSessions(store: SessionStore, m: Manager, names: seq<string>, clock: nat -> int, nodeAvailable: bool,
                            resolves: string -> bool, lava: string -> Option<LavaPlayer>, throws: string -> bool)
    returns (restored: seq<string>)
    requires m.Valid()
    modifies store, m, m.players.Values
    ensures m.Valid()
    ensures Shrunk(store.files, old(store.files))
    ensures forall j :: 0 <= j < |SessionIds(names)| && StaleIn(old(store.files), SessionIds(names)[j], clock(j)) ==>
      FileName(SessionIds(names)[j]) !in store.files
    ensures forall g :: g in SessionIds(names) && DoomedIn(old(store.files), g, nodeAvailable, resolves, throws) ==>
      FileName(g) !in store.files
    ensures forall g :: g in restored ==> exists j :: (0 <= j < |SessionIds(names)| && SessionIds(names)[j] == g
      && RestorableIn(old(store.files), g, clock(j), nodeAvailable, resolves) && !throws(g))
    ensures SelfNamed(old(store.files), SessionIds(names)) ==> forall h ::
      LoadFrom(store.files, h) == if RemovedBy(old(store.files), SessionIds(names), h, clock, nodeAvailable, resolves, throws)
        then None else LoadFrom(old(store.files), h)
    ensures SelfNamed(old(store.files), SessionIds(names)) ==> forall g ::
      g in restored <==> exists j :: (RestoredAt(old(store.files), SessionIds(names), j, clock, nodeAvailable, resolves, throws)
        && SessionIds(names)[j] == g)
    ensures SelfNamed(old(store.files), SessionIds(names)) ==> forall g :: g in restored ==>
      g in m.players && LoadFrom(old(store.files), g).Some?
      && Restored(m.players[g], LoadFrom(old(store.files), g).value, lava(g),
                  old(QueueBefore(m.players, g)), old(RepeatBefore(m.players, g)))
    ensures SelfNamed(old(store.files), SessionIds(names)) ==> forall h :: h !in SessionIds(names) ==>
      (h in m.players <==> h in old(m.players)) && (h in m.players ==> m.players[h] == old(m.players)[h] && unchanged(m.players[h]))
  {
    var ids := SessionIds(names);
    ghost var queues0 := QueuesOf(m.players);
    ghost var repeats0 := RepeatsOf(m.players);
    restored := RestoreEach(store, m, ids, clock, nodeAvailable, resolves, lava, throws, queues0, repeats0);
    ProgressDone(store.files, old(store.files), ids, restored, clock, nodeAvailable, resolves, throws);
    assert forall g :: (Lookup(queues0, g, Queue(None, [])) == old(QueueBefore(m.players, g))
      && Lookup(repeats0, g, Repeat(false, false)) == old(RepeatBefore(m.players, g)));
  }

  /**
   * The loop of restoreAllSessions over the listed ids, one RestoreTurn each;
   * `queues0` and `repeats0` are the players' queues and repeat modes before it.
   */
  method RestoreEach(store: SessionStore, m: Manager, ids: seq<string>, clock: nat -> int, nodeAvailable: bool,
                     resolves: string -> bool, lava: string -> Option<LavaPlayer>, throws: string -> bool,
                     ghost queues0: map<string, Queue>, ghost repeats0: map<string, Repeat>)
    returns (restored: seq<string>)
    requires m.Valid()
    requires SelfNamed(store.files, ids) ==> Unprocessed(m, [], queues0, repeats0)
    modifies store, m, m.players.Values
    ensures m.Valid()
    ensures Progress(store.files, old(store.files), ids, |ids|, restored, clock, nodeAvailable, resolves, throws)
    ensures SelfNamed(old(store.files), ids) ==>
      RestoredPlayers(m, restored, old(store.files), lava, queues0, repeats0)
    ensures SelfNamed(old(store.files), ids) ==> forall h :: h !in ids ==>
      (h in m.players <==> h in old(m.players)) && (h in m.players ==> m.players[h] == old(m.players)[h] && unchanged(m.players[h]))
  {
    restored := [];
    var i := 0;
    while i < |ids|
      invariant 0 <= i <= |ids|
      invariant m.Valid()
      invariant forall q :: q in m.players.Values ==> q in old(m.players.Values) || fresh(q)
      invariant Progress(store.files, old(store.files), ids, i, restored, clock, nodeAvailable, resolves, throws)
      invariant SelfNamed(old(store.files), ids) ==> forall h :: h !in ids ==>
        (h in m.players <==> h in old(m.players)) && (h in m.players ==> m.players[h] == old(m.players)[h] && unchanged(m.players[h]))
      invariant SelfNamed(old(store.files), ids) ==> Unprocessed(m, ids[..i], queues0, repeats0)
      invariant SelfNamed(old(store.files), ids) ==>
        RestoredPlayers(m, restored, old(store.files), lava, queues0, repeats0)
    {
      var ok := RestoreTurn(store, m, ids, i, restored, old(store.files), clock, nodeAvailable, resolves, lava, throws,
        queues0, repeats0);
      if ok {
        restored := restored + [ids[i]];
      }
      i := i + 1;
    }
  }

  /** The queue of each guild's player. */
  function QueuesOf(players: map<string, Player>): (qs: map<string, Queue>)
    reads players.Values
    ensures forall g :: Lookup(qs, g, Queue(None, [])) == QueueBefore(players, g)
  {
    map g | g in players :: players[g].queue
  }

  /** The repeat modes of each guild's player. */
  function RepeatsOf(players: map<string, Player>): (rs: map<string, Repeat>)
    reads players.Values
    ensures forall g :: Lookup(rs, g, Repeat(false, false)) == RepeatBefore(players, g)
  {
    map g | g in players :: players[g].repeat
  }

  function Lookup<T>(mp: map<string, T>, g: string, absent: T): T {
    if g in mp then mp[g] else absent
  }

  /** Every guild not among the ids `done` still has the queue and repeat modes recorded at the start. */
  ghost predicate Unprocessed(m: Manager, done: seq<string>, queues0: map<string, Queue>, repeats0: map<string, Repeat>)
    reads m, m.players.Values
  {
    forall h :: h !in done ==>
      QueueBefore(m.players, h) == Lookup(queues0, h, Queue(None, []))
      && RepeatBefore(m.players, h) == Lookup(repeats0, h, Repeat(false, false))
  }

  /** Every restored id has a player in the Restored state for its snapshot, from the queue and modes it had at the start. */
  ghost predicate RestoredPlayers(m: Manager, restored: seq<string>, start: Directory, lava: string -> Option<LavaPlayer>,
                                  queues0: map<string, Queue>, repeats0: map<string, Repeat>)
    reads m, m.players.Values
  {
    forall g :: g in restored ==>
      g in m.players && LoadFrom(start, g).Some?
      && Restored(m.players[g], LoadFrom(start, g).value, lava(g),
                  Lookup(queues0, g, Queue(None, [])), Lookup(repeats0, g, Repeat(false, false)))
  }

  /**
   * One turn of restoreAllSessions, as the loop sees it: the directory moves
   * on by one id, the guilds not yet processed keep their queues and repeat
   * modes, and every restored id, old or new, has its Restored player.
   */
  method RestoreTurn(store: SessionStore, m: Manager, ids: seq<string>, i: nat, restored: seq<string>, ghost start: Directory,
                     clock: nat -> int, nodeAvailable: bool, resolves: string -> bool, lava: string -> Option<LavaPlayer>,
                     throws: string -> bool, ghost queues0: map<string, Queue>, ghost repeats0: map<string, Repeat>)
    returns (ok: bool)
    requires m.Valid() && i < |ids|
    requires Progress(store.files, start, ids, i, restored, clock, nodeAvailable, resolves, throws)
    requires SelfNamed(start, ids) ==> Unprocessed(m, ids[..i], queues0, repeats0)
    requires SelfNamed(start, ids) ==> RestoredPlayers(m, restored, start, lava, queues0, repeats0)
    modifies store, m, m.players.Values
    ensures m.Valid()
    ensures forall q :: q in m.players.Values ==> q in old(m.players.Values) || fresh(q)
    ensures Progress(store.files, start, ids, i + 1, if ok then restored + [ids[i]] else restored, clock, nodeAvailable,
      resolves, throws)
    ensures SelfNamed(start, ids) ==> forall h :: h != ids[i] ==>
      (h in m.players <==> h in old(m.players)) && (h in m.players ==> m.players[h] == old(m.players)[h] && unchanged(m.players[h]))
    ensures SelfNamed(start, ids) ==> Unprocessed(m, ids[..i + 1], queues0, repeats0)
    ensures SelfNamed(start, ids) ==>
      RestoredPlayers(m, if ok then restored + [ids[i]] else restored, start, lava, queues0, repeats0)
  {
    var g := ids[i];
    ok := RestoreListedId(store, m, ids, i, restored, start, clock, nodeAvailable, resolves, lava, throws);
    if SelfNamed(start, ids) {
      SliceSnoc(ids, i);
      forall h | h !in ids[..i + 1]
        ensures QueueBefore(m.players, h) == Lookup(queues0, h, Queue(None, []))
        ensures RepeatBefore(m.players, h) == Lookup(repeats0, h, Repeat(false, false))
      {
        assert h != g && h !in ids[..i];
        assert old(QueueBefore(m.players, h)) == Lookup(queues0, h, Queue(None, []));
        assert old(RepeatBefore(m.players, h)) == Lookup(repeats0, h, Repeat(false, false));
      }
      forall r | r in restored
        ensures r in m.players && LoadFrom(start, r).Some?
        ensures Restored(m.players[r], LoadFrom(start, r).value, lava(r),
                         Lookup(queues0, r, Queue(None, [])), Lookup(repeats0, r, Repeat(false, false)))
      {
        assert old(r in m.players && Restored(m.players[r], LoadFrom(start, r).value, lava(r),
                   Lookup(queues0, r, Queue(None, [])), Lookup(repeats0, r, Repeat(false, false))));
        assert old(m.players)[r] in old(m.players.Values);
      }
      if ok {
        assert old(QueueBefore(m.players, g)) == Lookup(queues0, g, Queue(None, []));
        assert old(RepeatBefore(m.players, g)) == Lookup(repeats0, g, Repeat(false, false));
        AddRestored(m, restored, g, start, lava, queues0, repeats0);
      }
    }
  }

  /**
   * RestoreOne on the i-th listed id at that turn's clock reading. For
   * self-named snapshots only that id's player can change: not at all if the
   * id was already restored, and to its Restored state, from the queue and
   * modes it had, if this turn restores it.
   */
  method RestoreListedId(store: SessionStore, m: Manager, ids: seq<string>, i: nat, restored: seq<string>,
                         ghost start: Directory, clock: nat -> int, nodeAvailable: bool, resolves: string -> bool,
                         lava: string -> Option<LavaPlayer>, throws: string -> bool)
    returns (ok: bool)
    requires m.Valid() && i < |ids|
    requires Progress(store.files, start, ids, i, restored, clock, nodeAvailable, resolves, throws)
    modifies store, m, m.players.Values
    ensures m.Valid()
    ensures forall q :: q in m.players.Values ==> q in old(m.players.Values) || fresh(q)
    ensures Progress(store.files, start, ids, i + 1, if ok then restored + [ids[i]] else restored, clock, nodeAvailable,
      resolves, throws)
    ensures SelfNamed(start, ids) ==> forall h :: h != ids[i] ==>
      (h in m.players <==> h in old(m.players)) && (h in m.players ==> m.players[h] == old(m.players)[h] && unchanged(m.players[h]))
    ensures SelfNamed(start, ids) && ids[i] in restored ==>
      m.players == old(m.players) && forall q :: q in old(m.players.Values) ==> unchanged(q)
    ensures SelfNamed(start, ids) && ok ==>
      ids[i] !in ids[..i] && ids[i] in m.players && LoadFrom(start, ids[i]).Some?
      && Restored(m.players[ids[i]], LoadFrom(start, ids[i]).value, lava(ids[i]),
                  old(QueueBefore(m.players, ids[i])), old(RepeatBefore(m.players, ids[i])))
  {
    var g := ids[i];
    ghost var before := store.files;
    ghost var playersBefore := m.players;
    ok := RestoreOne(store, m, g, clock(i), nodeAvailable, resolves, lava, throws);
    ProgressStep(before, store.files, start, ids, i, restored, ok, clock, nodeAvailable, resolves, throws);
    if SelfNamed(start, ids) {
      // A snapshot that loads here is the one listed, and names g.
      RestoredAreGone(before, start, ids[..i], restored, clock, nodeAvailable, resolves, throws);
      assert LoadFrom(before, g).Some? ==> LoadFrom(before, g) == LoadFrom(start, g) && g in ids;
      forall h | h != g && h in playersBefore
        ensures h in m.players && m.players[h] == playersBefore[h] && unchanged(playersBefore[h])
      {
        assert h in m.players - {g};
        assert playersBefore[h] in playersBefore.Values && playersBefore[h].guildId == h;
      }
      forall h | h != g && h !in playersBefore
        ensures h !in m.players
      {
        assert h !in playersBefore - {g};
      }
      if g in restored {
        assert LoadFrom(before, g).None?;
      }
      if ok {
        ProcessedStep(before, start, ids, i, clock, nodeAvailable, resolves, throws);
        SliceSnoc(ids, i);
        assert g !in ids[..i];
      }
    }
  }

  /** The first i + 1 ids are the first i followed by the i-th. */
  lemma SliceSnoc(ids: seq<string>, i: nat)
    requires i < |ids|
    ensures ids[..i + 1][..i] == ids[..i] && ids[..i + 1][i] == ids[i]
    ensures forall h :: h in ids[..i + 1] <==> h in ids[..i] || h == ids[i]
  {
    assert ids[..i + 1] == ids[..i] + [ids[i]];
  }

  /** A player just brought to its Restored state joins the restored ones. */
  lemma AddRestored(m: Manager, restored: seq<string>, g: string, start: Directory, lava: string -> Option<LavaPlayer>,
                    queues0: map<string, Queue>, repeats0: map<string, Repeat>)
    requires RestoredPlayers(m, restored, start, lava, queues0, repeats0)
    requires g in m.players && LoadFrom(start, g).Some?
    requires Restored(m.players[g], LoadFrom(start, g).value, lava(g),
                      Lookup(queues0, g, Queue(None, [])), Lookup(repeats0, g, Repeat(false, false)))
    ensures RestoredPlayers(m, restored + [g], start, lava, queues0, repeats0)
  {
  }

  /**
   * Listed id `h` lost its snapshot at one of its turns among `done`: at turn
   * j, with the clock reading of that turn, the snapshot is stale or its
   * restore deletes it.
   */
  ghost predicate RemovedBy(start: Directory, done: seq<string>, h: string, clock: nat -> int, nodeAvailable: bool,
                            resolves: string -> bool, throws: string -> bool) {
    exists j :: 0 <= j < |done| && done[j] == h && RemovedIn(start, h, clock(j), nodeAvailable, resolves, throws)
  }

  /**
   * Turn j of `done` restores its id: it is that id's first turn, and the
   * snapshot is restorable at that turn's clock reading and does not throw.
   */
  ghost predicate RestoredAt(start: Directory, done: seq<string>, j: int, clock: nat -> int, nodeAvailable: bool,
                             resolves: string -> bool, throws: string -> bool) {
    0 <= j < |done| && done[j] !in done[..j]
    && RestorableIn(start, done[j], clock(j), nodeAvailable, resolves) && !throws(done[j])
  }

  /**
   * What restoreAllSessions has done after the first `i` ids: the directory
   * only shrank; each processed stale or doomed snapshot is gone; each restored
   * id was restorable at one of its turns; and, for self-named snapshots, the
   * loads and the restored ids are exactly those of the processed turns.
   */
  ghost predicate Progress(files: Directory, start: Directory, ids: seq<string>, i: nat, restored: seq<string>,
                           clock: nat -> int, nodeAvailable: bool, resolves: string -> bool, throws: string -> bool) {
    i <= |ids|
    && Shrunk(files, start)
    && (forall j :: 0 <= j < i && StaleIn(start, ids[j], clock(j)) ==> FileName(ids[j]) !in files)
    && (forall j :: 0 <= j < i && DoomedIn(start, ids[j], nodeAvailable, resolves, throws) ==> FileName(ids[j]) !in files)
    && (forall g :: g in restored ==> exists j :: (0 <= j < i && ids[j] == g
          && RestorableIn(start, g, clock(j), nodeAvailable, resolves) && !throws(g)))
    && (SelfNamed(start, ids) ==>
          Processed(files, start, ids[..i], clock, nodeAvailable, resolves, throws)
          && RestoredExactly(restored, ids[..i], start, clock, nodeAvailable, resolves, throws))
  }

  /** One more id processed at its own clock reading: the directory becomes AfterRestoreOne, the id is appended when restored. */
  lemma ProgressStep(before: Directory, after: Directory, start: Directory, ids: seq<string>, i: nat, restored: seq<string>,
                     ok: bool, clock: nat -> int, nodeAvailable: bool, resolves: string -> bool, throws: string -> bool)
    requires i < |ids|
    requires Progress(before, start, ids, i, restored, clock, nodeAvailable, resolves, throws)
    requires after == AfterRestoreOne(before, ids[i], clock(i), nodeAvailable, resolves, throws)
    requires ok <==> RestorableIn(before, ids[i], clock(i), nodeAvailable, resolves) && !throws(ids[i])
    ensures Progress(after, start, ids, i + 1, if ok then restored + [ids[i]] else restored, clock, nodeAvailable, resolves,
      throws)
  {
    var g := ids[i];
    var restored' := if ok then restored + [g] else restored;
    AfterRestoreOneShrinks(before, g, clock(i), nodeAvailable, resolves, throws);
    ShrunkTransitive(after, before, start);
    StaleInShrunk(before, start, g, clock(i));
    DoomedInShrunk(before, start, g, nodeAvailable, resolves, throws);
    if ok {
      RestorableInShrunk(before, start, g, clock(i), nodeAvailable, resolves);
    }
    forall j | 0 <= j < i + 1 && StaleIn(start, ids[j], clock(j))
      ensures FileName(ids[j]) !in after
    {
      if j == i {
        StaleOrDoomedGone(before, start, g, clock(i), nodeAvailable, resolves, throws);
      }
    }
    forall j | 0 <= j < i + 1 && DoomedIn(start, ids[j], nodeAvailable, resolves, throws)
      ensures FileName(ids[j]) !in after
    {
      if j == i {
        StaleOrDoomedGone(before, start, g, clock(i), nodeAvailable, resolves, throws);
      }
    }
    forall h | h in restored'
      ensures exists j :: 0 <= j < i + 1 && ids[j] == h && RestorableIn(start, h, clock(j), nodeAvailable, resolves) && !throws(h)
    {
      if h !in restored {
        assert ids[i] == h && RestorableIn(start, h, clock(i), nodeAvailable, resolves) && !throws(h);
      } else {
        var j :| 0 <= j < i && ids[j] == h && RestorableIn(start, h, clock(j), nodeAvailable, resolves) && !throws(h);
      }
    }
    if SelfNamed(start, ids) {
      ProcessedStep(before, start, ids, i, clock, nodeAvailable, resolves, throws);
      RestoredStep(restored, ok, before, start, ids, i, clock, nodeAvailable, resolves, throws);
    }
  }

  /** A stale or doomed snapshot of the start, if not already gone, is gone after its id is processed. */
  lemma StaleOrDoomedGone(before: Directory, start: Directory, g: string, now: int, nodeAvailable: bool,
                          resolves: string -> bool, throws: string -> bool)
    requires Shrunk(before, start)
    requires StaleIn(start, g, now) || DoomedIn(start, g, nodeAvailable, resolves, throws)
    ensures FileName(g) !in AfterRestoreOne(before, g, now, nodeAvailable, resolves, throws)
  {
  }

  /** After every id, Progress gives the postconditions of restoreAllSessions. */
  lemma ProgressDone(files: Directory, start: Directory, ids: seq<string>, restored: seq<string>, clock: nat -> int,
                     nodeAvailable: bool, resolves: string -> bool, throws: string -> bool)
    requires Progress(files, start, ids, |ids|, restored, clock, nodeAvailable, resolves, throws)
    ensures Shrunk(files, start)
    ensures forall j :: 0 <= j < |ids| && StaleIn(start, ids[j], clock(j)) ==> FileName(ids[j]) !in files
    ensures forall g :: g in ids && DoomedIn(start, g, nodeAvailable, resolves, throws) ==> FileName(g) !in files
    ensures forall g :: g in restored ==> exists j :: (0 <= j < |ids| && ids[j] == g
      && RestorableIn(start, g, clock(j), nodeAvailable, resolves) && !throws(g))
    ensures SelfNamed(start, ids) ==> forall h ::
      LoadFrom(files, h) == if RemovedBy(start, ids, h, clock, nodeAvailable, resolves, throws) then None else LoadFrom(start, h)
    ensures SelfNamed(start, ids) ==> forall g ::
      g in restored <==> exists j :: RestoredAt(start, ids, j, clock, nodeAvailable, resolves, throws) && ids[j] == g
  {
    assert ids[..|ids|] == ids;
    forall g | g in ids && DoomedIn(start, g, nodeAvailable, resolves, throws)
      ensures FileName(g) !in files
    {
      var j :| 0 <= j < |ids| && ids[j] == g;
    }
  }

  /** `restored` holds exactly the ids of `done` that some turn of `done` restores. */
  ghost predicate RestoredExactly(restored: seq<string>, done: seq<string>, start: Directory, clock: nat -> int,
                                  nodeAvailable: bool, resolves: string -> bool, throws: string -> bool) {
    forall g :: g in restored <==> exists j :: RestoredAt(start, done, j, clock, nodeAvailable, resolves, throws) && done[j] == g
  }

  /** Appending the next id when, and only when, its restore succeeds keeps RestoredExactly. */
  lemma RestoredStep(restored: seq<string>, ok: bool, cur: Directory, start: Directory, ids: seq<string>, i: nat,
                     clock: nat -> int, nodeAvailable: bool, resolves: string -> bool, throws: string -> bool)
    requires i < |ids| && SelfNamed(start, ids)
    requires Processed(cur, start, ids[..i], clock, nodeAvailable, resolves, throws)
    requires RestoredExactly(restored, ids[..i], start, clock, nodeAvailable, resolves, throws)
    requires ok <==> RestorableIn(cur, ids[i], clock(i), nodeAvailable, resolves) && !throws(ids[i])
    ensures RestoredExactly(if ok then restored + [ids[i]] else restored, ids[..i + 1], start, clock, nodeAvailable,
      resolves, throws)
  {
    ProcessedStep(cur, start, ids, i, clock, nodeAvailable, resolves, throws);
    var done := ids[..i + 1];
    var restored' := if ok then restored + [ids[i]] else restored;
    forall g
      ensures g in restored' <==> exists j :: RestoredAt(start, done, j, clock, nodeAvailable, resolves, throws) && done[j] == g
    {
      if exists j :: RestoredAt(start, done, j, clock, nodeAvailable, resolves, throws) && done[j] == g {
        var j :| RestoredAt(start, done, j, clock, nodeAvailable, resolves, throws) && done[j] == g;
        if j < i {
          RestoredAtSnoc(start, ids, i, j, clock, nodeAvailable, resolves, throws);
        }
      }
      if g in restored {
        var j :| RestoredAt(start, ids[..i], j, clock, nodeAvailable, resolves, throws) && ids[..i][j] == g;
        RestoredAtSnoc(start, ids, i, j, clock, nodeAvailable, resolves, throws);
      }
    }
  }

  /** A turn before `i` restores in the first `i + 1` turns exactly when it does in the first `i`. */
  lemma RestoredAtSnoc(start: Directory, ids: seq<string>, i: nat, j: int, clock: nat -> int, nodeAvailable: bool,
                       resolves: string -> bool, throws: string -> bool)
    requires 0 <= j < i < |ids|
    ensures RestoredAt(start, ids[..i + 1], j, clock, nodeAvailable, resolves, throws)
      == RestoredAt(start, ids[..i], j, clock, nodeAvailable, resolves, throws)
    ensures ids[..i + 1][j] == ids[..i][j] == ids[j]
  {
    assert ids[..i + 1][..j] == ids[..i][..j];
  }

  /** A turn appended to `done` removes `h` exactly when an earlier turn did or this one, for `h`, does. */
  lemma RemovedBySnoc(start: Directory, ids: seq<string>, i: nat, h: string, clock: nat -> int, nodeAvailable: bool,
                      resolves: string -> bool, throws: string -> bool)
    requires i < |ids|
    ensures RemovedBy(start, ids[..i + 1], h, clock, nodeAvailable, resolves, throws)
      <==> RemovedBy(start, ids[..i], h, clock, nodeAvailable, resolves, throws)
           || (h == ids[i] && RemovedIn(start, h, clock(i), nodeAvailable, resolves, throws))
  {
    if RemovedBy(start, ids[..i + 1], h, clock, nodeAvailable, resolves, throws) {
      var j :| 0 <= j < i + 1 && ids[..i + 1][j] == h && RemovedIn(start, h, clock(j), nodeAvailable, resolves, throws);
      if j < i {
        assert ids[..i][j] == h;
      }
    }
    if RemovedBy(start, ids[..i], h, clock, nodeAvailable, resolves, throws) {
      var j :| 0 <= j < i && ids[..i][j] == h && RemovedIn(start, h, clock(j), nodeAvailable, resolves, throws);
      assert ids[..i + 1][j] == h;
    }
    if h == ids[i] && RemovedIn(start, h, clock(i), nodeAvailable, resolves, throws) {
      assert ids[..i + 1][i] == h;
    }
  }

  /** Every restored id's snapshot is gone: the turn that restored it deleted it. */
  lemma RestoredAreGone(cur: Directory, start: Directory, done: seq<string>, restored: seq<string>, clock: nat -> int,
                        nodeAvailable: bool, resolves: string -> bool, throws: string -> bool)
    requires Processed(cur, start, done, clock, nodeAvailable, resolves, throws)
    requires RestoredExactly(restored, done, start, clock, nodeAvailable, resolves, throws)
    ensures forall g :: g in restored ==> LoadFrom(cur, g).None?
  {
    forall g | g in restored
      ensures LoadFrom(cur, g).None?
    {
      var j :| RestoredAt(start, done, j, clock, nodeAvailable, resolves, throws) && done[j] == g;
      assert RemovedIn(start, g, clock(j), nodeAvailable, resolves, throws);
    }
  }

  /** The loads of `dir` after the turns `done` from `start`: a removed id loads null, every other as before. */
  ghost predicate Processed(dir: Directory, start: Directory, done: seq<string>, clock: nat -> int, nodeAvailable: bool,
                            resolves: string -> bool, throws: string -> bool) {
    forall h :: LoadFrom(dir, h) == if RemovedBy(start, done, h, clock, nodeAvailable, resolves, throws)
      then None else LoadFrom(start, h)
  }

  /**
   * Processing the next id keeps the loads described by Processed, and the
   * id is restored exactly when this is its first turn and its snapshot is
   * restorable at this turn's clock reading.
   */
  lemma ProcessedStep(cur: Directory, start: Directory, ids: seq<string>, i: nat, clock: nat -> int, nodeAvailable: bool,
                      resolves: string -> bool, throws: string -> bool)
    requires i < |ids| && SelfNamed(start, ids)
    requires Processed(cur, start, ids[..i], clock, nodeAvailable, resolves, throws)
    ensures Processed(AfterRestoreOne(cur, ids[i], clock(i), nodeAvailable, resolves, throws), start, ids[..i + 1],
      clock, nodeAvailable, resolves, throws)
    ensures RestorableIn(cur, ids[i], clock(i), nodeAvailable, resolves) && !throws(ids[i]) <==>
      RestoredAt(start, ids[..i + 1], i, clock, nodeAvailable, resolves, throws)
  {
    var g := ids[i];
    var after := AfterRestoreOne(cur, g, clock(i), nodeAvailable, resolves, throws);
    assert g in ids;
    assert LoadFrom(cur, g) == if RemovedBy(start, ids[..i], g, clock, nodeAvailable, resolves, throws) then None else LoadFrom(start, g);
    forall h
      ensures LoadFrom(after, h)
        == if RemovedBy(start, ids[..i + 1], h, clock, nodeAvailable, resolves, throws) then None else LoadFrom(start, h)
    {
      AfterRestoreOneLoads(cur, g, clock(i), nodeAvailable, resolves, throws, h);
      RemovedBySnoc(start, ids, i, h, clock, nodeAvailable, resolves, throws);
      assert LoadFrom(cur, h) == if RemovedBy(start, ids[..i], h, clock, nodeAvailable, resolves, throws) then None else LoadFrom(start, h);
    }
    assert ids[..i + 1][..i] == ids[..i] && ids[..i + 1][i] == g;
    if g !in ids[..i] {
      assert !RemovedBy(start, ids[..i], g, clock, nodeAvailable, resolves, throws);
    }
  }

  /**
   * One id of the listing, at the clock reading `now` of its turn: a null load
   * is skipped, a stale snapshot deleted, any other restored on its own; the
   * directory becomes AfterRestoreOne. Only the guild the snapshot names can
   * see its player change: not at all on a null load, a stale snapshot, a
   * missing node or an error after the checks; cleaned up on the other
   * failures; restored on success.
   */
  method RestoreOne(store: SessionStore, m: Manager, g: string, now: int, nodeAvailable: bool,
                    resolves: string -> bool, lava: string -> Option<LavaPlayer>, throws: string -> bool)
    returns (ok: bool)
    requires m.Valid()
    modifies store, m, m.players.Values
    ensures m.Valid()
    ensures forall q :: q in m.players.Values ==> q in old(m.players.Values) || fresh(q)
    ensures store.files == AfterRestoreOne(old(store.files), g, now, nodeAvailable, resolves, throws)
    ensures ok <==> RestorableIn(old(store.files), g, now, nodeAvailable, resolves) && !throws(g)
    ensures Shrunk(store.files, old(store.files))
    ensures StaleIn(old(store.files), g, now) ==> FileName(g) !in store.files
    ensures DoomedIn(old(store.files), g, nodeAvailable, resolves, throws) ==> FileName(g) !in store.files
    ensures var loaded := LoadFrom(old(store.files), g);
      loaded.None? || Stale(now, loaded.value.timestamp)
      || Check(loaded.value, nodeAvailable, resolves) == NoNode
      || (Check(loaded.value, nodeAvailable, resolves) == Restore && throws(g)) ==>
        m.players == old(m.players) && forall q :: q in old(m.players.Values) ==> unchanged(q)
    ensures var loaded := LoadFrom(old(store.files), g);
      loaded.Some? ==>
        m.players - {loaded.value.guildId} == old(m.players) - {loaded.value.guildId}
        && forall q :: q in old(m.players.Values) && q.guildId != loaded.value.guildId ==> unchanged(q)
    ensures var loaded := LoadFrom(old(store.files), g);
      loaded.Some? && !Stale(now, loaded.value.timestamp) && CleansUp(Check(loaded.value, nodeAvailable, resolves)) ==>
        m.players == old(m.players) - {loaded.value.guildId}
        && (loaded.value.guildId in old(m.players) ==>
              old(m.players)[loaded.value.guildId].stoppedByCommand && old(m.players)[loaded.value.guildId].destroyed)
    ensures var loaded := LoadFrom(old(store.files), g);
      ok ==> (loaded.Some? && loaded.value.guildId in m.players
        && m.players.Keys == old(m.players).Keys + {loaded.value.guildId}
        && Restored(m.players[loaded.value.guildId], loaded.value, lava(loaded.value.guildId),
                    old(QueueBefore(m.players, loaded.value.guildId)), old(RepeatBefore(m.players, loaded.value.guildId))))
  {
    var loaded := store.Load(g);
    if loaded.None? {
      return false;
    }
    var session := loaded.value;
    if Stale(now, session.timestamp) {
      store.Delete(g);
      return false;
    }
    ok := RestorePlayerSession(store, m, session, nodeAvailable, resolves, lava(session.guildId), throws(g));
  }

  lemma ShrunkTransitive(a: Directory, b: Directory, c: Directory)
    requires Shrunk(a, b) && Shrunk(b, c)
    ensures Shrunk(a, c)
  {
  }

  /** The per-guild predicates of a directory hold of a shrunk one's loads that are still there. */
  lemma StaleInShrunk(now': Directory, before: Directory, g: string, now: int)
    requires Shrunk(now', before)
    ensures StaleIn(now', g, now) ==> StaleIn(before, g, now)
  {
  }

  lemma DoomedInShrunk(now': Directory, before: Directory, g: string, nodeAvailable: bool, resolves: string -> bool,
                       throws: string -> bool)
    requires Shrunk(now', before)
    ensures DoomedIn(now', g, nodeAvailable, resolves, throws) ==> DoomedIn(before, g, nodeAvailable, resolves, throws)
  {
  }

  lemma RestorableInShrunk(now': Directory, before: Directory, g: string, now: int, nodeAvailable: bool,
                           resolves: string -> bool)
    requires Shrunk(now', before)
    ensures RestorableIn(now', g, now, nodeAvailable, resolves) ==> RestorableIn(before, g, now, nodeAvailable, resolves)
  {
  }
}
