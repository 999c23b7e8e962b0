/**
 * The voice-state handler (src/events/voiceStateUpdate.ts): when everyone but
 * bots leaves the bot's channel the player is paused and a ten-minute timer
 * that destroys it is started; a member coming back resumes playback and
 * cancels the timer; a bot kicked from its channel stops the player at once.
 *
 * The module-level `activePlayers` map (guild id to timeout handle) and the
 * timeouts themselves are `Timers`: each handle is a number, and `pending`
 * holds the guild id and the player each not-yet-fired timeout captured. A
 * timeout firing is the event `Fire`.
 */
module VoiceState {
  import opened Wrappers
  import opened Players

  /** What a pending timeout will act on when it fires. */
  datatype Timer = Timer(guildId: string, player: Player)

  datatype Timers = Timers(active: map<string, nat>, pending: map<nat, Timer>, next: nat)

  /**
   * `activePlayers` and the pending timeouts describe each other: every entry
   * names a pending timeout of its guild, and every pending timeout is the one
   * its guild's entry names.
   */
  predicate Tracked(t: Timers) {
    (forall g :: g in t.active ==> t.active[g] in t.pending && t.pending[t.active[g]].guildId == g)
    && (forall id :: id in t.pending ==>
          t.pending[id].guildId in t.active && t.active[t.pending[id].guildId] == id
          && t.pending[id].player.guildId == t.pending[id].guildId)
    && (forall id :: id in t.pending ==> id < t.next)
  }

  /** The ids of the pending timeouts that will act on a guild. */
  function TimersOf(t: Timers, g: string): set<nat> {
    set id | id in t.pending && t.pending[id].guildId == g
  }

  /** While the two maps track each other there is at most one pending timeout per guild. */
  lemma OneTimerPerGuild(t: Timers, g: string)
    requires Tracked(t)
    ensures TimersOf(t, g) == if g in t.active then {t.active[g]} else {}
  {
    if g in t.active {
      assert t.active[g] in TimersOf(t, g);
    }
  }

  /** handleEmptyChannel: start a timeout only when the guild has none. */
  function Schedule(t: Timers, g: string, p: Player): Timers {
    if g in t.active then t
    else Timers(t.active[g := t.next], t.pending[t.next := Timer(g, p)], t.next + 1)
  }

  lemma ScheduleKeepsTracked(t: Timers, g: string, p: Player)
    requires Tracked(t) && p.guildId == g
    ensures Tracked(Schedule(t, g, p))
    ensures g in Schedule(t, g, p).active
    ensures g in t.active ==> Schedule(t, g, p) == t
  {
    if g !in t.active {
      var s := Schedule(t, g, p);
      forall id | id in s.pending
        ensures s.pending[id].guildId in s.active && s.active[s.pending[id].guildId] == id
      {
        if id != t.next {
          assert id in t.pending;
          assert t.pending[id].guildId != g;
        }
      }
    }
  }

  /** handleMemberJoin: `clearTimeout` the guild's timeout and delete its entry. */
  function Cancel(t: Timers, g: string): Timers {
    if g in t.active then Timers(t.active - {g}, t.pending - {t.active[g]}, t.next) else t
  }

  /** After a cancel no timeout is left that could destroy the guild's player. */
  lemma CancelKeepsTracked(t: Timers, g: string)
    requires Tracked(t)
    ensures Tracked(Cancel(t, g))
    ensures g !in Cancel(t, g).active && TimersOf(Cancel(t, g), g) == {}
  {
    var c := Cancel(t, g);
    forall id | id in c.pending
      ensures c.pending[id].guildId != g
    {
      assert id in t.pending;
      if g in t.active {
        assert id != t.active[g];
      }
    }
  }

  /** The timeout's callback: its guild's entry is deleted along with the timeout itself. */
  function Fired(t: Timers, id: nat): Timers {
    if id in t.pending then Timers(t.active - {t.pending[id].guildId}, t.pending - {id}, t.next) else t
  }

  lemma FiredKeepsTracked(t: Timers, id: nat)
    requires Tracked(t)
    ensures Tracked(Fired(t, id))
    ensures id in t.pending ==> TimersOf(Fired(t, id), t.pending[id].guildId) == {}
  {
    if id in t.pending {
      var g := t.pending[id].guildId;
      var f := Fired(t, id);
      forall j | j in f.pending
        ensures f.pending[j].guildId != g
      {
        assert j in t.pending && j != id;
      }
    }
  }

  /** handleBotKicked as written: the entry is deleted but the timeout is not cleared. */
  function ForgetAsWritten(t: Timers, g: string): Timers {
    t.(active := t.active - {g})
  }

  /** A kick while a timeout is pending leaves that timeout running with no entry that names it. */
  lemma ForgetLeavesStrayTimer(t: Timers, g: string)
    requires Tracked(t) && g in t.active
    ensures !Tracked(ForgetAsWritten(t, g))
    ensures t.active[g] in TimersOf(ForgetAsWritten(t, g), g) && g !in ForgetAsWritten(t, g).active
  {
    var f := ForgetAsWritten(t, g);
    assert t.active[g] in f.pending && f.pending[t.active[g]].guildId == g;
  }

  /**
   * The consequence: a new player for the guild that is left alone gets a second
   * timeout; when the stray one fires it deletes the new entry, so a member
   * coming back cancels nothing and the new player is still destroyed.
   */
  lemma StrayTimerOutlivesRejoin(t: Timers, g: string, newPlayer: Player)
    requires Tracked(t) && g in t.active
    ensures var stray := t.active[g];
      var again := Schedule(ForgetAsWritten(t, g), g, newPlayer);
      var later := t.next;
      stray in again.pending && later in again.pending && stray != later
      && again.pending[stray].guildId == g && again.pending[later] == Timer(g, newPlayer)
      && later in Cancel(Fired(again, stray), g).pending
  {
    var stray := t.active[g];
    var again := Schedule(ForgetAsWritten(t, g), g, newPlayer);
    assert stray < t.next;
    var fired := Fired(again, stray);
    assert g !in fired.active;
  }

  /** The monitor of the handler's module: the `activePlayers` map and its timeouts. */
  class Monitor {
    var timers: Timers

    predicate Valid()
      reads this
    {
      Tracked(timers)
    }

    constructor()
      ensures Valid() && timers == Timers(map[], map[], 0)
    {
      timers := Timers(map[], map[], 0);
    }

    /** handleBotKicked, with the pending timeout cleared as well. */
    method Kick(m: Manager, p: Player)
      requires Valid() && m.Valid() && p.guildId in m.players && m.players[p.guildId] == p
      modifies this, m, p`stoppedByCommand, p`destroyed, p`connected, p`playing
      ensures Valid() && m.Valid()
      ensures timers == Cancel(old(timers), p.guildId)
      ensures m.players == old(m.players) - {p.guildId}
      ensures p.stoppedByCommand && p.destroyed && !p.connected && !p.playing
    {
      p.MarkStoppedByCommand();
      m.Destroy(p);
      CancelKeepsTracked(timers, p.guildId);
      timers := Cancel(timers, p.guildId);
    }

    /** handleBotKicked as the source has it. */
    method KickAsWritten(m: Manager, p: Player)
      requires Valid() && m.Valid() && p.guildId in m.players && m.players[p.guildId] == p
      modifies this, m, p`stoppedByCommand, p`destroyed, p`connected, p`playing
      ensures m.Valid()
      ensures timers == ForgetAsWritten(old(timers), p.guildId)
      ensures p.guildId in old(timers.active) ==> !Valid()
      ensures m.players == old(m.players) - {p.guildId}
      ensures p.stoppedByCommand && p.destroyed && !p.connected && !p.playing
    {
      p.MarkStoppedByCommand();
      m.Destroy(p);
      if p.guildId in timers.active {
        ForgetLeavesStrayTimer(timers, p.guildId);
      }
      timers := ForgetAsWritten(timers, p.guildId);
    }

    /**
     * One voice-state update for a guild: `botInChannel` is whether the bot is
     * still in a voice channel there, `listeners` the number of non-bot members
     * in that channel.
     */
    method Handle(m: Manager, guildId: string, botInChannel: bool, listeners: nat)
      requires Valid() && m.Valid()
      modifies this, m, m.players.Values
      ensures Valid() && m.Valid()
      ensures forall q :: q in old(m.players.Values) && q.guildId != guildId ==> unchanged(q)
      ensures guildId !in old(m.players) ==>
        (timers == old(timers) && m.players == old(m.players)
         && forall q :: q in old(m.players.Values) ==> unchanged(q))
      ensures guildId in old(m.players) && !botInChannel ==>
        (timers == Cancel(old(timers), guildId) && m.players == old(m.players) - {guildId}
         && old(m.players[guildId]).stoppedByCommand && old(m.players[guildId]).destroyed)
      ensures guildId in old(m.players) && botInChannel && listeners == 0 ==>
        (timers == Schedule(old(timers), guildId, old(m.players[guildId])) && m.players == old(m.players)
         && m.players[guildId].paused
         && m.players[guildId].playing == (old(m.players[guildId].playing) && old(m.players[guildId].paused)))
      ensures guildId in old(m.players) && botInChannel && listeners > 0 ==>
        (timers == Cancel(old(timers), guildId) && m.players == old(m.players)
         && !m.players[guildId].paused
         && m.players[guildId].playing == (old(m.players[guildId].playing) || old(m.players[guildId].paused)))
      ensures guildId in old(m.players) && botInChannel ==>
        var p: Player := old(m.players[guildId]);
        unchanged(p`queue, p`repeat, p`position, p`connected, p`destroyed, p`stoppedByCommand, p`isAutoplay,
                  p`volume, p`textChannelId, p`voiceChannelId, p`autoplayEnabled, p`playHistory, p`autoplayHistory)
      ensures guildId in old(m.players) && !botInChannel ==>
        var p: Player := old(m.players[guildId]);
        unchanged(p`queue, p`repeat, p`paused, p`position, p`isAutoplay, p`volume, p`textChannelId,
                  p`voiceChannelId, p`autoplayEnabled, p`playHistory, p`autoplayHistory)
    {
      if guildId !in m.players {
        return;
      }
      var p := m.players[guildId];
      if !botInChannel {
        Kick(m, p);
      } else if listeners == 0 {
        if !p.paused {
          p.Pause(true);
        }
        ScheduleKeepsTracked(timers, guildId, p);
        timers := Schedule(timers, guildId, p);
      } else {
        if p.paused {
          p.Pause(false);
        }
        CancelKeepsTracked(timers, guildId);
        timers := Cancel(timers, guildId);
      }
    }

    /** A pending timeout fires: its player is marked, destroyed and its guild's entry deleted. */
    method Fire(m: Manager, id: nat)
      requires Valid() && m.Valid()
      modifies this, m, if id in timers.pending then {timers.pending[id].player} else {}
      ensures Valid() && m.Valid()
      ensures timers == Fired(old(timers), id)
      ensures id !in old(timers.pending) ==> m.players == old(m.players)
      ensures id in old(timers.pending) ==>
        (m.players == old(m.players) - {old(timers.pending[id]).guildId}
         && old(timers.pending[id]).player.stoppedByCommand && old(timers.pending[id]).player.destroyed)
    {
      if id !in timers.pending {
        return;
      }
      var timer := timers.pending[id];
      timer.player.MarkStoppedByCommand();
      m.Destroy(timer.player);
      FiredKeepsTracked(timers, id);
      timers := Fired(timers, id);
    }
  }
}
