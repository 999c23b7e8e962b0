/**
 * The repeat command (src/commands/repeat.ts): the `track`, `queue` and `off`
 * subcommands flip the player's (trackRepeat, queueRepeat) pair through the
 * library's setters, which switch the other mode off.
 */
module RepeatCommand {
  import opened Wrappers
  import opened Players
  import opened Guards

  datatype Subcommand = TrackMode | QueueMode | Off

  /** The replies; `trackTurnedOff` is the extra line shown when queue repeat displaces track repeat. */
  datatype Reply =
    | NotAllowed
    | TrackRepeatNow(enabled: bool)
    | QueueRepeatNow(enabled: bool, trackTurnedOff: bool)
    | AlreadyOff
    | TurnedOff

  /** The modes after a subcommand. */
  function NextModes(r: Repeat, sub: Subcommand): (n: Repeat)
    ensures sub == TrackMode ==> n.track == !r.track && !n.queue
    ensures sub == QueueMode ==> n.queue == !r.queue && !n.track
    ensures sub == Off ==> n == Repeat(false, false)
    ensures !(n.track && n.queue)
  {
    match sub
    case TrackMode => TrackRepeatSet(!r.track)
    case QueueMode => QueueRepeatSet(!r.queue)
    case Off => if !r.track && !r.queue then r else QueueRepeatSet(false)
  }

  /** The reply to a subcommand. */
  function ReplyTo(r: Repeat, sub: Subcommand): (reply: Reply)
    ensures sub == Off ==> (reply == AlreadyOff <==> r == Repeat(false, false))
    ensures reply.QueueRepeatNow? && reply.trackTurnedOff ==> r.track && !NextModes(r, sub).track
  {
    match sub
    case TrackMode => TrackRepeatNow(!r.track)
    case QueueMode => QueueRepeatNow(!r.queue, !r.queue && r.track)
    case Off => if !r.track && !r.queue then AlreadyOff else TurnedOff
  }

  /** `track` twice gives back the track mode it started with, and leaves queue repeat off. */
  lemma TrackTwiceRestores(r: Repeat)
    ensures NextModes(NextModes(r, TrackMode), TrackMode) == Repeat(r.track, false)
  {
  }

  /** `off` twice: the second finds repeat already off and changes nothing. */
  lemma OffTwice(r: Repeat)
    ensures NextModes(NextModes(r, Off), Off) == NextModes(r, Off)
    ensures ReplyTo(NextModes(r, Off), Off) == AlreadyOff
  {
  }

  /** The repeat command on the guild's player. */
  method Execute(m: Manager, guildId: string, memberChannel: Option<string>, sub: Subcommand) returns (reply: Reply)
    requires m.Valid()
    modifies m.players.Values`repeat
    ensures m.players == old(m.players)
    ensures forall g :: g in m.players && g != guildId ==> unchanged(m.players[g])
    ensures !(InVoice(memberChannel) && old(SameVoice(m.players, guildId, memberChannel) && Playing(m.players, guildId)))
      ==> reply == NotAllowed && forall p :: p in m.players.Values ==> unchanged(p)
    ensures InVoice(memberChannel) && old(SameVoice(m.players, guildId, memberChannel) && Playing(m.players, guildId)) ==>
      reply != NotAllowed
    ensures reply != NotAllowed ==>
      (guildId in m.players
       && reply == ReplyTo(old(m.players[guildId].repeat), sub)
       && m.players[guildId].repeat == NextModes(old(m.players[guildId].repeat), sub))
    ensures forall p :: p in m.players.Values ==> p.queue == old(p.queue) && p.playing == old(p.playing)
  {
    if !InVoice(memberChannel) || !SameVoice(m.players, guildId, memberChannel) || !Playing(m.players, guildId) {
      return NotAllowed;
    }
    var p := m.players[guildId];
    match sub
    case TrackMode =>
      var enabled := !p.repeat.track;
      p.SetTrackRepeat(enabled);
      reply := TrackRepeatNow(enabled);
    case QueueMode =>
      var enabled := !p.repeat.queue;
      var displaced := enabled && p.repeat.track;
      p.SetQueueRepeat(enabled);
      reply := QueueRepeatNow(enabled, displaced);
    case Off =>
      if !p.repeat.track && !p.repeat.queue {
        return AlreadyOff;
      }
      p.SetTrackRepeat(false);
      p.SetQueueRepeat(false);
      reply := TurnedOff;
  }
}
