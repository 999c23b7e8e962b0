/**
 * The skip command (src/commands/skip.ts): the count (default 1) is checked
 * against the queue before `stop(count)`.
 */
module SkipCommand {
  import opened Wrappers
  import opened Tracks
  import opened Players
  import opened Guards

  datatype Reply = NotAllowed | CountBelowOne | CountBeyondQueue(size: nat) | Skipped(count: nat)

  /** `getInteger('count') ?? 1` and the two range checks; Ok is the count to pass to `stop`. */
  function SkipCount(count: Option<int>, size: nat): (r: Result<nat, Reply>)
    ensures count.None? && size >= 1 ==> r == Ok(1)
    ensures r.Ok? <==> 1 <= (if count.Some? then count.value else 1) <= size
    ensures r.Ok? ==> r.value == (if count.Some? then count.value else 1)
    ensures count.Some? && count.value < 1 ==> r == Err(CountBelowOne)
  {
    var c := if count.Some? then count.value else 1;
    if c < 1 then Err(CountBelowOne)
    else if c > size then Err(CountBeyondQueue(size))
    else Ok(c)
  }

  /** With nothing waiting even the default count is turned down. */
  lemma NothingToSkipTo()
    ensures SkipCount(None, 0) == Err(CountBeyondQueue(0))
  {
  }

  /** The skip command; `stop(count)` is reached only with 1 <= count <= queue size. */
  method Execute(m: Manager, guildId: string, memberChannel: Option<string>, count: Option<int>) returns (reply: Reply)
    requires m.Valid()
    modifies m.players.Values
    ensures m.players == old(m.players)
    ensures !(InVoice(memberChannel) && old(SameVoice(m.players, guildId, memberChannel) && PlayingLegacy(m.players, guildId)))
      ==> reply == NotAllowed
    ensures InVoice(memberChannel) && old(SameVoice(m.players, guildId, memberChannel) && PlayingLegacy(m.players, guildId)) ==>
      guildId in m.players
      && reply == match SkipCount(count, Size(old(m.players[guildId].queue)))
                  case Err(e) => e
                  case Ok(c) => Skipped(c)
    ensures !reply.Skipped? ==> forall p :: p in m.players.Values ==> unchanged(p)
    ensures reply.Skipped? ==>
      (guildId in m.players
       && SkipCount(count, Size(old(m.players[guildId].queue))) == Ok(reply.count)
       && 1 <= reply.count <= |old(m.players[guildId].queue.tracks)|
       && m.players[guildId].queue
          == Queue(Some(old(m.players[guildId].queue.tracks[reply.count - 1])), old(m.players[guildId].queue.tracks[reply.count..])))
  {
    if !InVoice(memberChannel) || !SameVoice(m.players, guildId, memberChannel) || !PlayingLegacy(m.players, guildId) {
      return NotAllowed;
    }
    var p := m.players[guildId];
    var checked := SkipCount(count, Size(p.queue));
    if checked.Err? {
      return checked.error;
    }
    p.Stop(checked.value);
    return Skipped(checked.value);
  }
}
