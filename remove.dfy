/**
 * The remove command (src/commands/remove.ts): the user's 1-based position
 * (a number option, so possibly fractional) becomes a 0-based one, is checked
 * against the queue and names the waiting track to drop.
 */
module RemoveCommand {
  import opened Wrappers
  import opened Tracks
  import opened Players
  import opened Guards

  datatype Reply =
    | NotAllowed
    | InvalidIndex
    | NoTrackAt(asked: real)
    | Removed(shown: nat, title: string)

  /** `getNumber('index') - 1`, then the range check and the lookup `queue[index]`; Ok is the position to drop. */
  function RemoveTarget(n: real, size: nat): (r: Result<nat, Reply>)
    ensures r.Ok? <==> 1.0 <= n <= size as real && n == n.Floor as real
    ensures r.Ok? ==> r.value as real == n - 1.0 && r.value < size
    ensures n - 1.0 < 0.0 || n - 1.0 >= size as real ==> r == Err(InvalidIndex)
    ensures 0.0 <= n - 1.0 < size as real && n != n.Floor as real ==> r == Err(NoTrackAt(n))
  {
    var index := n - 1.0;
    FloorOfPredecessor(n);
    if index < 0.0 || index >= size as real then Err(InvalidIndex)
    else if index != index.Floor as real then Err(NoTrackAt(index + 1.0))
    else Ok(index.Floor)
  }

  /** Subtracting one keeps a number whole or fractional. */
  lemma FloorOfPredecessor(n: real)
    ensures (n - 1.0).Floor == n.Floor - 1
    ensures (n - 1.0 == (n - 1.0).Floor as real) <==> (n == n.Floor as real)
  {
  }

  /** Every position the user can see, 1 to the queue size, names the track shown there. */
  lemma EveryShownPositionRemovable(k: nat, size: nat)
    requires 1 <= k <= size
    ensures RemoveTarget(k as real, size) == Ok(k - 1)
  {
  }

  /** The remove command; `n` is the number the user gave, `memberChannel` their voice channel. */
  method Execute(m: Manager, guildId: string, memberChannel: Option<string>, n: real) returns (reply: Reply)
    requires m.Valid()
    modifies m.players.Values
    ensures m.players == old(m.players)
    ensures !(InVoice(memberChannel) && old(SameVoice(m.players, guildId, memberChannel) && PlayingLegacy(m.players, guildId)))
      ==> reply == NotAllowed
    ensures InVoice(memberChannel) && old(SameVoice(m.players, guildId, memberChannel) && PlayingLegacy(m.players, guildId)) ==>
      guildId in m.players
      && reply == match RemoveTarget(n, Size(old(m.players[guildId].queue)))
                  case Err(e) => e
                  case Ok(i) => Removed(i + 1, old(m.players[guildId].queue).tracks[i].title)
    ensures !reply.Removed? ==> forall p :: p in m.players.Values ==> unchanged(p)
    ensures reply.Removed? ==>
      (guildId in m.players
       && RemoveTarget(n, Size(old(m.players[guildId].queue))) == Ok(reply.shown - 1)
       && reply.title == old(m.players[guildId].queue.tracks[reply.shown - 1].title)
       && m.players[guildId].queue.current == old(m.players[guildId].queue.current)
       && m.players[guildId].queue.tracks
          == old(m.players[guildId].queue.tracks[..reply.shown - 1] + m.players[guildId].queue.tracks[reply.shown..]))
  {
    if !InVoice(memberChannel) || !SameVoice(m.players, guildId, memberChannel) || !PlayingLegacy(m.players, guildId) {
      return NotAllowed;
    }
    var p := m.players[guildId];
    var target := RemoveTarget(n, Size(p.queue));
    if target.Err? {
      return target.error;
    }
    var index := target.value;
    var track := p.queue.tracks[index];
    p.Remove(index);
    return Removed(index + 1, track.title);
  }
}
