/**
 * The guards every player command runs first: ensureVoiceChannel,
 * ensureSameVoiceChannel and ensurePlaying. The commands under src/commands
 * import the versions in src/utils/playerUtils.ts, except repeat and seek, which
 * import those of src/utils/music/playerUtils.ts; the two ensurePlaying differ.
 * The member's voice channel is an input.
 */
module Guards {
  import opened Wrappers
  import opened Tracks
  import opened Players

  /** ensureVoiceChannel: the member is in a voice channel. */
  predicate InVoice(memberChannel: Option<string>) {
    memberChannel.Some?
  }

  /** ensureSameVoiceChannel: the guild has no player, or the member is in the player's channel. */
  predicate SameVoice(players: map<string, Player>, guildId: string, memberChannel: Option<string>)
    reads players.Values
  {
    guildId !in players || memberChannel == players[guildId].voiceChannelId
  }

  /** ensurePlaying of src/utils/playerUtils.ts: a player that is playing and has a current track. */
  predicate PlayingLegacy(players: map<string, Player>, guildId: string)
    reads players.Values
  {
    guildId in players && players[guildId].playing && players[guildId].queue.current.Some?
  }

  /** ensurePlaying of src/utils/music/playerUtils.ts: a paused player passes too. */
  predicate Playing(players: map<string, Player>, guildId: string)
    reads players.Values
  {
    guildId in players && (players[guildId].playing || players[guildId].paused)
    && players[guildId].queue.current.Some?
  }

  /** The newer guard admits every player the older one does, and paused ones besides. */
  lemma PlayingLegacyIsStricter(players: map<string, Player>, guildId: string)
    ensures PlayingLegacy(players, guildId) ==> Playing(players, guildId)
    ensures (guildId in players && players[guildId].paused && !players[guildId].playing && players[guildId].queue.current.Some?)
      ==> (Playing(players, guildId) && !PlayingLegacy(players, guildId))
  {
  }
}
