/**
 * Per-command, per-user cooldowns (src/managers/CooldownManager.ts).
 *
 * The clock (`DateTime.now().toMillis()`) is the parameter `now`. The
 * `setTimeout` that forgets a user's timestamp after the cooldown is not
 * modelled: it deletes from the per-command map it captured, which after
 * `clearAllCooldowns` is no longer the one in the table.
 */
module Cooldowns {
  import opened Wrappers

  /** What `checkCooldown` returns: `{onCooldown: false}` or `{onCooldown: true, timeLeft}`. */
  datatype Verdict = Ready | OnCooldown(timeLeft: int)

  /** `Math.ceil(ms / 1000)` for a positive number of milliseconds. */
  function SecondsLeft(ms: int): (r: int)
    requires ms > 0
    ensures r >= 1
    ensures (r - 1) * 1000 < ms <= r * 1000
  {
    (ms + 999) / 1000
  }

  /** The per-user timestamps of one command; a command never checked has none. */
  function Table(cooldowns: map<string, map<string, int>>, commandName: string): map<string, int> {
    if commandName in cooldowns then cooldowns[commandName] else map[]
  }

  /** `timestamps.get(userId)` read through `if (timestamp)`: absent and 0 both give 0. */
  function Stamp(cooldowns: map<string, map<string, int>>, commandName: string, userId: string): int {
    var t := Table(cooldowns, commandName);
    if userId in t then t[userId] else 0
  }

  /** The answer of `checkCooldown`. */
  function CheckVerdict(cooldowns: map<string, map<string, int>>, commandName: string, userId: string,
                        cooldownSeconds: nat, now: int): (r: Verdict)
    ensures var t := Stamp(cooldowns, commandName, userId);
      (r.OnCooldown? <==> t != 0 && now < t + cooldownSeconds * 1000)
      && (r.OnCooldown? ==>
            r.timeLeft >= 1 && (r.timeLeft - 1) * 1000 < t + cooldownSeconds * 1000 - now <= r.timeLeft * 1000)
  {
    var t := Stamp(cooldowns, commandName, userId);
    if t != 0 && now < t + cooldownSeconds * 1000 then OnCooldown(SecondsLeft(t + cooldownSeconds * 1000 - now))
    else Ready
  }

  /** The map after `checkCooldown`: the command's table exists, and a Ready user is stamped with now. */
  function CheckState(cooldowns: map<string, map<string, int>>, commandName: string, userId: string,
                      cooldownSeconds: nat, now: int): (r: map<string, map<string, int>>)
    ensures commandName in r
    ensures forall c :: c != commandName ==> (c in r <==> c in cooldowns)
    ensures forall c :: c != commandName && c in r ==> r[c] == cooldowns[c]
    ensures CheckVerdict(cooldowns, commandName, userId, cooldownSeconds, now).OnCooldown?
      ==> r[commandName] == Table(cooldowns, commandName)
    ensures CheckVerdict(cooldowns, commandName, userId, cooldownSeconds, now).Ready?
      ==> r[commandName] == Table(cooldowns, commandName)[userId := now]
  {
    var t := Table(cooldowns, commandName);
    if CheckVerdict(cooldowns, commandName, userId, cooldownSeconds, now).OnCooldown? then cooldowns[commandName := t]
    else cooldowns[commandName := t[userId := now]]
  }

  /** A second check inside the cooldown window is refused, with the seconds still to wait. */
  lemma RecheckIsRefused(cooldowns: map<string, map<string, int>>, commandName: string, userId: string,
                         cooldownSeconds: nat, now: int, later: int)
    requires CheckVerdict(cooldowns, commandName, userId, cooldownSeconds, now).Ready?
    requires now != 0 && now <= later < now + cooldownSeconds * 1000
    ensures CheckVerdict(CheckState(cooldowns, commandName, userId, cooldownSeconds, now),
                         commandName, userId, cooldownSeconds, later)
         == OnCooldown(SecondsLeft(now + cooldownSeconds * 1000 - later))
  {
    var after := CheckState(cooldowns, commandName, userId, cooldownSeconds, now);
    assert Stamp(after, commandName, userId) == now;
  }

  /**
   * Once a full cooldown has passed since a check, the user is let through
   * again, whether that check was accepted or refused (stamps lie in the past).
   */
  lemma ReadyAfterWindow(cooldowns: map<string, map<string, int>>, commandName: string, userId: string,
                         cooldownSeconds: nat, now: int, later: int)
    requires Stamp(cooldowns, commandName, userId) <= now
    requires later >= now + cooldownSeconds * 1000
    ensures CheckVerdict(CheckState(cooldowns, commandName, userId, cooldownSeconds, now),
                         commandName, userId, cooldownSeconds, later) == Ready
  {
    var after := CheckState(cooldowns, commandName, userId, cooldownSeconds, now);
    var t := Stamp(cooldowns, commandName, userId);
    if CheckVerdict(cooldowns, commandName, userId, cooldownSeconds, now).OnCooldown? {
      assert Stamp(after, commandName, userId) == t;
      assert t + cooldownSeconds * 1000 <= now + cooldownSeconds * 1000;
    } else {
      assert Stamp(after, commandName, userId) == now;
    }
  }

  /** A check made at clock reading 0 stamps 0, which reads back as no stamp at all. */
  lemma StampAtZeroIsIgnored(cooldowns: map<string, map<string, int>>, commandName: string, userId: string,
                             cooldownSeconds: nat)
    requires CheckVerdict(cooldowns, commandName, userId, cooldownSeconds, 0).Ready?
    ensures CheckVerdict(CheckState(cooldowns, commandName, userId, cooldownSeconds, 0),
                         commandName, userId, cooldownSeconds, 0) == Ready
  {
    assert Stamp(CheckState(cooldowns, commandName, userId, cooldownSeconds, 0), commandName, userId) == 0;
  }

  /** `clearCooldown`: the user's stamp under that command goes; nothing else changes. */
  function ClearedOne(cooldowns: map<string, map<string, int>>, commandName: string, userId: string)
    : (r: map<string, map<string, int>>)
    ensures r.Keys == cooldowns.Keys
    ensures forall c :: c in r && c != commandName ==> r[c] == cooldowns[c]
    ensures commandName in r ==> r[commandName] == cooldowns[commandName] - {userId}
  {
    if commandName in cooldowns then cooldowns[commandName := cooldowns[commandName] - {userId}] else cooldowns
  }

  /** After its stamp is cleared (or its timer fires) the user is let through at any time. */
  lemma ReadyAfterClear(cooldowns: map<string, map<string, int>>, commandName: string, userId: string,
                        cooldownSeconds: nat, now: int)
    ensures CheckVerdict(ClearedOne(cooldowns, commandName, userId), commandName, userId, cooldownSeconds, now) == Ready
  {
    assert Stamp(ClearedOne(cooldowns, commandName, userId), commandName, userId) == 0;
  }

  /** `clearAllCooldowns(name)`: a non-empty name drops that command's table; no name, or "", drops all. */
  function ClearedAll(cooldowns: map<string, map<string, int>>, commandName: Option<string>)
    : (r: map<string, map<string, int>>)
    ensures commandName.Some? && commandName.value != "" ==> r == cooldowns - {commandName.value}
    ensures commandName.None? || commandName.value == "" ==> r == map[]
  {
    if commandName.Some? && commandName.value != "" then cooldowns - {commandName.value} else map[]
  }

  /** Every user of a dropped command is let through again. */
  lemma ReadyAfterClearAll(cooldowns: map<string, map<string, int>>, commandName: Option<string>, userId: string,
                           cooldownSeconds: nat, now: int)
    requires commandName.Some?
    ensures CheckVerdict(ClearedAll(cooldowns, commandName), commandName.value, userId, cooldownSeconds, now) == Ready
  {
    assert Stamp(ClearedAll(cooldowns, commandName), commandName.value, userId) == 0;
  }

  /** The manager object: command name to user id to the time of the last accepted use. */
  class CooldownManager {
    var cooldowns: map<string, map<string, int>>

    constructor()
      ensures cooldowns == map[]
    {
      cooldowns := map[];
    }

    /** `checkCooldown`; the cooldown defaults to 1 second. */
    method CheckCooldown(commandName: string, userId: string, now: int, cooldownSeconds: nat := 1) returns (v: Verdict)
      modifies this
      ensures v == CheckVerdict(old(cooldowns), commandName, userId, cooldownSeconds, now)
      ensures cooldowns == CheckState(old(cooldowns), commandName, userId, cooldownSeconds, now)
    {
      if commandName !in cooldowns {
        cooldowns := cooldowns[commandName := map[]];
      }
      var timestamps := cooldowns[commandName];
      var cooldownAmount := cooldownSeconds * 1000;
      var timestamp := if userId in timestamps then timestamps[userId] else 0;
      if timestamp != 0 {
        var expirationTime := timestamp + cooldownAmount;
        if now < expirationTime {
          return OnCooldown(SecondsLeft(expirationTime - now));
        }
      }
      cooldowns := cooldowns[commandName := timestamps[userId := now]];
      return Ready;
    }

    /** `clearCooldown`. */
    method ClearCooldown(commandName: string, userId: string)
      modifies this
      ensures cooldowns == ClearedOne(old(cooldowns), commandName, userId)
    {
      if commandName in cooldowns {
        cooldowns := cooldowns[commandName := cooldowns[commandName] - {userId}];
      }
    }

    /** `clearAllCooldowns`. */
    method ClearAllCooldowns(commandName: Option<string>)
      modifies this
      ensures cooldowns == ClearedAll(old(cooldowns), commandName)
    {
      if commandName.Some? && commandName.value != "" {
        cooldowns := cooldowns - {commandName.value};
      } else {
        cooldowns := map[];
      }
    }
  }
}
