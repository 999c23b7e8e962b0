/**
 * The set of interaction ids already handled
 * (src/utils/discord/interactions/interactionManager.ts). The module-level `Set`
 * is the field `ids`; the five-minute `setTimeout` that forgets an id is the
 * event `Expire`.
 */
module Interactions {
  class ProcessedInteractions {
    var ids: set<string>

    constructor()
      ensures ids == {}
    {
      ids := {};
    }

    /** `markInteractionProcessed`. */
    method Mark(interactionId: string)
      modifies this
      ensures ids == old(ids) + {interactionId}
      ensures old(interactionId in ids) ==> ids == old(ids) && |ids| == old(|ids|)
    {
      ids := ids + {interactionId};
    }

    /** `isInteractionProcessed`. */
    method IsProcessed(interactionId: string) returns (processed: bool)
      ensures processed <==> interactionId in ids
    {
      processed := interactionId in ids;
    }

    /** `checkAndMarkInteraction`: false the first time, true while the id is remembered. */
    method CheckAndMark(interactionId: string) returns (already: bool)
      modifies this
      ensures already <==> old(interactionId in ids)
      ensures ids == old(ids) + {interactionId}
    {
      already := IsProcessed(interactionId);
      if already {
        return;
      }
      Mark(interactionId);
    }

    /** `getProcessedInteractionCount`. */
    method Count() returns (n: nat)
      ensures n == |ids|
    {
      n := |ids|;
    }

    /** The timer set by `Mark` firing five minutes later. */
    method Expire(interactionId: string)
      modifies this
      ensures ids == old(ids) - {interactionId}
    {
      ids := ids - {interactionId};
    }
  }

  /** An id is handled once; after it expires it is handled again. */
  method CheckMarkExpire(interactionId: string) returns (first: bool, second: bool, count: nat, third: bool)
    ensures !first && second && count == 1 && !third
  {
    var seen := new ProcessedInteractions();
    first := seen.CheckAndMark(interactionId);
    second := seen.CheckAndMark(interactionId);
    count := seen.Count();
    seen.Expire(interactionId);
    third := seen.CheckAndMark(interactionId);
  }
}
