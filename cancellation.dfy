/**
 * The process-wide map from batch id to that batch's cancellation flag.
 * Registering overwrites an existing entry; signalling touches only an
 * entry that is there; popping an absent id changes nothing.
 */
module Cancellation {

  class Registry {
    /** For every live batch id, whether a stop has been requested. */
    var flags: map<string, bool>

    /** The empty registry the module starts with. */
    constructor ()
      ensures flags == map[]
    {
      flags := map[];
    }

    /** `batch_cancellation_events[batch_id] = asyncio.Event()`: a fresh, unset flag, replacing any entry. */
    method Register(batchId: string)
      modifies this
      ensures flags == old(flags)[batchId := false]
    {
      flags := flags[batchId := false];
    }

    /** The stop request: set the flag of a live batch, and say whether there was one. */
    method Signal(batchId: string) returns (found: bool)
      modifies this
      ensures found <==> batchId in old(flags)
      ensures found ==> flags == old(flags)[batchId := true]
      ensures !found ==> flags == old(flags)
    {
      found := batchId in flags;
      if found {
        flags := flags[batchId := true];
      }
    }

    /** `batch_cancellation_events.pop(batch_id, None)`: remove the entry if there is one. */
    method Pop(batchId: string)
      modifies this
      ensures flags == old(flags) - {batchId}
      ensures batchId !in old(flags) ==> flags == old(flags)
    {
      flags := flags - {batchId};
    }

    /** `cancel_event.is_set()` for a live batch. */
    function IsSet(batchId: string): bool
      reads this
      requires batchId in flags
    {
      flags[batchId]
    }
  }
}
