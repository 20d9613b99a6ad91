/**
 * lib/sync-service.ts: the queue of savings waiting to reach the server, kept in the
 * browser's local storage under one key, and the request that pushes it.
 *
 * Local storage is modelled as the one entry this module owns; the network request and
 * the server's JSON reply are a parameter of the method that sends it.
 */
module Sync {
  import opened Wrappers
  import opened Types

  /** What local storage holds under the pending-sync key. */
  datatype StoredEntry =
    | Absent
    | Unparsable                      // the stored text is not JSON (JSON.parse throws)
    | Stored(savings: seq<Saving>)

  /** What a request to the server comes back with: a thrown network error, or the JSON body's `success`. */
  datatype Reply = Threw | Replied(success: bool)

  /** The `success` a caller sees: a thrown request is caught and reported as a failure. */
  function Succeeded(reply: Reply): (ok: bool)
    ensures ok <==> reply == Replied(true)
  {
    match reply
    case Threw => false
    case Replied(success) => success
  }

  class PendingSync {
    var entry: StoredEntry

    constructor ()
      ensures entry == Absent
    {
      entry := Absent;
    }

    /** `getPendingSyncData`: the stored queue, or null when nothing readable is stored. */
    function PendingData(): (r: Option<seq<Saving>>)
      reads this
      ensures r.Some? <==> entry.Stored?
      ensures r.Some? ==> r.value == entry.savings
    {
      if entry.Stored? then Some(entry.savings) else None
    }

    /** The queued savings; a missing or unreadable entry counts as an empty queue. */
    function Queue(): seq<Saving>
      reads this
    {
      PendingData().GetOr([])
    }

    /** `savePendingSyncData`. */
    method SavePendingSyncData(savings: seq<Saving>)
      modifies this
      ensures entry == Stored(savings)
    {
      entry := Stored(savings);
    }

    /** `clearPendingSyncData`. */
    method ClearPendingSyncData()
      modifies this
      ensures entry == Absent && Queue() == []
    {
      entry := Absent;
    }

    /** `addPendingSaving`: the saving joins the end of the queue, which is then stored. */
    method AddPendingSaving(saving: Saving)
      modifies this
      ensures entry == Stored(old(Queue()) + [saving])
      ensures Queue() == old(Queue()) + [saving]
    {
      var pending := PendingData().GetOr([]);
      pending := pending + [saving];
      SavePendingSyncData(pending);
    }

    /**
     * `syncPendingDataToDatabase`. With nothing queued it succeeds without a request.
     * Otherwise it sends the whole queue (`sent`), and the queue is cleared exactly when
     * the server reports success; a failure or a thrown request leaves it as it was.
     */
    method SyncPendingDataToDatabase(reply: Reply) returns (success: bool, sent: Option<seq<Saving>>)
      modifies this
      ensures old(Queue()) == [] ==> success && sent == None && entry == old(entry)
      ensures old(Queue()) != [] ==> sent == Some(old(Queue())) && success == Succeeded(reply)
      ensures old(Queue()) != [] && success ==> entry == Absent
      ensures !success ==> entry == old(entry)
    {
      var pendingData := PendingData();
      if pendingData.None? || |pendingData.value| == 0 {
        return true, None;
      }
      sent := Some(pendingData.value);
      success := Succeeded(reply);
      if success {
        ClearPendingSyncData();
      }
    }
  }
}
