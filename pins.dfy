/**
 * The pin manager: a channel's pinned list, newest first, and the rolling cap
 * that evicts the oldest pin before a new one is added.
 */
module PinManager {
  import opened Discord

  /** List size at which the oldest pin is evicted; the platform refuses a 51st pin. */
  const EvictAt: nat := 49

  /** `maybeUnpin`: drop exactly the oldest (last) pin when the list is at the eviction size. */
  function Unpinned(pinned: seq<MessageId>): (r: seq<MessageId>)
    ensures |pinned| >= EvictAt ==> pinned == r + [pinned[|pinned| - 1]]
    ensures |pinned| < EvictAt ==> r == pinned
  {
    if |pinned| >= EvictAt then pinned[..|pinned| - 1] else pinned
  }

  /** `message.pin()`: a new pin becomes the newest; pinning a pinned message changes nothing. */
  function Pinned(pinned: seq<MessageId>, m: MessageId): (r: seq<MessageId>)
    ensures m in r
    ensures m in pinned ==> r == pinned
    ensures m !in pinned ==> |r| == |pinned| + 1 && r[0] == m && r[1..] == pinned
  {
    if m in pinned then pinned else [m] + pinned
  }

  /** `safePin`: nothing unless pinnable; otherwise `maybeUnpin`, then pin. */
  function SafePinned(pinned: seq<MessageId>, m: MessageId, pinnable: bool): (r: seq<MessageId>)
    ensures !pinnable ==> r == pinned
    ensures pinnable ==> m in r
    ensures pinnable && m in Unpinned(pinned) ==> r == Unpinned(pinned)
    ensures pinnable && m !in Unpinned(pinned) ==> r == [m] + Unpinned(pinned)
    ensures pinnable && m !in pinned ==> r[0] == m && r[1..] == Unpinned(pinned)
    ensures pinnable && m !in pinned ==> |r| == if |pinned| >= EvictAt then |pinned| else |pinned| + 1
    ensures |pinned| <= EvictAt ==> |r| <= EvictAt
    ensures forall i :: 0 <= i < |pinned| - 1 ==> pinned[i] in r
  {
    if !pinnable then pinned else Pinned(Unpinned(pinned), m)
  }

  /** A text channel and its pinned messages, newest first. */
  class Channel {
    var pinned: seq<MessageId>

    constructor (pinned: seq<MessageId>)
      ensures this.pinned == pinned
    {
      this.pinned := pinned;
    }

    method MaybeUnpin()
      modifies this
      ensures pinned == Unpinned(old(pinned))
    {
      var size := |pinned|;
      if size >= EvictAt {
        pinned := pinned[..size - 1];
      }
    }

    method Pin(m: MessageId)
      modifies this
      ensures pinned == Pinned(old(pinned), m)
    {
      if m !in pinned {
        pinned := [m] + pinned;
      }
    }

    method SafePin(m: MessageId, pinnable: bool)
      modifies this
      ensures pinned == SafePinned(old(pinned), m, pinnable)
      ensures |old(pinned)| <= EvictAt ==> |pinned| <= EvictAt
    {
      if !pinnable {
        return;
      }
      MaybeUnpin();
      Pin(m);
    }
  }
}
