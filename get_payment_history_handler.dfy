/**
 * GetPaymentHistoryHandler: read one wallet's events from the event store, keep the last
 * `limit` of them with JavaScript's `slice(-limit)`, and turn each into a history item.
 * Nothing is written.
 */
module GetPaymentHistory {
  import opened Results
  import opened PaymentEvents
  import opened EventStoreRepository

  /** One entry of the history; fields absent from the payload are `None` (`undefined`). */
  datatype PaymentHistoryItem = PaymentHistoryItem(
    eventType: string,
    amount: int,
    currency: string,
    recipientWalletId: Option<string>,
    concept: Option<string>,
    previousBalance: int,
    newBalance: int,
    occurredAt: int,
    version: nat)

  /** The item built from a stored event. */
  function HistoryItemOf(e: StoredEvent): PaymentHistoryItem {
    PaymentHistoryItem(e.eventType, e.eventData.amount, e.eventData.currency,
                       e.eventData.recipientWalletId, e.eventData.concept,
                       e.eventData.previousBalance, e.eventData.newBalance, e.occurredAt, e.version)
  }

  /**
   * `Array.prototype.slice(start)` for an integer `start`: a negative start counts back from
   * the end (keeping the last `-start` elements, or all of them), a non-negative one drops
   * that many elements from the front (or all of them).
   */
  function SliceFrom<T>(s: seq<T>, start: int): (r: seq<T>)
    ensures start < 0 ==> r == s[(if -start < |s| then |s| + start else 0)..]
    ensures start >= 0 ==> r == s[(if start < |s| then start else |s|)..]
  {
    var k := if start < 0 then (if |s| + start > 0 then |s| + start else 0)
             else (if start < |s| then start else |s|);
    s[k..]
  }

  /**
   * How many elements `slice(-limit)` keeps of `n`: `min(limit, n)` for a positive limit,
   * all `n` for 0, and `n - (-limit)` (at least 0) for a negative one.
   */
  function KeptCount(n: nat, limit: int): nat {
    if limit >= 1 then (if limit < n then limit else n)
    else if limit == 0 then n
    else if -limit < n then n + limit
    else 0
  }

  /** `slice(-limit)`: for a positive limit the last `min(limit, n)` elements, for 0 all of them (`-0` is `0`). */
  lemma LastLimitElements<T>(s: seq<T>, limit: int)
    ensures limit >= 1 ==> SliceFrom(s, -limit) == s[|s| - (if limit < |s| then limit else |s|)..]
    ensures limit == 0 ==> SliceFrom(s, -limit) == s
    ensures limit < 0 ==> SliceFrom(s, -limit) == s[(if -limit < |s| then -limit else |s|)..]
    ensures SliceFrom(s, -limit) == s[|s| - KeptCount(|s|, limit)..]
  {
  }

  /**
   * The items of the last `limit` events of a stream (all of them for `limit = 0`, the
   * stream without its first `-limit` events for a negative limit), in stream order.
   */
  function History(events: seq<StoredEvent>, limit: int): (items: seq<PaymentHistoryItem>)
    ensures |items| == KeptCount(|events|, limit)
    ensures forall k :: 0 <= k < |items| ==> items[k] == HistoryItemOf(events[|events| - |items| + k])
  {
    var last := SliceFrom(events, -limit);
    LastLimitElements(events, limit);
    assert |last| == KeptCount(|events|, limit);
    assert forall k :: 0 <= k < |last| ==> last[k] == events[|events| - |last| + k];
    seq(|last|, k requires 0 <= k < |last| => HistoryItemOf(last[k]))
  }

  class GetPaymentHistoryHandler {
    const eventStore: EventStore

    constructor (eventStore: EventStore)
      ensures this.eventStore == eventStore
    {
      this.eventStore := eventStore;
    }

    /**
     * `execute`: the history of the wallet's own events only, and since the stream carries
     * the versions 1..n in order, the items carry the last versions up to n, ascending.
     */
    function Execute(query: GetPaymentHistoryQuery): (items: seq<PaymentHistoryItem>)
      reads eventStore
      requires eventStore.Valid()
      ensures items == History(EventsFor(eventStore.log, query.walletId), query.limit)
      ensures forall k :: 0 <= k < |items| ==>
                exists e :: e in eventStore.log && e.aggregateId == query.walletId && items[k] == HistoryItemOf(e)
      ensures var n := |EventsFor(eventStore.log, query.walletId)|;
              forall k :: 0 <= k < |items| ==> items[k].version == n - |items| + k + 1
    {
      var events := eventStore.GetEvents(query.walletId);
      var items := History(events, query.limit);
      forall k | 0 <= k < |items|
        ensures exists e :: e in eventStore.log && e.aggregateId == query.walletId && items[k] == HistoryItemOf(e)
      {
        var e := events[|events| - |items| + k];
        assert e in events;
      }
      items
    }
  }
}
