/**
 * The append-only event store. The table is a sequence of rows in insertion order; rows
 * are only ever added at the end. `UNIQUE(aggregate_id, version)` is part of the class
 * invariant, together with the stronger fact that sequential appends give each aggregate
 * the versions 1, 2, 3, ... in order.
 */
module EventStoreRepository {
  import opened Results
  import opened PaymentEvents

  /**
   * The rows of aggregate `a`, in insertion order: the store's filter on the aggregate id.
   * `EventsForMembers` proves that its members are exactly the log's rows with that
   * aggregate id.
   */
  function EventsFor(log: seq<StoredEvent>, a: string): (r: seq<StoredEvent>)
    ensures |r| <= |log|
  {
    if log == [] then []
    else
      var last := log[|log| - 1];
      EventsFor(log[..|log| - 1], a) + (if last.aggregateId == a then [last] else [])
  }

  /** The filter keeps exactly the rows of the aggregate. */
  lemma {:induction false} EventsForMembers(log: seq<StoredEvent>, a: string)
    ensures forall e :: e in EventsFor(log, a) <==> e in log && e.aggregateId == a
    decreases |log|
  {
    if log != [] {
      EventsForMembers(log[..|log| - 1], a);
      assert log == log[..|log| - 1] + [log[|log| - 1]];
    }
  }

  /** The largest version among the rows of aggregate `a`, or 0 when it has none. */
  function MaxVersion(log: seq<StoredEvent>, a: string): nat {
    if log == [] then 0
    else
      var m := MaxVersion(log[..|log| - 1], a);
      var last := log[|log| - 1];
      if last.aggregateId == a && last.version > m then last.version else m
  }

  /** The database constraint `UNIQUE(aggregate_id, version)`. */
  ghost predicate UniqueAggregateVersions(log: seq<StoredEvent>) {
    forall i, j :: 0 <= i < j < |log| && log[i].aggregateId == log[j].aggregateId
      ==> log[i].version != log[j].version
  }

  /** Row `i` has the SERIAL id `i + 1` and the version that follows the earlier rows of its aggregate. */
  ghost predicate SequentialVersions(log: seq<StoredEvent>) {
    forall i :: 0 <= i < |log| ==>
      log[i].id == i + 1 && log[i].version == |EventsFor(log[..i], log[i].aggregateId)| + 1
  }

  lemma SequentialVersionsPrefix(log: seq<StoredEvent>, n: nat)
    requires SequentialVersions(log) && n <= |log|
    ensures SequentialVersions(log[..n])
  {
    forall i | 0 <= i < n ensures log[..n][..i] == log[..i] {
    }
  }

  /** Counting the rows of an aggregate over a longer prefix never gives fewer. */
  lemma {:induction false} EventsForMonotone(log: seq<StoredEvent>, m: nat, n: nat, a: string)
    requires m <= n <= |log|
    ensures |EventsFor(log[..m], a)| <= |EventsFor(log[..n], a)|
    decreases n - m
  {
    if m < n {
      EventsForMonotone(log, m, n - 1, a);
      assert log[..n][..n - 1] == log[..n - 1];
    }
  }

  /** A later row of the same aggregate has a larger version. */
  lemma LaterRowHasLargerVersion(log: seq<StoredEvent>, i: nat, j: nat)
    requires SequentialVersions(log)
    requires i < j < |log| && log[i].aggregateId == log[j].aggregateId
    ensures log[i].version < log[j].version
  {
    var a := log[i].aggregateId;
    assert log[i].version == |EventsFor(log[..i], a)| + 1;
    assert log[j].version == |EventsFor(log[..j], a)| + 1;
    EventsForOwnRow(log, i);
    EventsForMonotone(log, i + 1, j, a);
  }

  /** Taking one more row of the log that belongs to `a` adds one to the count of `a`'s rows. */
  lemma EventsForOwnRow(log: seq<StoredEvent>, i: nat)
    requires i < |log|
    ensures |EventsFor(log[..i + 1], log[i].aggregateId)| == |EventsFor(log[..i], log[i].aggregateId)| + 1
  {
    assert log[..i + 1][..i] == log[..i];
    assert log[..i + 1][i] == log[i];
  }

  /** Sequential versions already imply the uniqueness constraint. */
  lemma SequentialVersionsAreUnique(log: seq<StoredEvent>)
    requires SequentialVersions(log)
    ensures UniqueAggregateVersions(log)
  {
    forall i, j | 0 <= i < j < |log| && log[i].aggregateId == log[j].aggregateId
      ensures log[i].version != log[j].version
    {
      LaterRowHasLargerVersion(log, i, j);
    }
  }

  /** With sequential versions, the maximum version of an aggregate is its number of events. */
  lemma {:induction false} MaxVersionIsCount(log: seq<StoredEvent>, a: string)
    requires SequentialVersions(log)
    ensures MaxVersion(log, a) == |EventsFor(log, a)|
    decreases |log|
  {
    if log != [] {
      var p := log[..|log| - 1];
      SequentialVersionsPrefix(log, |log| - 1);
      MaxVersionIsCount(p, a);
    }
  }

  /** Adding a row whose version follows its aggregate's count keeps the versions sequential. */
  lemma SequentialVersionsSnoc(log: seq<StoredEvent>, e: StoredEvent)
    requires SequentialVersions(log)
    requires e.id == |log| + 1 && e.version == |EventsFor(log, e.aggregateId)| + 1
    ensures SequentialVersions(log + [e])
  {
    var l := log + [e];
    forall i | 0 <= i < |l|
      ensures l[i].id == i + 1 && l[i].version == |EventsFor(l[..i], l[i].aggregateId)| + 1
    {
      if i < |log| {
        assert l[..i] == log[..i];
      } else {
        assert l[..i] == log;
      }
    }
  }

  /** The events of aggregate `a`, read in insertion order, carry the versions 1..n. */
  lemma {:induction false} VersionsGapFree(log: seq<StoredEvent>, a: string)
    requires SequentialVersions(log)
    ensures forall k :: 0 <= k < |EventsFor(log, a)| ==> EventsFor(log, a)[k].version == k + 1
    decreases |log|
  {
    if log != [] {
      var p := log[..|log| - 1];
      SequentialVersionsPrefix(log, |log| - 1);
      VersionsGapFree(p, a);
    }
  }

  /** Appending to one aggregate leaves every other aggregate's events as they were. */
  lemma AppendLeavesOtherStreams(log: seq<StoredEvent>, e: StoredEvent, b: string)
    requires b != e.aggregateId
    ensures EventsFor(log + [e], b) == EventsFor(log, b)
  {
    assert (log + [e])[..|log|] == log;
  }

  /** Appending to an aggregate adds exactly that event at the end of its stream. */
  lemma AppendExtendsOwnStream(log: seq<StoredEvent>, e: StoredEvent)
    ensures EventsFor(log + [e], e.aggregateId) == EventsFor(log, e.aggregateId) + [e]
  {
    assert (log + [e])[..|log|] == log;
  }

  predicate IsProcessedFor(e: StoredEvent, paymentId: string) {
    e.eventType == PaymentProcessedType && e.eventData.paymentId == paymentId
  }

  /**
   * The first PaymentProcessed row whose payload names the payment.
   * The query has no ORDER BY; the model takes the earliest matching row.
   */
  function FirstProcessed(log: seq<StoredEvent>, paymentId: string): (r: Option<StoredEvent>)
    ensures r.None? <==> forall i :: 0 <= i < |log| ==> !IsProcessedFor(log[i], paymentId)
    ensures r.Some? ==> r.value in log && IsProcessedFor(r.value, paymentId)
  {
    if log == [] then None
    else if IsProcessedFor(log[0], paymentId) then Some(log[0])
    else FirstProcessed(log[1..], paymentId)
  }

  /** Once a payment's original event is found, later appends never change which one it is. */
  lemma {:induction false} FirstProcessedSnoc(log: seq<StoredEvent>, e: StoredEvent, paymentId: string)
    ensures FirstProcessed(log + [e], paymentId) ==
      if FirstProcessed(log, paymentId).Some? then FirstProcessed(log, paymentId)
      else if IsProcessedFor(e, paymentId) then Some(e)
      else None
    decreases |log|
  {
    if log != [] {
      assert (log + [e])[0] == log[0];
      assert (log + [e])[1..] == log[1..] + [e];
      FirstProcessedSnoc(log[1..], e, paymentId);
    }
  }

  class EventStore {
    var log: seq<StoredEvent>

    ghost predicate Valid()
      reads this
    {
      UniqueAggregateVersions(log) && SequentialVersions(log)
    }

    constructor ()
      ensures Valid() && log == []
    {
      log := [];
    }

    /** The version query of `append`: one more than the aggregate's largest version (0 when it has none). */
    method NextVersion(aggregateId: string) returns (v: nat)
      requires Valid()
      ensures v == |EventsFor(log, aggregateId)| + 1
    {
      var max := 0;
      var i := 0;
      while i < |log|
        invariant 0 <= i <= |log|
        invariant max == MaxVersion(log[..i], aggregateId)
      {
        assert log[..i + 1][..i] == log[..i];
        if log[i].aggregateId == aggregateId && log[i].version > max {
          max := log[i].version;
        }
        i := i + 1;
      }
      assert log[..i] == log;
      MaxVersionIsCount(log, aggregateId);
      v := max + 1;
    }

    /**
     * `append`: the next version for the aggregate, then one INSERT at the end of the
     * table; no existing row changes. `now` stands for the database's `NOW()`.
     */
    method Append(aggregateId: string, aggregateType: string, eventType: string,
                  eventData: EventData, now: int)
      requires Valid()
      modifies this
      ensures Valid()
      ensures log == old(log) + [StoredEvent(|old(log)| + 1, aggregateId, aggregateType,
                                             eventType, eventData, now,
                                             |EventsFor(old(log), aggregateId)| + 1)]
    {
      var nextVersion := NextVersion(aggregateId);
      var e := StoredEvent(|log| + 1, aggregateId, aggregateType, eventType, eventData, now, nextVersion);
      SequentialVersionsSnoc(log, e);
      SequentialVersionsAreUnique(log + [e]);
      log := log + [e];
    }

    /**
     * `getEvents`: exactly the rows of the aggregate, ordered by ascending version, which
     * under the invariant are the versions 1..n.
     */
    function GetEvents(aggregateId: string): (events: seq<StoredEvent>)
      reads this
      requires Valid()
      ensures forall e :: e in events <==> e in log && e.aggregateId == aggregateId
      ensures forall k :: 0 <= k < |events| ==> events[k].version == k + 1
      ensures forall i, j :: 0 <= i < j < |events| ==> events[i].version < events[j].version
    {
      VersionsGapFree(log, aggregateId);
      EventsForMembers(log, aggregateId);
      EventsFor(log, aggregateId)
    }

    /** `findEventByPaymentId`: null exactly when no PaymentProcessed row carries the id. */
    function FindEventByPaymentId(paymentId: string): (r: Option<StoredEvent>)
      reads this
      ensures r.None? <==> forall i :: 0 <= i < |log| ==> !IsProcessedFor(log[i], paymentId)
      ensures r.Some? ==> r.value in log && r.value.eventType == PaymentProcessedType
                          && r.value.eventData.paymentId == paymentId
    {
      FirstProcessed(log, paymentId)
    }
  }
}
