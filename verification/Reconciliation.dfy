/** Finding the outbox rows that never reached their topic, and emitting one again. */
module Reconciliation {
  import opened Options

  /** A retained record of a partition; not every one carries a message id. */
  datatype Record = Record(offset: int, messageId: Option<string>)

  /** A topic's partitions, each in offset order. Kafka may have dropped offsets in between. */
  type Topic = map<nat, seq<Record>>

  ghost predicate Ordered(topic: Topic) {
    forall p :: p in topic ==> forall i, j :: 0 <= i < j < |topic[p]| ==> topic[p][i].offset < topic[p][j].offset
  }

  /** What `fetchTopicOffsets` answers when the read starts. */
  datatype Bounds = Bounds(partition: nat, low: int, high: int)

  datatype Delivery = Delivery(partition: nat, record: Record)

  /** One partition is delivered from its retained beginning in offset order; partitions interleave freely. */
  ghost predicate InOffsetOrder(topic: Topic, deliveries: seq<Delivery>) {
    forall d :: 0 <= d < |deliveries| ==> Delivered(topic, deliveries, d)
  }

  ghost predicate Delivered(topic: Topic, deliveries: seq<Delivery>, d: nat)
    requires d < |deliveries|
  {
    var p := deliveries[d].partition;
    && p in topic && deliveries[d].record in topic[p]
    && forall r :: r in topic[p] && r.offset < deliveries[d].record.offset ==>
         exists e :: 0 <= e < d && deliveries[e] == Delivery(p, r)
  }

  /** The bounds name each partition once, and nothing is retained below their low end. */
  ghost predicate BoundsOf(topic: Topic, bounds: seq<Bounds>) {
    && (forall i, j :: 0 <= i < j < |bounds| ==> bounds[i].partition != bounds[j].partition)
    && (forall p :: p in topic ==> exists i :: 0 <= i < |bounds| && bounds[i].partition == p)
    && (forall i :: 0 <= i < |bounds| && bounds[i].partition in topic ==>
          forall r :: r in topic[bounds[i].partition] ==> bounds[i].low <= r.offset)
  }

  /** On the topic when the read started: below the end offset seen then. */
  ghost predicate Published(topic: Topic, bounds: seq<Bounds>, id: string) {
    exists i, r :: 0 <= i < |bounds| && bounds[i].partition in topic && r in topic[bounds[i].partition] &&
                   r.offset < bounds[i].high && r.messageId == Some(id)
  }

  /** On the topic at all, late arrivals included. */
  ghost predicate OnTopic(topic: Topic, id: string) {
    exists p, r :: p in topic && r in topic[p] && r.messageId == Some(id)
  }

  /** The partitions still to be read, each with the last offset it had: shrinks as messages arrive. */
  method LastOffsets(bounds: seq<Bounds>) returns (left: map<nat, int>)
    requires forall i, j :: 0 <= i < j < |bounds| ==> bounds[i].partition != bounds[j].partition
    ensures IsLastOffsets(left, bounds)
  {
    left := map[];
    for i := 0 to |bounds|
      invariant forall p :: p in left ==> exists k :: 0 <= k < i && bounds[k].partition == p
      invariant forall k :: 0 <= k < i ==>
                  if bounds[k].low < bounds[k].high then bounds[k].partition in left && left[bounds[k].partition] == bounds[k].high - 1
                  else bounds[k].partition !in left
    {
      if bounds[i].low < bounds[i].high {
        left := left[bounds[i].partition := bounds[i].high - 1];
      }
    }
  }

  /** A message at or past the partition's last offset came, or there was none to come. */
  ghost predicate ReadThrough(bounds: Bounds, deliveries: seq<Delivery>, n: nat)
    requires n <= |deliveries|
  {
    bounds.high <= bounds.low ||
    exists d :: 0 <= d < n && deliveries[d].partition == bounds.partition && bounds.high - 1 <= deliveries[d].record.offset
  }

  /** Once a partition was read through, every record it had below its end was delivered. */
  lemma ReadThroughMissesNothing(topic: Topic, bounds: seq<Bounds>, deliveries: seq<Delivery>, n: nat, i: nat, r: Record)
    requires Ordered(topic) && BoundsOf(topic, bounds) && InOffsetOrder(topic, deliveries) && n <= |deliveries|
    requires i < |bounds| && bounds[i].partition in topic && r in topic[bounds[i].partition] && r.offset < bounds[i].high
    requires ReadThrough(bounds[i], deliveries, n)
    ensures exists d :: 0 <= d < n && deliveries[d] == Delivery(bounds[i].partition, r)
  {
    var p := bounds[i].partition;
    assert bounds[i].low <= r.offset;
    var d :| 0 <= d < n && deliveries[d].partition == p && bounds[i].high - 1 <= deliveries[d].record.offset;
    assert Delivered(topic, deliveries, d);
    if r.offset == deliveries[d].record.offset {
      var j :| 0 <= j < |topic[p]| && topic[p][j] == r;
      var k :| 0 <= k < |topic[p]| && topic[p][k] == deliveries[d].record;
      assert j == k;
    }
  }

  /** The ids of the first `n` deliveries. */
  function IdsOf(deliveries: seq<Delivery>, n: nat): set<string>
    requires n <= |deliveries|
  {
    if n == 0 then {}
    else IdsOf(deliveries, n - 1) + IdIn(deliveries[n - 1])
  }

  lemma {:induction false} IdsOfHoldsEach(deliveries: seq<Delivery>, n: nat, id: string)
    requires n <= |deliveries|
    ensures id in IdsOf(deliveries, n) <==> exists d :: 0 <= d < n && deliveries[d].record.messageId == Some(id)
  {
    if n > 0 {
      IdsOfHoldsEach(deliveries, n - 1, id);
    }
  }

  function IdIn(delivery: Delivery): set<string> {
    if delivery.record.messageId.Some? then {delivery.record.messageId.value} else {}
  }

  /** A partition is left exactly while it was not read through, with the last offset it had. */
  ghost predicate LeftOrRead(left: map<nat, int>, bounds: Bounds, deliveries: seq<Delivery>, n: nat)
    requires n <= |deliveries|
  {
    && (bounds.partition in left <==> !ReadThrough(bounds, deliveries, n))
    && (bounds.partition in left ==> left[bounds.partition] == bounds.high - 1)
  }

  /** `markRead`: a partition's last message takes it off the list. */
  function MarkRead(left: map<nat, int>, delivery: Delivery): map<nat, int> {
    if delivery.partition in left && left[delivery.partition] <= delivery.record.offset then left - {delivery.partition}
    else left
  }

  /** The list before anything is read. */
  ghost predicate IsLastOffsets(left: map<nat, int>, bounds: seq<Bounds>) {
    && (forall p :: p in left ==> exists i :: 0 <= i < |bounds| && bounds[i].partition == p)
    && (forall i :: 0 <= i < |bounds| ==>
          && (bounds[i].partition in left <==> bounds[i].low < bounds[i].high)
          && (bounds[i].partition in left ==> left[bounds[i].partition] == bounds[i].high - 1))
  }

  lemma ReadThroughOneMore(bounds: Bounds, deliveries: seq<Delivery>, n: nat)
    requires n < |deliveries|
    ensures ReadThrough(bounds, deliveries, n + 1) <==>
      || ReadThrough(bounds, deliveries, n)
      || (deliveries[n].partition == bounds.partition && bounds.high - 1 <= deliveries[n].record.offset)
  {
    if bounds.low < bounds.high && ReadThrough(bounds, deliveries, n) {
      var d :| 0 <= d < n && deliveries[d].partition == bounds.partition && bounds.high - 1 <= deliveries[d].record.offset;
    }
  }

  /** The partitions left after `n` messages. */
  function LeftAfter(start: map<nat, int>, deliveries: seq<Delivery>, n: nat): map<nat, int>
    requires n <= |deliveries|
  {
    if n == 0 then start else MarkRead(LeftAfter(start, deliveries, n - 1), deliveries[n - 1])
  }

  /** Each partition on its own: what the others are read to does not touch it. */
  lemma {:induction false} LeftUntilReadThrough(start: map<nat, int>, bounds: Bounds, deliveries: seq<Delivery>, n: nat)
    requires n <= |deliveries| && LeftOrRead(start, bounds, deliveries, 0)
    ensures LeftOrRead(LeftAfter(start, deliveries, n), bounds, deliveries, n)
  {
    if n > 0 {
      LeftUntilReadThrough(start, bounds, deliveries, n - 1);
      ReadThroughOneMore(bounds, deliveries, n - 1);
    }
  }

  lemma {:induction false} LeftWereThere(start: map<nat, int>, deliveries: seq<Delivery>, n: nat)
    requires n <= |deliveries|
    ensures LeftAfter(start, deliveries, n).Keys <= start.Keys
  {
    if n > 0 {
      LeftWereThere(start, deliveries, n - 1);
    }
  }

  /** The consumer: ids gathered and partitions marked until none is left, or the deliveries stop. */
  method Drain(start: map<nat, int>, deliveries: seq<Delivery>) returns (left: map<nat, int>, ids: set<string>, n: nat)
    ensures n <= |deliveries| && left == LeftAfter(start, deliveries, n)
    ensures left == map[] || n == |deliveries|
    ensures ids == IdsOf(deliveries, n)
  {
    left, ids, n := start, {}, 0;
    while left != map[] && n < |deliveries|
      invariant n <= |deliveries|
      invariant left == LeftAfter(start, deliveries, n)
      invariant ids == IdsOf(deliveries, n)
    {
      ids := ids + IdIn(deliveries[n]);
      left := MarkRead(left, deliveries[n]);
      n := n + 1;
    }
  }

  /**
   * `readPublishedMessageIds`: over every interleaving, a normal return holds the id of every record
   * below the end offsets seen at the start, and only ids that are on the topic; a read that does not
   * get there (the deliveries stop at the timeout) answers nothing.
   */
  method ReadPublishedIds(bounds: seq<Bounds>, deliveries: seq<Delivery>, ghost topic: Topic)
    returns (read: Option<set<string>>)
    requires Ordered(topic) && BoundsOf(topic, bounds) && InOffsetOrder(topic, deliveries)
    ensures read.Some? ==> forall id :: Published(topic, bounds, id) ==> id in read.value
    ensures read.Some? ==> forall id :: id in read.value ==> OnTopic(topic, id)
    ensures read.None? <==> exists i :: 0 <= i < |bounds| && !ReadThrough(bounds[i], deliveries, |deliveries|)
  {
    var start := LastOffsets(bounds);
    var left, ids, n := Drain(start, deliveries);
    forall i | 0 <= i < |bounds| ensures LeftOrRead(left, bounds[i], deliveries, n) {
      LeftUntilReadThrough(start, bounds[i], deliveries, n);
    }
    if left != map[] {
      ghost var p :| p in left;
      LeftWereThere(start, deliveries, n);
      assert p in start;
      return None;
    }
    forall i | 0 <= i < |bounds| ensures ReadThrough(bounds[i], deliveries, |deliveries|) {
      assert LeftOrRead(left, bounds[i], deliveries, n);
    }
    forall id | Published(topic, bounds, id) ensures id in ids {
      var i, r :| 0 <= i < |bounds| && bounds[i].partition in topic && r in topic[bounds[i].partition] &&
                  r.offset < bounds[i].high && r.messageId == Some(id);
      ReadThroughMissesNothing(topic, bounds, deliveries, n, i, r);
      IdsOfHoldsEach(deliveries, n, id);
    }
    forall id | id in ids ensures OnTopic(topic, id) {
      IdsOfHoldsEach(deliveries, n, id);
      var d :| 0 <= d < n && deliveries[d].record.messageId == Some(id);
      assert Delivered(topic, deliveries, d);
    }
    read := Some(ids);
  }

  // ---------- the rows ----------

  datatype Row = Row(
    id: string, aggregateType: string, aggregateId: string, eventType: string, payload: string,
    traceContext: Option<string>, actorId: Option<string>, createdAt: int)

  predicate InWindow(row: Row, now: int, settleMs: int, horizonMs: int) {
    now - horizonMs <= row.createdAt < now - settleMs
  }

  /** What reading one topic answered. */
  datatype Reading = Reading(bounds: seq<Bounds>, deliveries: seq<Delivery>)

  /** Every partition of the topic was read through. */
  ghost predicate ReadToItsEnd(reading: Reading) {
    forall i :: 0 <= i < |reading.bounds| ==> ReadThrough(reading.bounds[i], reading.deliveries, |reading.deliveries|)
  }

  /** The broker behind each aggregate type's topic, as the reads see it. */
  ghost predicate Readable(topics: map<string, Topic>, readings: map<string, Reading>) {
    forall t :: t in readings ==>
      && t in topics && Ordered(topics[t]) && BoundsOf(topics[t], readings[t].bounds)
      && InOffsetOrder(topics[t], readings[t].deliveries)
  }

  /** The ids read for a topic hold all it had, and nothing that is not on it. */
  ghost predicate ReadWell(topics: map<string, Topic>, readings: map<string, Reading>, t: string, ids: set<string>) {
    && t in readings && t in topics
    && (forall id :: Published(topics[t], readings[t].bounds, id) ==> id in ids)
    && (forall id :: id in ids ==> OnTopic(topics[t], id))
  }

  predicate Missing(row: Row, published: map<string, set<string>>) {
    row.aggregateType !in published || row.id !in published[row.aggregateType]
  }

  function Filtered(rows: seq<Row>, keep: Row -> bool): seq<Row> {
    if rows == [] then []
    else
      var before, last := Filtered(rows[..|rows| - 1], keep), rows[|rows| - 1];
      if keep(last) then before + [last] else before
  }

  /** The rows of the window, then those absent from what was read, in the order of the query. */
  function InWindowOf(rows: seq<Row>, now: int, settleMs: int, horizonMs: int): seq<Row> {
    Filtered(rows, row => InWindow(row, now, settleMs, horizonMs))
  }

  function MissingOf(rows: seq<Row>, published: map<string, set<string>>): seq<Row> {
    Filtered(rows, row => Missing(row, published))
  }

  lemma {:induction false} FilteredHolds(rows: seq<Row>, keep: Row -> bool, row: Row)
    ensures row in Filtered(rows, keep) <==> row in rows && keep(row)
  {
    if rows != [] {
      FilteredHolds(rows[..|rows| - 1], keep, row);
    }
  }

  /** Rows are kept in their order: of two lists one after the other, what is kept of each, one after the other. */
  lemma {:induction false} FilteredKeepsOrder(first: seq<Row>, second: seq<Row>, keep: Row -> bool)
    ensures Filtered(first + second, keep) == Filtered(first, keep) + Filtered(second, keep)
  {
    if second == [] {
      assert first + second == first;
    } else {
      var n := |second| - 1;
      FilteredKeepsOrder(first, second[..n], keep);
      assert (first + second)[..|first| + n] == first + second[..n];
    }
  }

  lemma WindowHolds(rows: seq<Row>, now: int, settleMs: int, horizonMs: int)
    ensures forall row :: row in InWindowOf(rows, now, settleMs, horizonMs) <==> row in rows && settleMs < now - row.createdAt <= horizonMs
  {
    forall row ensures row in InWindowOf(rows, now, settleMs, horizonMs) <==> row in rows && InWindow(row, now, settleMs, horizonMs) {
      FilteredHolds(rows, row => InWindow(row, now, settleMs, horizonMs), row);
    }
  }

  lemma MissingHolds(rows: seq<Row>, published: map<string, set<string>>)
    ensures forall row :: row in MissingOf(rows, published) <==> row in rows && Missing(row, published)
  {
    forall row ensures row in MissingOf(rows, published) <==> row in rows && Missing(row, published) {
      FilteredHolds(rows, row => Missing(row, published), row);
    }
  }

  /** One read per topic the rows name, or nothing as soon as a read did not get to its end. */
  method ReadTopics(rows: seq<Row>, readings: map<string, Reading>, ghost topics: map<string, Topic>)
    returns (published: Option<map<string, set<string>>>)
    requires Readable(topics, readings)
    requires forall row :: row in rows ==> row.aggregateType in readings
    ensures published.None? <==> exists row :: row in rows && !ReadToItsEnd(readings[row.aggregateType])
    ensures published.Some? ==> forall row :: row in rows ==> row.aggregateType in published.value
    ensures published.Some? ==> forall t :: t in published.value ==> ReadWell(topics, readings, t, published.value[t])
  {
    var read: map<string, set<string>> := map[];
    for i := 0 to |rows|
      invariant forall t :: t in read ==> ReadWell(topics, readings, t, read[t])
      invariant forall k :: 0 <= k < i ==> rows[k].aggregateType in read
      invariant forall t :: t in read ==> t in readings && ReadToItsEnd(readings[t])
    {
      var t := rows[i].aggregateType;
      if t !in read {
        var ids := ReadPublishedIds(readings[t].bounds, readings[t].deliveries, topics[t]);
        if ids.None? {
          return None;
        }
        read := read[t := ids.value];
      }
    }
    published := Some(read);
  }

  /**
   * `findUnpublishedOutboxRows`: one read per topic, and no verdict unless every read got to its end.
   * The rows reported are those of the window absent from what was read, in order; each is on no
   * record its topic had when the read started, and a row of the window left out is on its topic.
   */
  method FindUnpublished(rows: seq<Row>, now: int, settleMs: int, horizonMs: int,
                         readings: map<string, Reading>, ghost topics: map<string, Topic>)
    returns (unpublished: Option<seq<Row>>, checked: nat, ghost read: map<string, set<string>>)
    requires Readable(topics, readings)
    requires forall row :: row in rows && settleMs < now - row.createdAt <= horizonMs ==> row.aggregateType in readings
    ensures unpublished.Some? ==>
              && unpublished.value == MissingOf(InWindowOf(rows, now, settleMs, horizonMs), read)
              && checked == |InWindowOf(rows, now, settleMs, horizonMs)|
              && forall t :: t in read ==> ReadWell(topics, readings, t, read[t])
    ensures unpublished.None? <==>
              exists row :: row in rows && settleMs < now - row.createdAt <= horizonMs && !ReadToItsEnd(readings[row.aggregateType])
    ensures unpublished.Some? ==> forall row :: row in unpublished.value ==>
              && row in rows && settleMs < now - row.createdAt <= horizonMs
              && row.aggregateType in readings && row.aggregateType in topics
              && !Published(topics[row.aggregateType], readings[row.aggregateType].bounds, row.id)
    ensures unpublished.Some? ==>
              forall row | row in rows && settleMs < now - row.createdAt <= horizonMs && row !in unpublished.value ::
                row.aggregateType in topics && OnTopic(topics[row.aggregateType], row.id)
  {
    var window := InWindowOf(rows, now, settleMs, horizonMs);
    WindowHolds(rows, now, settleMs, horizonMs);
    checked, read := |window|, map[];
    var published := ReadTopics(window, readings, topics);
    if published.None? {
      return None, checked, read;
    }
    read := published.value;
    MissingHolds(window, published.value);
    unpublished := Some(MissingOf(window, published.value));
  }

  /** The outbox table, and the inserts its connector routes to Kafka. */
  class Outbox {
    var rows: map<string, Row>
    var routed: seq<Row>

    ghost predicate Valid()
      reads this
    {
      forall id :: id in rows ==> rows[id].id == id
    }

    constructor ()
      ensures Valid() && rows == map[] && routed == []
    {
      rows, routed := map[], [];
    }

    method Insert(row: Row)
      requires Valid() && row.id !in rows
      modifies this
      ensures Valid() && rows == old(rows)[row.id := row] && routed == old(routed) + [row]
    {
      rows := rows[row.id := row];
      routed := routed + [row];
    }

    /** `republishOutboxRow`: the row goes out again under its own id, and the table is as it was. */
    method Republish(id: string) returns (found: bool)
      requires Valid()
      modifies this
      ensures Valid() && rows == old(rows)
      ensures found <==> id in rows
      ensures routed == if found then old(routed) + [rows[id]] else old(routed)
    {
      if id !in rows {
        return false;
      }
      var row := rows[id];
      rows := rows - {id};
      Insert(Row(row.id, row.aggregateType, row.aggregateId, row.eventType, row.payload,
                 row.traceContext, row.actorId, row.createdAt));
      found := true;
    }
  }
}
