/** `TransactionRunner.run`: the events of what a transaction wrote go out after its commit, or never. */
module Transactions {
  type Event = string

  /** An aggregate root: `commit` hands over the events it has applied, and keeps none. */
  class Aggregate {
    var uncommitted: seq<Event>

    constructor (events: seq<Event>)
      ensures uncommitted == events
    {
      uncommitted := events;
    }
  }

  /**
   * What the transaction's work did: the aggregates its adapters registered, whether it tried to open
   * a transaction of its own, and how it ended.
   */
  datatype Work = Work(saved: seq<Aggregate>, nests: bool, completes: bool, commits: bool)

  datatype Result = Published | RolledBack | Nested

  /** The aggregates of a list, each once, in the order of their first registration. */
  ghost function Once(saved: seq<Aggregate>): (once: seq<Aggregate>)
    ensures forall i :: 0 <= i < |once| ==> once[i] in saved
    ensures forall i :: 0 <= i < |saved| ==> saved[i] in once
    ensures forall i, j :: 0 <= i < j < |once| ==> once[i] != once[j]
  {
    if saved == [] then []
    else
      var before, last := Once(saved[..|saved| - 1]), saved[|saved| - 1];
      if last in before then before else before + [last]
  }

  /** What is registered later comes later: an earlier part of the list gives an earlier part of the order. */
  lemma {:induction false} OnceKeepsOrder(saved: seq<Aggregate>, n: nat)
    requires n <= |saved|
    ensures Once(saved[..n]) <= Once(saved)
  {
    if n == |saved| {
      assert saved[..n] == saved;
    } else {
      var before := saved[..|saved| - 1];
      OnceKeepsOrder(before, n);
      assert before[..n] == saved[..n];
    }
  }

  ghost function EventsOf(aggregates: seq<Aggregate>): seq<Event>
    reads aggregates
  {
    if aggregates == [] then []
    else EventsOf(aggregates[..|aggregates| - 1]) + aggregates[|aggregates| - 1].uncommitted
  }

  /** What the aggregates have applied depends on them alone. */
  twostate lemma {:induction false} EventsAreKept(aggregates: seq<Aggregate>)
    requires forall i :: 0 <= i < |aggregates| ==> old(allocated(aggregates[i]))
    requires forall i :: 0 <= i < |aggregates| ==> aggregates[i].uncommitted == old(aggregates[i].uncommitted)
    ensures EventsOf(aggregates) == old(EventsOf(aggregates))
  {
    if aggregates != [] {
      EventsAreKept(aggregates[..|aggregates| - 1]);
    }
  }

  class TransactionRunner {
    /** True inside a transaction: the async context's store. */
    var open: bool
    /** What the event bus received, in order. */
    var bus: seq<Event>

    constructor ()
      ensures !open && bus == []
    {
      open := false;
      bus := [];
    }

    /** The `written` set a transaction fills: insertion order, no repeats. */
    method Collect(saved: seq<Aggregate>) returns (written: seq<Aggregate>)
      ensures written == Once(saved)
    {
      written := [];
      for i := 0 to |saved|
        invariant written == Once(saved[..i])
      {
        assert saved[..i + 1][..i] == saved[..i];
        if saved[i] !in written {
          written := written + [saved[i]];
        }
      }
      assert saved[..|saved|] == saved;
    }

    /** One `commit` per aggregate: its events to the bus, none kept. */
    method PublishAll(written: seq<Aggregate>)
      requires forall i, j :: 0 <= i < j < |written| ==> written[i] != written[j]
      modifies this`bus, written
      ensures bus == old(bus) + old(EventsOf(written))
      ensures forall k :: 0 <= k < |written| ==> written[k].uncommitted == []
    {
      for i := 0 to |written|
        invariant bus == old(bus) + old(EventsOf(written[..i]))
        invariant forall k :: 0 <= k < i ==> written[k].uncommitted == []
        invariant forall k :: i <= k < |written| ==> written[k].uncommitted == old(written[k].uncommitted)
      {
        assert written[..i + 1][..i] == written[..i];
        bus := bus + written[i].uncommitted;
        written[i].uncommitted := [];
      }
      assert written[..|written|] == written;
    }

    /** After the commit: each aggregate saved hands its events over once. */
    method PublishSaved(saved: seq<Aggregate>)
      modifies this`bus, saved
      ensures bus == old(bus) + old(EventsOf(Once(saved)))
      ensures forall i :: 0 <= i < |saved| ==> saved[i].uncommitted == []
    {
      var written := Collect(saved);
      PublishAll(written);
      forall i | 0 <= i < |saved| ensures saved[i].uncommitted == [] {
        assert saved[i] in written;
      }
    }

    /**
     * Each aggregate the committed transaction wrote publishes all it had applied, once, however
     * often it was saved; a transaction that did not commit publishes nothing and leaves every
     * aggregate's events where they were.
     */
    method Run(work: Work) returns (result: Result)
      modifies this`open, this`bus, work.saved
      ensures open == old(open)
      ensures result == Nested <==> old(open)
      ensures result == Published <==> !old(open) && !work.nests && work.completes && work.commits
      ensures result == Published ==> bus == old(bus) + old(EventsOf(Once(work.saved)))
      ensures result == Published ==> forall i :: 0 <= i < |work.saved| ==> work.saved[i].uncommitted == []
      ensures result != Published ==> bus == old(bus)
      ensures result != Published ==>
                forall i :: 0 <= i < |work.saved| ==> work.saved[i].uncommitted == old(work.saved[i].uncommitted)
    {
      if open {
        return Nested;
      }
      open := true;
      var refused := work.nests && open;
      var committed := !refused && work.completes && work.commits;
      open := false;
      if !committed {
        return RolledBack;
      }
      EventsAreKept(Once(work.saved));
      PublishSaved(work.saved);
      result := Published;
    }
  }
}
