/** `frozen`: marking an object graph in place, depth first, cycles included. */
module Frozen {
  /** A JavaScript object: its frozen mark, and its values that are objects (null stands for a scalar). */
  class Obj {
    var isFrozen: bool
    var values: seq<Obj?>

    constructor (values: seq<Obj?>)
      ensures !isFrozen && this.values == values
    {
      this.values := values;
      isFrozen := false;
    }
  }

  /** What each object of a graph holds, which no freeze changes. */
  type Shape = map<Obj, seq<Obj?>>

  ghost function ShapeOf(graph: set<Obj>): Shape
    reads graph`values
  {
    map o | o in graph :: o.values
  }

  /** A finite set of objects none of whose values leads out of it. */
  ghost predicate Closed(shape: Shape) {
    forall o, i :: o in shape && 0 <= i < |shape[o]| && shape[o][i] != null ==> shape[o][i] in shape
  }

  /** The object a path of value positions leads to, null when it leads nowhere. */
  ghost function Follow(shape: Shape, from: Obj, path: seq<nat>): Obj?
    decreases |path|
  {
    if path == [] then from
    else if from in shape && path[0] < |shape[from]| && shape[from][path[0]] != null then
      Follow(shape, shape[from][path[0]], path[1..])
    else null
  }

  /** The same, through objects of `open` only: the ones the recursion goes into. */
  ghost function FollowOpen(shape: Shape, open: set<Obj>, from: Obj, path: seq<nat>): Obj?
    decreases |path|
  {
    if from !in open then null
    else if path == [] then from
    else if from in shape && path[0] < |shape[from]| && shape[from][path[0]] != null then
      FollowOpen(shape, open, shape[from][path[0]], path[1..])
    else null
  }

  ghost predicate Reaches(shape: Shape, from: Obj, to: Obj) {
    exists path: seq<nat> :: Follow(shape, from, path) == to
  }

  ghost predicate ReachesOpenly(shape: Shape, open: set<Obj>, from: Obj, to: Obj) {
    exists path: seq<nat> :: FollowOpen(shape, open, from, path) == to
  }

  ghost function Thawed(graph: set<Obj>): set<Obj>
    reads graph`isFrozen
  {
    set o | o in graph && !o.isFrozen
  }

  // ---------- paths ----------

  lemma OpenItself(shape: Shape, open: set<Obj>, from: Obj)
    requires from in open
    ensures ReachesOpenly(shape, open, from, from)
  {
    assert FollowOpen(shape, open, from, []) == from;
  }

  lemma {:induction false} OpenPathsAreMonotone(shape: Shape, open: set<Obj>, wider: set<Obj>, from: Obj, path: seq<nat>)
    requires open <= wider && FollowOpen(shape, open, from, path) != null
    ensures FollowOpen(shape, wider, from, path) == FollowOpen(shape, open, from, path)
    decreases |path|
  {
    if path != [] {
      OpenPathsAreMonotone(shape, open, wider, shape[from][path[0]], path[1..]);
    }
  }

  /** What a value reaches openly, its owner does, and through a wider set as well. */
  lemma OwnerReachesOpenly(shape: Shape, open: set<Obj>, wider: set<Obj>, owner: Obj, i: nat, to: Obj)
    requires open <= wider && owner in wider && owner in shape
    requires i < |shape[owner]| && shape[owner][i] != null && ReachesOpenly(shape, open, shape[owner][i], to)
    ensures ReachesOpenly(shape, wider, owner, to)
  {
    var path :| FollowOpen(shape, open, shape[owner][i], path) == to;
    OpenPathsAreMonotone(shape, open, wider, shape[owner][i], path);
    assert ([i] + path)[1..] == path;
    assert FollowOpen(shape, wider, owner, [i] + path) == to;
  }

  /** Every value of an object marked on the way is marked at the end. */
  ghost predicate ValuesMarked(shape: Shape, marked: set<Obj>, thawed: set<Obj>) {
    forall o, i :: o in marked && o in shape && 0 <= i < |shape[o]| && shape[o][i] != null ==> shape[o][i] !in thawed
  }

  /** Marking that leaves no marked object with an unmarked value marks every open path. */
  lemma {:induction false} OpenPathsAreMarked(shape: Shape, before: set<Obj>, after: set<Obj>, from: Obj, path: seq<nat>)
    requires after <= before && ValuesMarked(shape, before - after, after)
    requires from !in after && FollowOpen(shape, before, from, path) != null
    ensures FollowOpen(shape, before, from, path) !in after
    decreases |path|
  {
    if path != [] {
      assert from in before - after;
      OpenPathsAreMarked(shape, before, after, shape[from][path[0]], path[1..]);
    }
  }

  // ---------- the recursion ----------

  /**
   * `frozen`: it ends on every finite graph, and the objects it freezes are exactly those the value
   * reaches through objects that were not frozen.
   */
  method Freeze(value: Obj?, ghost graph: set<Obj>) returns (same: Obj?)
    requires Closed(ShapeOf(graph)) && (value != null ==> value in graph)
    modifies graph`isFrozen
    ensures same == value
    ensures Thawed(graph) <= old(Thawed(graph))
    ensures value != null ==> value !in Thawed(graph)
    ensures ValuesMarked(ShapeOf(graph), old(Thawed(graph)) - Thawed(graph), Thawed(graph))
    ensures forall o :: o in old(Thawed(graph)) ==>
              (o !in Thawed(graph) <==> value != null && ReachesOpenly(ShapeOf(graph), old(Thawed(graph)), value, o))
    decreases Thawed(graph)
  {
    same := value;
    ghost var shape, before := ShapeOf(graph), Thawed(graph);
    if value != null && !value.isFrozen {
      value.isFrozen := true;
      OpenItself(shape, before, value);
      for i := 0 to |value.values|
        invariant Thawed(graph) <= before - {value}
        invariant forall k :: 0 <= k < i && value.values[k] != null ==> value.values[k] !in Thawed(graph)
        invariant ValuesMarked(shape, before - Thawed(graph) - {value}, Thawed(graph))
        invariant forall o :: o in before - Thawed(graph) ==> ReachesOpenly(shape, before, value, o)
      {
        ghost var during := Thawed(graph);
        assert ShapeOf(graph) == shape;
        var inner := Freeze(value.values[i], graph);
        forall o | o in during - Thawed(graph) ensures ReachesOpenly(shape, before, value, o) {
          OwnerReachesOpenly(shape, during, before, value, i, o);
        }
      }
      ghost var after := Thawed(graph);
      assert ValuesMarked(shape, before - after, after);
      forall o | o in before && ReachesOpenly(shape, before, value, o) ensures o !in after {
        var path :| FollowOpen(shape, before, value, path) == o;
        OpenPathsAreMarked(shape, before, after, value, path);
      }
    } else if value != null {
      forall path: seq<nat> ensures FollowOpen(shape, before, value, path) == null {
      }
    }
    assert ShapeOf(graph) == shape;
  }

  // ---------- everything reachable ----------

  /** What was frozen before the call reached only frozen objects. */
  ghost predicate FrozenIsDeep(shape: Shape, thawed: set<Obj>) {
    forall o, i :: o in shape && o !in thawed && 0 <= i < |shape[o]| && shape[o][i] != null ==> shape[o][i] !in thawed
  }

  /** A path out of a frozen object stays among frozen ones. */
  lemma {:induction false} FrozenLeadsToFrozen(shape: Shape, thawed: set<Obj>, from: Obj, path: seq<nat>)
    requires FrozenIsDeep(shape, thawed) && from !in thawed
    ensures Follow(shape, from, path) !in thawed
    decreases |path|
  {
    if path != [] && from in shape && path[0] < |shape[from]| && shape[from][path[0]] != null {
      FrozenLeadsToFrozen(shape, thawed, shape[from][path[0]], path[1..]);
    }
  }

  /** So a path to an object not frozen is open all along. */
  lemma {:induction false} PathsToThawedAreOpen(shape: Shape, thawed: set<Obj>, from: Obj, path: seq<nat>)
    requires FrozenIsDeep(shape, thawed) && Follow(shape, from, path) in thawed
    ensures FollowOpen(shape, thawed, from, path) == Follow(shape, from, path)
    decreases |path|
  {
    if from !in thawed {
      FrozenLeadsToFrozen(shape, thawed, from, path);
    } else if path != [] {
      PathsToThawedAreOpen(shape, thawed, shape[from][path[0]], path[1..]);
    }
  }

  lemma {:induction false} OpenPathsArePaths(shape: Shape, open: set<Obj>, from: Obj, path: seq<nat>)
    requires FollowOpen(shape, open, from, path) != null
    ensures Follow(shape, from, path) == FollowOpen(shape, open, from, path)
    decreases |path|
  {
    if path != [] {
      OpenPathsArePaths(shape, open, shape[from][path[0]], path[1..]);
    }
  }

  /** No object the value reaches is held only behind ones already frozen. */
  ghost predicate NothingShielded(shape: Shape, thawed: set<Obj>, value: Obj) {
    forall o :: o in thawed && Reaches(shape, value, o) ==> ReachesOpenly(shape, thawed, value, o)
  }

  ghost predicate AllFrozen(shape: Shape, thawed: set<Obj>, value: Obj) {
    forall o :: o in shape && Reaches(shape, value, o) ==> o !in thawed
  }

  lemma DeepFrozenShieldsNothing(shape: Shape, thawed: set<Obj>, value: Obj)
    requires FrozenIsDeep(shape, thawed)
    ensures NothingShielded(shape, thawed, value)
  {
    forall o | o in thawed && Reaches(shape, value, o) ensures ReachesOpenly(shape, thawed, value, o) {
      var path :| Follow(shape, value, path) == o;
      PathsToThawedAreOpen(shape, thawed, value, path);
    }
  }

  /**
   * The deep freeze the callers rely on: everything the value reaches is frozen, and nothing else is
   * touched. It holds exactly when no object was shielded by one frozen before, which is so whenever
   * the frozen ones reached only frozen ones.
   */
  method DeepFreeze(value: Obj, ghost graph: set<Obj>)
    requires Closed(ShapeOf(graph)) && value in graph
    modifies graph`isFrozen
    ensures AllFrozen(ShapeOf(graph), Thawed(graph), value) <==> old(NothingShielded(ShapeOf(graph), Thawed(graph), value))
    ensures old(FrozenIsDeep(ShapeOf(graph), Thawed(graph))) ==>
              AllFrozen(ShapeOf(graph), Thawed(graph), value) && FrozenIsDeep(ShapeOf(graph), Thawed(graph))
    ensures forall o :: o in graph && !Reaches(ShapeOf(graph), value, o) ==> o.isFrozen == old(o.isFrozen)
    ensures forall o :: o in graph && old(o.isFrozen) ==> o.isFrozen
  {
    ghost var shape, before := ShapeOf(graph), Thawed(graph);
    var same := Freeze(value, graph);
    ghost var after := Thawed(graph);
    assert ShapeOf(graph) == shape;
    if FrozenIsDeep(shape, before) {
      DeepFrozenShieldsNothing(shape, before, value);
    }
    forall o | o in before && o !in after ensures Reaches(shape, value, o) {
      var path :| FollowOpen(shape, before, value, path) == o;
      OpenPathsArePaths(shape, before, value, path);
    }
    forall o | o in graph && old(o.isFrozen) ensures o.isFrozen {
      assert o !in before && o !in after;
    }
  }

  /** The proviso is needed: an object already frozen is not entered, so what it alone holds stays as it is. */
  method AFrozenObjectIsNotEntered(value: Obj, ghost graph: set<Obj>)
    requires Closed(ShapeOf(graph)) && value in graph && value.isFrozen
    modifies graph`isFrozen
    ensures forall o :: o in graph ==> o.isFrozen == old(o.isFrozen)
  {
    ghost var shape, before := ShapeOf(graph), Thawed(graph);
    var same := Freeze(value, graph);
    assert ShapeOf(graph) == shape;
    assert forall path: seq<nat> :: FollowOpen(shape, before, value, path) == null;
    forall o | o in graph ensures o.isFrozen == old(o.isFrozen) {
      assert o in before <==> o in Thawed(graph);
    }
  }

  /** A cycle of two: freezing either freezes both, and ends. */
  method FreezeACycle() returns (a: Obj, b: Obj)
    ensures fresh(a) && fresh(b) && a.values == [b] && b.values == [a]
    ensures a.isFrozen && b.isFrozen
  {
    a := new Obj([]);
    b := new Obj([a]);
    a.values := [b];
    ghost var graph := {a, b};
    ghost var shape := ShapeOf(graph);
    assert shape == map[a := [b], b := [a]];
    assert Thawed(graph) == graph && FrozenIsDeep(shape, graph);
    DeepFreeze(a, graph);
    assert ShapeOf(graph) == shape;
    assert Follow(shape, a, []) == a;
    assert Follow(shape, b, []) == b && [0][1..] == [];
    assert Follow(shape, a, [0]) == b;
  }
}
