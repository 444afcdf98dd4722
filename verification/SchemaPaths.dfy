/** Editing JSON trees along paths: removing the fields a viewer may not see, redacting the sensitive ones. */
module SchemaPaths {
  import opened Options

  datatype Json =
    | Null
    | Bool(truth: bool)
    | Number(number: int)
    | Text(text: string)
    | Array(items: seq<Json>)
    | Object(fields: seq<Field>)  // in key order of appearance

  datatype Field = Field(key: string, value: Json)

  /** `[]`, each item of an array; `*`, each value of a record; or one key. */
  datatype Segment = Items | Every | Named(key: string)

  type Path = seq<Segment>

  datatype Action = Remove | Redact

  const REDACTED := Text("[redacted]")

  /** What an edit leaves of a value. */
  datatype Edited = Gone | Kept(value: Json)

  predicate SelectsKey(head: Segment, key: string) { head.Every? || head == Named(key) }

  /** `edited`, with the replacement by an action: nothing, or the redaction mark. */
  function Edit(v: Json, path: Path, action: Action): (e: Edited)
    ensures e.Gone? <==> path == [] && action == Remove
    decreases |path|, 0
  {
    if path == [] then (if action == Remove then Gone else Kept(REDACTED))
    else if path[0].Items? then
      Kept(if v.Array? then Array(EditItems(v.items, path[1..], action)) else v)
    else
      Kept(if v.Object? then Object(EditFields(v.fields, path[0], path[1..], action)) else v)
  }

  function EditItems(items: seq<Json>, rest: Path, action: Action): seq<Json>
    decreases |rest|, |items| + 1
  {
    if items == [] then []
    else
      match Edit(items[0], rest, action)
      case Gone => EditItems(items[1..], rest, action)
      case Kept(item) => [item] + EditItems(items[1..], rest, action)
  }

  function EditFields(fields: seq<Field>, head: Segment, rest: Path, action: Action): seq<Field>
    decreases |rest|, |fields| + 1
  {
    if fields == [] then []
    else
      var others := EditFields(fields[1..], head, rest, action);
      if !SelectsKey(head, fields[0].key) then [fields[0]] + others
      else
        match Edit(fields[0].value, rest, action)
        case Gone => others
        case Kept(value) => [Field(fields[0].key, value)] + others
  }

  /**
   * An edit of what another left. A removed root is a symbol, which no segment leads into; the empty
   * path replaces it like any other value.
   */
  function Then(e: Edited, path: Path, action: Action): Edited {
    match e
    case Kept(value) => Edit(value, path, action)
    case Gone => if path == [] && action == Redact then Kept(REDACTED) else Gone
  }

  /** The same inside an array or an object, where what was removed is filtered out at once. */
  function Inside(e: Edited, path: Path, action: Action): Edited {
    if e.Gone? then Gone else Edit(e.value, path, action)
  }

  /** One edit removes the root and the other redacts it. */
  predicate Clash(p: Path, a: Action, q: Path, b: Action) { p == [] && q == [] && a != b }

  // ---------- edits commute ----------

  lemma {:induction false} ItemsCommute(items: seq<Json>, p: Path, a: Action, q: Path, b: Action)
    ensures EditItems(EditItems(items, p, a), q, b) == EditItems(EditItems(items, q, b), p, a)
    decreases |p| + |q|, |items| + 1
  {
    if items != [] {
      InsideCommutes(items[0], p, a, q, b);
      ItemsCommute(items[1..], p, a, q, b);
      ItemsOneMore(items, p, a);
      ItemsOneMore(items, q, b);
      EditItemsSplit(Left(items[0], p, a), EditItems(items[1..], p, a), q, b);
      EditItemsSplit(Left(items[0], q, b), EditItems(items[1..], q, b), p, a);
      LeftThen(items[0], p, a, q, b);
      LeftThen(items[0], q, b, p, a);
    }
  }

  /** What the edit leaves of one item, as a list of none or one. */
  function Left(item: Json, rest: Path, action: Action): seq<Json> {
    match Edit(item, rest, action)
    case Gone => []
    case Kept(value) => [value]
  }

  lemma ItemsOneMore(items: seq<Json>, rest: Path, action: Action)
    requires items != []
    ensures EditItems(items, rest, action) == Left(items[0], rest, action) + EditItems(items[1..], rest, action)
  {
  }

  lemma {:induction false} EditItemsSplit(first: seq<Json>, second: seq<Json>, rest: Path, action: Action)
    ensures EditItems(first + second, rest, action) == EditItems(first, rest, action) + EditItems(second, rest, action)
  {
    if first == [] {
      assert first + second == second;
    } else {
      EditItemsSplit(first[1..], second, rest, action);
      ItemsOneMore(first, rest, action);
      ItemsOneMore(first + second, rest, action);
      assert (first + second)[1..] == first[1..] + second;
      Regrouped(Left(first[0], rest, action), EditItems(first[1..], rest, action), EditItems(second, rest, action));
    }
  }

  lemma LeftThen(item: Json, p: Path, a: Action, q: Path, b: Action)
    ensures EditItems(Left(item, p, a), q, b) ==
              match Inside(Edit(item, p, a), q, b) case Gone => [] case Kept(value) => [value]
  {
    if Edit(item, p, a).Kept? {
      assert EditItems([], q, b) == [];
      assert [Edit(item, p, a).value][1..] == [];
    }
  }

  /** What the edit leaves of one field. */
  function LeftField(field: Field, head: Segment, rest: Path, action: Action): seq<Field> {
    if !SelectsKey(head, field.key) then [field]
    else
      match Edit(field.value, rest, action)
      case Gone => []
      case Kept(value) => [Field(field.key, value)]
  }

  lemma FieldsOneMore(fields: seq<Field>, head: Segment, rest: Path, action: Action)
    requires fields != []
    ensures EditFields(fields, head, rest, action) ==
              LeftField(fields[0], head, rest, action) + EditFields(fields[1..], head, rest, action)
  {
  }

  lemma {:induction false} EditFieldsSplit(first: seq<Field>, second: seq<Field>, head: Segment, rest: Path, action: Action)
    ensures EditFields(first + second, head, rest, action) ==
              EditFields(first, head, rest, action) + EditFields(second, head, rest, action)
  {
    if first == [] {
      assert first + second == second;
    } else {
      EditFieldsSplit(first[1..], second, head, rest, action);
      FieldsOneMore(first, head, rest, action);
      FieldsOneMore(first + second, head, rest, action);
      assert (first + second)[1..] == first[1..] + second;
      Regrouped(LeftField(first[0], head, rest, action), EditFields(first[1..], head, rest, action),
                EditFields(second, head, rest, action));
    }
  }

  lemma Regrouped<T>(a: seq<T>, b: seq<T>, c: seq<T>)
    ensures a + (b + c) == (a + b) + c
  {
  }

  lemma OneField(field: Field, head: Segment, rest: Path, action: Action)
    ensures EditFields([field], head, rest, action) == LeftField(field, head, rest, action)
    ensures EditFields([], head, rest, action) == []
  {
    assert [field][1..] == [];
    assert EditFields([], head, rest, action) == [];
  }

  lemma LeftFieldThen(field: Field, hp: Segment, p: Path, a: Action, hq: Segment, q: Path, b: Action)
    ensures EditFields(LeftField(field, hp, p, a), hq, q, b) ==
      if SelectsKey(hp, field.key) && Edit(field.value, p, a).Gone? then []
      else LeftField(if SelectsKey(hp, field.key) then Field(field.key, Edit(field.value, p, a).value) else field, hq, q, b)
  {
    OneField(field, hq, q, b);
    if SelectsKey(hp, field.key) && Edit(field.value, p, a).Kept? {
      OneField(Field(field.key, Edit(field.value, p, a).value), hq, q, b);
    }
  }

  lemma {:induction false} FieldsCommute(fields: seq<Field>, hp: Segment, p: Path, a: Action, hq: Segment, q: Path, b: Action)
    ensures EditFields(EditFields(fields, hp, p, a), hq, q, b) == EditFields(EditFields(fields, hq, q, b), hp, p, a)
    decreases |p| + |q|, |fields| + 1
  {
    if fields != [] {
      InsideCommutes(fields[0].value, p, a, q, b);
      FieldsCommute(fields[1..], hp, p, a, hq, q, b);
      FieldsOneMore(fields, hp, p, a);
      FieldsOneMore(fields, hq, q, b);
      EditFieldsSplit(LeftField(fields[0], hp, p, a), EditFields(fields[1..], hp, p, a), hq, q, b);
      EditFieldsSplit(LeftField(fields[0], hq, q, b), EditFields(fields[1..], hq, q, b), hp, p, a);
      LeftFieldThen(fields[0], hp, p, a, hq, q, b);
      LeftFieldThen(fields[0], hq, q, b, hp, p, a);
    }
  }

  /** Inside a tree any two edits commute: what one removes the other no longer finds. */
  lemma {:induction false} InsideCommutes(v: Json, p: Path, a: Action, q: Path, b: Action)
    ensures Inside(Edit(v, p, a), q, b) == Inside(Edit(v, q, b), p, a)
    decreases |p| + |q|, 0
  {
    if p != [] && q != [] {
      if v.Array? && p[0].Items? && q[0].Items? {
        ItemsCommute(v.items, p[1..], a, q[1..], b);
      } else if v.Object? && !p[0].Items? && !q[0].Items? {
        FieldsCommute(v.fields, p[0], p[1..], a, q[0], q[1..], b);
      }
    }
  }

  /**
   * Two edits commute, removals and redactions alike, on every tree and every pair of paths, but for
   * the one pair that removes and redacts the root: then the last one wins.
   */
  lemma EditsCommute(v: Json, p: Path, a: Action, q: Path, b: Action)
    ensures Then(Edit(v, p, a), q, b) == Then(Edit(v, q, b), p, a) <==> !Clash(p, a, q, b)
  {
    InsideCommutes(v, p, a, q, b);
  }

  // ---------- edits are idempotent ----------

  lemma {:induction false} ItemsTwice(items: seq<Json>, rest: Path, action: Action)
    ensures EditItems(EditItems(items, rest, action), rest, action) == EditItems(items, rest, action)
    decreases |rest|, |items| + 1
  {
    if items != [] {
      InsideTwice(items[0], rest, action);
      ItemsTwice(items[1..], rest, action);
      EditItemsSplit(Left(items[0], rest, action), EditItems(items[1..], rest, action), rest, action);
      LeftThen(items[0], rest, action, rest, action);
    }
  }

  lemma {:induction false} FieldsTwice(fields: seq<Field>, head: Segment, rest: Path, action: Action)
    ensures EditFields(EditFields(fields, head, rest, action), head, rest, action) == EditFields(fields, head, rest, action)
    decreases |rest|, |fields| + 1
  {
    if fields != [] {
      InsideTwice(fields[0].value, rest, action);
      FieldsTwice(fields[1..], head, rest, action);
      EditFieldsSplit(LeftField(fields[0], head, rest, action), EditFields(fields[1..], head, rest, action), head, rest, action);
      LeftFieldThen(fields[0], head, rest, action, head, rest, action);
    }
  }

  lemma {:induction false} InsideTwice(v: Json, path: Path, action: Action)
    ensures Inside(Edit(v, path, action), path, action) == Edit(v, path, action)
    decreases |path|, 0
  {
    if path != [] {
      if v.Array? && path[0].Items? {
        ItemsTwice(v.items, path[1..], action);
      } else if v.Object? && !path[0].Items? {
        FieldsTwice(v.fields, path[0], path[1..], action);
      }
    }
  }

  /** Editing again along the same path changes nothing more. */
  lemma EditTwice(v: Json, path: Path, action: Action)
    ensures Then(Edit(v, path, action), path, action) == Edit(v, path, action)
  {
    InsideTwice(v, path, action);
  }

  // ---------- the order of a reduce is irrelevant ----------

  datatype Change = Change(path: Path, action: Action)

  /** The reduce over a list of paths. */
  function All(e: Edited, changes: seq<Change>): Edited
    decreases |changes|
  {
    if changes == [] then e else All(Then(e, changes[0].path, changes[0].action), changes[1..])
  }

  predicate Clashes(x: Change, y: Change) { Clash(x.path, x.action, y.path, y.action) }

  ghost predicate NoneClashes(changes: seq<Change>, others: seq<Change>) {
    forall x, y :: x in changes && y in others ==> !Clashes(x, y)
  }

  lemma ThenCommutes(e: Edited, x: Change, y: Change)
    requires !Clashes(x, y)
    ensures Then(Then(e, x.path, x.action), y.path, y.action) == Then(Then(e, y.path, y.action), x.path, x.action)
  {
    if e.Kept? {
      EditsCommute(e.value, x.path, x.action, y.path, y.action);
    }
  }

  lemma {:induction false} OneCommutesWithAll(e: Edited, x: Change, changes: seq<Change>)
    requires NoneClashes([x], changes)
    ensures All(Then(e, x.path, x.action), changes) == Then(All(e, changes), x.path, x.action)
    decreases |changes|
  {
    if changes != [] {
      assert x in [x] && changes[0] in changes;
      ThenCommutes(e, x, changes[0]);
      OneCommutesWithAll(Then(e, changes[0].path, changes[0].action), x, changes[1..]);
    }
  }

  lemma {:induction false} ListsCommute(e: Edited, first: seq<Change>, second: seq<Change>)
    requires NoneClashes(first, second)
    ensures All(All(e, first), second) == All(All(e, second), first)
    decreases |first|
  {
    if first != [] {
      var x := first[0];
      assert x in first;
      ListsCommute(Then(e, x.path, x.action), first[1..], second);
      OneCommutesWithAll(e, x, second);
    }
  }

  /** Making the same change again right after it adds nothing. */
  lemma ThenTwice(e: Edited, x: Change)
    ensures Then(Then(e, x.path, x.action), x.path, x.action) == Then(e, x.path, x.action)
  {
    if e.Kept? {
      EditTwice(e.value, x.path, x.action);
    }
  }

  /** A change already among the list adds nothing after it. */
  lemma {:induction false} AbsorbedOnce(e: Edited, x: Change, changes: seq<Change>)
    requires x in changes && NoneClashes([x], changes)
    ensures Then(All(e, changes), x.path, x.action) == All(e, changes)
    decreases |changes|
  {
    var first := changes[0];
    var next := Then(e, first.path, first.action);
    if x == first {
      OneCommutesWithAll(next, x, changes[1..]);
      ThenTwice(e, x);
    } else {
      AbsorbedOnce(next, x, changes[1..]);
    }
  }

  lemma {:induction false} Absorbed(e: Edited, more: seq<Change>, changes: seq<Change>)
    requires NoneClashes(more, changes) && forall x :: x in more ==> x in changes
    ensures All(All(e, changes), more) == All(e, changes)
  {
    if more != [] {
      assert more[0] in more;
      AbsorbedOnce(e, more[0], changes);
      Absorbed(e, more[1..], changes);
    }
  }

  ghost predicate SameChanges(first: seq<Change>, second: seq<Change>) {
    forall x :: x in first <==> x in second
  }

  /** Without a clash the result depends on the set of changes alone: not on their order, nor on repeats. */
  lemma OnlyTheSetMatters(e: Edited, first: seq<Change>, second: seq<Change>)
    requires SameChanges(first, second) && NoneClashes(first, first)
    ensures All(e, first) == All(e, second)
  {
    Absorbed(e, second, first);
    Absorbed(e, first, second);
    ListsCommute(e, first, second);
  }

  lemma {:induction false} OneMoreChange(e: Edited, changes: seq<Change>, x: Change)
    ensures All(e, changes + [x]) == Then(All(e, changes), x.path, x.action)
    decreases |changes|
  {
    if changes != [] {
      assert (changes + [x])[1..] == changes[1..] + [x];
      OneMoreChange(Then(e, changes[0].path, changes[0].action), changes[1..], x);
    } else {
      assert (changes + [x])[1..] == [];
    }
  }

  lemma RepeatedAtTheEnd(changes: seq<Change>, x: Change)
    requires x in changes
    ensures SameChanges(changes, changes + [x])
  {
  }

  lemma TheLastWins(e: Edited, changes: seq<Change>, x: Change, y: Change)
    requires x in changes && y in changes && Clashes(x, y)
    ensures SameChanges(changes, changes + [x]) && SameChanges(changes, changes + [y])
    ensures All(e, changes + [x]) != All(e, changes + [y])
  {
    RepeatedAtTheEnd(changes, x);
    RepeatedAtTheEnd(changes, y);
    OneMoreChange(e, changes, x);
    OneMoreChange(e, changes, y);
  }

  /** And only then: with a clash, whichever of the two comes last decides. */
  lemma OrderMattersExactlyForAClash(e: Edited, changes: seq<Change>)
    ensures NoneClashes(changes, changes) <==>
      forall others :: SameChanges(changes, others) ==> All(e, others) == All(e, changes)
  {
    if NoneClashes(changes, changes) {
      forall others | SameChanges(changes, others) ensures All(e, others) == All(e, changes) {
        OnlyTheSetMatters(e, changes, others);
      }
    } else {
      var x, y :| x in changes && y in changes && Clashes(x, y);
      TheLastWins(e, changes, x, y);
    }
  }

  /** A reduce makes one kind of change, so its order never matters. */
  lemma OneActionNeverClashes(e: Edited, first: seq<Change>, second: seq<Change>, action: Action)
    requires SameChanges(first, second) && forall x :: x in first ==> x.action == action
    ensures All(e, first) == All(e, second)
  {
    OnlyTheSetMatters(e, first, second);
  }

  // ---------- where an edit changes something ----------

  /** A step down a tree: an array's index, or an object's key. */
  datatype Step = At(index: nat) | Under(key: string)

  function FieldValue(fields: seq<Field>, key: string): Option<Json> {
    if fields == [] then None
    else if fields[0].key == key then Some(fields[0].value)
    else FieldValue(fields[1..], key)
  }

  function Child(v: Json, step: Step): Option<Json> {
    match step
    case At(i) => if v.Array? && i < |v.items| then Some(v.items[i]) else None
    case Under(key) => if v.Object? then FieldValue(v.fields, key) else None
  }

  /** The value at a position, if the tree has one there. */
  function Get(v: Json, position: seq<Step>): Option<Json>
    decreases |position|
  {
    if position == [] then Some(v)
    else match Child(v, position[0]) case None => None case Some(child) => Get(child, position[1..])
  }

  predicate Selects(segment: Segment, step: Step) {
    match step
    case At(_) => segment.Items?
    case Under(key) => !segment.Items? && SelectsKey(segment, key)
  }

  /** `[]` selects every index and no key, `*` every key and no index, a name its own key alone. */
  lemma SegmentsSelect(index: nat, key: string, other: string)
    ensures Selects(Items, At(index)) && !Selects(Items, Under(key))
    ensures Selects(Every, Under(key)) && !Selects(Every, At(index))
    ensures Selects(Named(key), Under(other)) <==> key == other
    ensures !Selects(Named(key), At(index))
  {
  }

  /** How a position lies to a path: off it, on the way to what it selects, or at or below that. */
  datatype Bearing = Apart | Above(rest: Path) | Within(below: nat)

  function BearingOf(path: Path, position: seq<Step>): (b: Bearing)
    ensures b.Above? ==> b.rest != []
  {
    if path == [] then Within(|position|)
    else if position == [] then Above(path)
    else if Selects(path[0], position[0]) then BearingOf(path[1..], position[1..])
    else Apart
  }

  lemma {:induction false} ItemsAfterEdit(items: seq<Json>, rest: Path, action: Action)
    ensures rest == [] && action == Remove ==> EditItems(items, rest, action) == []
    ensures !(rest == [] && action == Remove) ==>
              && |EditItems(items, rest, action)| == |items|
              && forall i :: 0 <= i < |items| ==> EditItems(items, rest, action)[i] == Edit(items[i], rest, action).value
  {
    if items != [] {
      ItemsAfterEdit(items[1..], rest, action);
    }
  }

  lemma {:induction false} FieldAfterEdit(fields: seq<Field>, head: Segment, rest: Path, action: Action, key: string)
    ensures FieldValue(EditFields(fields, head, rest, action), key) ==
      if !SelectsKey(head, key) || FieldValue(fields, key).None? then FieldValue(fields, key)
      else match Edit(FieldValue(fields, key).value, rest, action) case Gone => None case Kept(value) => Some(value)
  {
    if fields != [] {
      FieldAfterEdit(fields[1..], head, rest, action, key);
      if rest == [] && action == Remove {
        NothingSelectedLeft(fields[1..], head, key);
      }
    }
  }

  lemma {:induction false} NothingSelectedLeft(fields: seq<Field>, head: Segment, key: string)
    ensures SelectsKey(head, key) ==> FieldValue(EditFields(fields, head, [], Remove), key).None?
  {
    if fields != [] {
      NothingSelectedLeft(fields[1..], head, key);
    }
  }

  lemma ChildAfterEdit(v: Json, path: Path, action: Action, step: Step)
    requires path != []
    ensures Child(Edit(v, path, action).value, step) ==
      if !Selects(path[0], step) || Child(v, step).None? then Child(v, step)
      else match Edit(Child(v, step).value, path[1..], action) case Gone => None case Kept(value) => Some(value)
  {
    match step
    case At(i) =>
      if v.Array? {
        ItemsAfterEdit(v.items, path[1..], action);
      }
    case Under(key) =>
      if v.Object? && !path[0].Items? {
        FieldAfterEdit(v.fields, path[0], path[1..], action, key);
      }
  }

  /** What every position of the tree holds after an edit, in terms of what it held before. */
  function Expected(v: Json, path: Path, action: Action, position: seq<Step>): Option<Json> {
    match BearingOf(path, position)
    case Apart => Get(v, position)
    case Above(rest) =>
      (match Get(v, position) case None => None case Some(w) => Some(Edit(w, rest, action).value))
    case Within(below) =>
      if action == Redact && below == 0 && Get(v, position).Some? then Some(REDACTED) else None
  }

  /**
   * Removing a path leaves nothing at or below what it selects; redacting leaves the mark there, and
   * only where there was a value; and nothing changes at any position off the path.
   */
  lemma {:induction false} EditChangesOnlyWhatIsSelected(v: Json, path: Path, action: Action, position: seq<Step>)
    requires path != []
    ensures Get(Edit(v, path, action).value, position) == Expected(v, path, action, position)
    decreases |position|
  {
    if position != [] {
      ChildAfterEdit(v, path, action, position[0]);
      if Selects(path[0], position[0]) && Child(v, position[0]).Some? {
        var child := Child(v, position[0]).value;
        if path[1..] != [] {
          EditChangesOnlyWhatIsSelected(child, path[1..], action, position[1..]);
          assert Expected(v, path, action, position) == Expected(child, path[1..], action, position[1..]);
        } else {
          assert BearingOf(path, position) == BearingOf(path[1..], position[1..]) == Within(|position| - 1);
          assert Get(v, position) == Get(child, position[1..]);
          if action == Redact {
            assert Get(Edit(v, path, action).value, position) == Get(REDACTED, position[1..]);
          }
        }
      }
    }
  }

  // ---------- bodies that differ only where they are cut ----------

  function Unselected(fields: seq<Field>, head: Segment): seq<Field> {
    if fields == [] then []
    else (if SelectsKey(head, fields[0].key) then [] else [fields[0]]) + Unselected(fields[1..], head)
  }

  /** The two trees are the same but for what the path selects. */
  ghost predicate AgreeOutside(v: Json, w: Json, path: Path)
    decreases |path|
  {
    if path == [] then true
    else if path[0].Items? && v.Array? && w.Array? then
      path[1..] == [] ||
      (|v.items| == |w.items| && forall i :: 0 <= i < |v.items| ==> AgreeOutside(v.items[i], w.items[i], path[1..]))
    else if !path[0].Items? && v.Object? && w.Object? then
      if path[1..] == [] then Unselected(v.fields, path[0]) == Unselected(w.fields, path[0])
      else
        && |v.fields| == |w.fields|
        && forall i :: 0 <= i < |v.fields| ==>
             && v.fields[i].key == w.fields[i].key
             && (if SelectsKey(path[0], v.fields[i].key) then AgreeOutside(v.fields[i].value, w.fields[i].value, path[1..])
                 else v.fields[i].value == w.fields[i].value)
    else v == w
  }

  lemma {:induction false} RemovingFieldsLeavesTheOthers(fields: seq<Field>, head: Segment)
    ensures EditFields(fields, head, [], Remove) == Unselected(fields, head)
  {
    if fields != [] {
      RemovingFieldsLeavesTheOthers(fields[1..], head);
    }
  }

  lemma {:induction false} FieldsInPlace(fields: seq<Field>, head: Segment, rest: Path)
    requires rest != []
    ensures var edited := EditFields(fields, head, rest, Remove);
      && |edited| == |fields|
      && forall i :: 0 <= i < |fields| ==>
           && edited[i].key == fields[i].key
           && edited[i].value == if SelectsKey(head, fields[i].key) then Edit(fields[i].value, rest, Remove).value else fields[i].value
  {
    if fields != [] {
      FieldsInPlace(fields[1..], head, rest);
    }
  }

  /** Two bodies project to the same body exactly when they differ only at the removed positions. */
  lemma {:induction false} SameProjectionExactly(v: Json, w: Json, path: Path)
    ensures Edit(v, path, Remove) == Edit(w, path, Remove) <==> AgreeOutside(v, w, path)
    decreases |path|, 0
  {
    if path != [] {
      var rest := path[1..];
      if path[0].Items? && v.Array? && w.Array? {
        ItemsAfterEdit(v.items, rest, Remove);
        ItemsAfterEdit(w.items, rest, Remove);
        if rest != [] && |v.items| == |w.items| {
          forall i | 0 <= i < |v.items|
            ensures Edit(v.items[i], rest, Remove) == Edit(w.items[i], rest, Remove) <==> AgreeOutside(v.items[i], w.items[i], rest)
          {
            SameProjectionExactly(v.items[i], w.items[i], rest);
          }
          ItemsAgree(v.items, w.items, rest);
        }
      } else if !path[0].Items? && v.Object? && w.Object? {
        if rest == [] {
          RemovingFieldsLeavesTheOthers(v.fields, path[0]);
          RemovingFieldsLeavesTheOthers(w.fields, path[0]);
        } else {
          FieldsAgree(v.fields, w.fields, path[0], rest);
          assert [path[0]] + rest == path;
        }
      }
    }
  }

  lemma ItemsAgree(items: seq<Json>, others: seq<Json>, rest: Path)
    requires rest != [] && |items| == |others|
    ensures EditItems(items, rest, Remove) == EditItems(others, rest, Remove) <==>
      forall i :: 0 <= i < |items| ==> Edit(items[i], rest, Remove) == Edit(others[i], rest, Remove)
  {
    ItemsAfterEdit(items, rest, Remove);
    ItemsAfterEdit(others, rest, Remove);
    var edited, edited' := EditItems(items, rest, Remove), EditItems(others, rest, Remove);
    if edited == edited' {
      forall i | 0 <= i < |items| ensures Edit(items[i], rest, Remove) == Edit(others[i], rest, Remove) {
        assert edited[i] == edited'[i];
      }
    }
  }

  lemma {:induction false} FieldsAgree(fields: seq<Field>, others: seq<Field>, head: Segment, rest: Path)
    requires rest != [] && !head.Items?
    ensures EditFields(fields, head, rest, Remove) == EditFields(others, head, rest, Remove) <==>
      AgreeOutside(Object(fields), Object(others), [head] + rest)
    decreases |rest|, 1
  {
    FieldsInPlace(fields, head, rest);
    FieldsInPlace(others, head, rest);
    assert ([head] + rest)[1..] == rest;
    var edited, edited' := EditFields(fields, head, rest, Remove), EditFields(others, head, rest, Remove);
    if |fields| == |others| {
      forall i | 0 <= i < |fields|
        ensures Edit(fields[i].value, rest, Remove) == Edit(others[i].value, rest, Remove) <==>
                AgreeOutside(fields[i].value, others[i].value, rest)
      {
        SameProjectionExactly(fields[i].value, others[i].value, rest);
      }
      if edited == edited' {
        forall i | 0 <= i < |fields| ensures edited[i] == edited'[i] {}
      }
    }
  }
}
