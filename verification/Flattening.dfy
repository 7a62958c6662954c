/** flattenGroupedAnswers, and exactly when grouping and flattening undo each other. */
module Flattening {
  import opened Wrappers
  import opened InstanceIds
  import opened States
  import opened Replay
  import opened DiffReplay
  import opened Schema
  import opened Grouping

  /** v is the value that some element field or plain entry of g contributes under a flat key. */
  ghost predicate Source(g: map<string, Entry>, key: string, v: Entry) {
    || (key in g && g[key].Leaf? && v == g[key])
    || exists p, k, c :: InArray(g, p, k, c) && key == BuildInstanceId(c, Some(g[p].elements[k].index))
                         && v == g[p].elements[k].fields[c]
  }

  predicate InArray(g: map<string, Entry>, p: string, k: int, c: string) {
    IsArray(g, p) && 0 <= k < |g[p].elements| && c in g[p].elements[k].fields
  }

  /** The flat keys are exactly the contributed ones; which of two contributions to a key wins is left open. */
  ghost predicate IsFlattening(g: map<string, Entry>, flat: map<string, Entry>) {
    && (forall key | key in flat :: Source(g, key, flat[key]))
    && (forall key, v | Source(g, key, v) :: key in flat)
  }

  // ---- flattenGroupedAnswers ----

  method FlattenElement(e: Element, flat: map<string, Entry>) returns (result: map<string, Entry>)
    ensures forall key | key in result ::
              (key in flat && result[key] == flat[key]) ||
              exists c :: c in e.fields && key == BuildInstanceId(c, Some(e.index)) && result[key] == e.fields[c]
    ensures flat.Keys <= result.Keys
    ensures forall c | c in e.fields :: BuildInstanceId(c, Some(e.index)) in result
  {
    result := flat;
    var todo := e.fields.Keys;
    while todo != {}
      invariant todo <= e.fields.Keys
      invariant forall key | key in result ::
                  (key in flat && result[key] == flat[key]) ||
                  exists c :: c in e.fields && key == BuildInstanceId(c, Some(e.index)) && result[key] == e.fields[c]
      invariant flat.Keys <= result.Keys
      invariant forall c | c in e.fields && c !in todo :: BuildInstanceId(c, Some(e.index)) in result
      decreases todo
    {
      var c :| c in todo;
      todo := todo - {c};
      result := result[BuildInstanceId(c, Some(e.index)) := e.fields[c]];
    }
  }

  method FlattenArray(g: map<string, Entry>, p: string, flat: map<string, Entry>) returns (result: map<string, Entry>)
    requires IsArray(g, p)
    requires forall key | key in flat :: Source(g, key, flat[key])
    ensures forall key | key in result :: Source(g, key, result[key])
    ensures flat.Keys <= result.Keys
    ensures forall k, c | InArray(g, p, k, c) :: BuildInstanceId(c, Some(g[p].elements[k].index)) in result
  {
    var els := g[p].elements;
    result := flat;
    for n := 0 to |els|
      invariant forall key | key in result :: Source(g, key, result[key])
      invariant flat.Keys <= result.Keys
      invariant forall k, c | InArray(g, p, k, c) && k < n :: BuildInstanceId(c, Some(els[k].index)) in result
    {
      var before := result;
      result := FlattenElement(els[n], before);
      forall key | key in result ensures Source(g, key, result[key]) {
        if !(key in before && result[key] == before[key]) {
          var c :| c in els[n].fields && key == BuildInstanceId(c, Some(els[n].index)) &&
              result[key] == els[n].fields[c];
          assert InArray(g, p, n, c);
        }
      }
    }
  }

  method FlattenGroupedAnswers(g: map<string, Entry>) returns (flat: map<string, Entry>)
    ensures IsFlattening(g, flat)
  {
    flat := map[];
    var todo := g.Keys;
    while todo != {}
      invariant todo <= g.Keys
      invariant forall key | key in flat :: Source(g, key, flat[key])
      invariant forall key | key in g && g[key].Leaf? && key !in todo :: key in flat
      invariant forall p, k, c | InArray(g, p, k, c) && p !in todo ::
                  BuildInstanceId(c, Some(g[p].elements[k].index)) in flat
      decreases todo
    {
      var key :| key in todo;
      todo := todo - {key};
      if g[key].Group? {
        flat := FlattenArray(g, key, flat);
      } else {
        flat := flat[key := g[key]];
      }
    }
  }

  // ---- flatten after group ----

  lemma PlaceOfBuilt(tasks: FlatTasks, p: string, i: nat, c: string)
    requires Linked(tasks) && RepeatableChild(tasks, c, p)
    ensures PlaceOf(tasks, BuildInstanceId(c, Some(i))) == InGroup(p, i, c)
  {
    ParseOfBuild(c, Some(i));
    assert RepeatableParent(tasks, c) == Some(p);
  }

  /** A key with a place in a group is the built one exactly when its index is canonical. */
  lemma KeyOfPlace(tasks: FlatTasks, key: string)
    requires Linked(tasks) && PlaceOf(tasks, key).InGroup?
    ensures var at := PlaceOf(tasks, key);
            && RepeatableChild(tasks, at.child, at.group)
            && (key == BuildInstanceId(at.child, Some(at.index)) <==> CanonicalIndex(key))
  {
    BuildOfParse(key);
    var id := ParseInstanceId(key);
    assert RepeatableChild(tasks, id.taskId, RepeatableParent(tasks, id.taskId).value);
  }

  /** The fields of a grouped array, seen through the flat keys they came from. */
  lemma GroupedFieldOrigin(tasks: FlatTasks, flat: map<string, Entry>, existing: set<InstanceId>, g: map<string, Entry>,
                           p: string, k: int, c: string) returns (key: string)
    requires Linked(tasks) && IsGrouping(tasks, flat, existing, g) && (forall x | x in flat :: flat[x].Leaf?)
    requires InArray(g, p, k, c)
    ensures key in flat && PlaceOf(tasks, key) == InGroup(p, g[p].elements[k].index, c)
    ensures g[p].elements[k].fields[c] == flat[key]
  {
    assert Opened(tasks, flat, existing, p);
    var e := g[p].elements[k];
    FieldsAtSorted(g[p].elements, k);
    assert At(g, p, e.index) == Some(e.fields);
    assert CollectsFields(tasks, flat, p, e.index, e.fields);
    key :| key in flat && PlaceOf(tasks, key) == InGroup(p, e.index, c) && e.fields[c] == flat[key];
  }

  /** A flat key with a canonical index contributes to its group and comes back from it. */
  lemma GroupedKeyIsSource(tasks: FlatTasks, flat: map<string, Entry>, existing: set<InstanceId>,
                           g: map<string, Entry>, key: string)
    requires Linked(tasks) && IsGrouping(tasks, flat, existing, g)
    requires key in flat && PlaceOf(tasks, key).InGroup?
    ensures var at := PlaceOf(tasks, key);
            exists v :: Source(g, BuildInstanceId(at.child, Some(at.index)), v)
  {
    var at := PlaceOf(tasks, key);
    assert HasAnswer(tasks, flat, at.group, at.index);
    assert Opened(tasks, flat, existing, at.group);
    assert At(g, at.group, at.index).Some?;
    var els := g[at.group].elements;
    FieldsAtHas(els, at.index);
    var k :| 0 <= k < |els| && els[k].index == at.index;
    FieldsAtSorted(els, k);
    assert at.child in els[k].fields;
    assert InArray(g, at.group, k, at.child);
    assert Source(g, BuildInstanceId(at.child, Some(at.index)), els[k].fields[at.child]);
  }

  ghost predicate Canonical(tasks: FlatTasks, flat: map<string, Entry>)
    requires Linked(tasks)
  {
    forall key | key in flat && PlaceOf(tasks, key).InGroup? :: CanonicalIndex(key)
  }

  ghost predicate PlainAvoidsGroups(tasks: FlatTasks, flat: map<string, Entry>, existing: set<InstanceId>)
    requires Linked(tasks)
  {
    forall key | key in flat && PlaceOf(tasks, key).AsIs? :: !Opened(tasks, flat, existing, key)
  }

  /**
    Where a flat answer ends up: the answer of a child of a repeatable task in the element with its
    index, under the child's id, and with its own value if indices are written canonically; any other
    answer under its own key, unless a group is written there.
   */
  lemma GroupedPlace(tasks: FlatTasks, flat: map<string, Entry>, existing: set<InstanceId>, g: map<string, Entry>,
                     key: string, child: string, index: Option<nat>)
    requires Linked(tasks) && IsGrouping(tasks, flat, existing, g) && key in flat
    requires ParseInstanceId(key) == InstanceId(child, index)
    ensures forall p, i | index == Some(i) && p in tasks && tasks[p].repeatable && child in tasks[p].childrenIds ::
              && IsArray(g, p)
              && FieldsAt(g[p].elements, i).Some? && child in FieldsAt(g[p].elements, i).value
              && (Canonical(tasks, flat) ==> FieldsAt(g[p].elements, i).value[child] == flat[key])
    ensures !Opened(tasks, flat, existing, key)
            && (index.None? || forall p | p in tasks && tasks[p].repeatable :: child !in tasks[p].childrenIds) ==>
              Get(g, key) == Some(flat[key])
  {
    forall p, i | index == Some(i) && p in tasks && tasks[p].repeatable && child in tasks[p].childrenIds
      ensures IsArray(g, p) && FieldsAt(g[p].elements, i).Some? && child in FieldsAt(g[p].elements, i).value
      ensures Canonical(tasks, flat) ==> FieldsAt(g[p].elements, i).value[child] == flat[key] {
      assert RepeatableChild(tasks, child, p);
      assert PlaceOf(tasks, key) == InGroup(p, i, child);
      assert HasAnswer(tasks, flat, p, i) && Opened(tasks, flat, existing, p);
      assert At(g, p, i).Some? && CollectsFields(tasks, flat, p, i, At(g, p, i).value);
      if Canonical(tasks, flat) {
        var k :| k in flat && PlaceOf(tasks, k) == InGroup(p, i, child) && At(g, p, i).value[child] == flat[k];
        BuildOfParse(key);
        BuildOfParse(k);
      }
    }
    if index.None? || forall p | p in tasks && tasks[p].repeatable :: child !in tasks[p].childrenIds {
      assert forall p :: !RepeatableChild(tasks, child, p) || index.None?;
    }
  }

  lemma OriginOfSource(tasks: FlatTasks, flat: map<string, Entry>, existing: set<InstanceId>, g: map<string, Entry>,
                       key: string, v: Entry)
    requires Linked(tasks) && IsGrouping(tasks, flat, existing, g) && (forall x | x in flat :: flat[x].Leaf?)
    requires Source(g, key, v)
    ensures PlaceOf(tasks, key).AsIs? ==> key in flat && v == flat[key] && !Opened(tasks, flat, existing, key)
    ensures PlaceOf(tasks, key).InGroup? ==> CanonicalIndex(key)
    ensures PlaceOf(tasks, key).InGroup? ==> exists x ::
              x in flat && PlaceOf(tasks, x) == PlaceOf(tasks, key) && v == flat[x]
  {
    if key in g && g[key].Leaf? && v == g[key] {
      assert !Opened(tasks, flat, existing, key);
      assert PlaceOf(tasks, key).AsIs?;
    } else {
      var p, k, c :| InArray(g, p, k, c) && key == BuildInstanceId(c, Some(g[p].elements[k].index))
                     && v == g[p].elements[k].fields[c];
      var x := GroupedFieldOrigin(tasks, flat, existing, g, p, k, c);
      KeyOfPlace(tasks, x);
      PlaceOfBuilt(tasks, p, g[p].elements[k].index, c);
      KeyOfPlace(tasks, key);
    }
  }

  /** Two canonical keys with the same place are the same key. */
  lemma SamePlaceSameKey(tasks: FlatTasks, a: string, b: string)
    requires Linked(tasks) && PlaceOf(tasks, a).InGroup? && PlaceOf(tasks, a) == PlaceOf(tasks, b)
    requires CanonicalIndex(a) && CanonicalIndex(b)
    ensures a == b
  {
    KeyOfPlace(tasks, a);
    KeyOfPlace(tasks, b);
  }

  /**
    Flattening what was grouped gives back the flat answers exactly when every grouped key writes
    its index canonically and no plain key is the id of a group that gets written.
   */
  lemma FlattenOfGroup(tasks: FlatTasks, flat: map<string, Entry>, existing: set<InstanceId>,
                       g: map<string, Entry>, out: map<string, Entry>)
    requires Linked(tasks) && (forall x | x in flat :: flat[x].Leaf?)
    requires IsGrouping(tasks, flat, existing, g) && IsFlattening(g, out)
    ensures out == flat <==> Canonical(tasks, flat) && PlainAvoidsGroups(tasks, flat, existing)
  {
    if Canonical(tasks, flat) && PlainAvoidsGroups(tasks, flat, existing) {
      forall key ensures Get(out, key) == Get(flat, key) {
        FlatKeyComesBack(tasks, flat, existing, g, out, key);
      }
      SameLookups(out, flat);
    }
    if out == flat {
      forall key | key in flat ensures PlaceOf(tasks, key).InGroup? ==> CanonicalIndex(key)
                               ensures PlaceOf(tasks, key).AsIs? ==> !Opened(tasks, flat, existing, key) {
        OriginOfSource(tasks, flat, existing, g, key, out[key]);
      }
    }
  }

  lemma FlatKeyComesBack(tasks: FlatTasks, flat: map<string, Entry>, existing: set<InstanceId>,
                         g: map<string, Entry>, out: map<string, Entry>, key: string)
    requires Linked(tasks) && (forall x | x in flat :: flat[x].Leaf?)
    requires IsGrouping(tasks, flat, existing, g) && IsFlattening(g, out)
    requires Canonical(tasks, flat) && PlainAvoidsGroups(tasks, flat, existing)
    ensures Get(out, key) == Get(flat, key)
  {
    if key in out {
      OriginOfSource(tasks, flat, existing, g, key, out[key]);
      if PlaceOf(tasks, key).InGroup? {
        var x :| x in flat && PlaceOf(tasks, x) == PlaceOf(tasks, key) && out[key] == flat[x];
        SamePlaceSameKey(tasks, x, key);
      }
    } else if key in flat {
      if PlaceOf(tasks, key).InGroup? {
        KeyOfPlace(tasks, key);
        GroupedKeyIsSource(tasks, flat, existing, g, key);
      } else {
        assert Source(g, key, flat[key]);
      }
    }
  }

  /** Under these conditions the flat answers are themselves what flattening their groups gives. */
  lemma FlatIsFlattening(tasks: FlatTasks, flat: map<string, Entry>, existing: set<InstanceId>, g: map<string, Entry>)
    requires Linked(tasks) && (forall x | x in flat :: flat[x].Leaf?) && IsGrouping(tasks, flat, existing, g)
    requires Canonical(tasks, flat) && PlainAvoidsGroups(tasks, flat, existing)
    ensures IsFlattening(g, flat)
  {
    forall key, v | Source(g, key, v) ensures key in flat && v == flat[key] {
      OriginOfSource(tasks, flat, existing, g, key, v);
      if PlaceOf(tasks, key).InGroup? {
        var x :| x in flat && PlaceOf(tasks, x) == PlaceOf(tasks, key) && v == flat[x];
        SamePlaceSameKey(tasks, x, key);
      }
    }
    forall key | key in flat ensures Source(g, key, flat[key]) {
      if PlaceOf(tasks, key).InGroup? {
        KeyOfPlace(tasks, key);
        GroupedKeyIsSource(tasks, flat, existing, g, key);
        var v :| Source(g, key, v);
      }
    }
  }

  // ---- group after flatten ----

  /** Grouped answers that fit the definitions: groups under repeatable tasks, fields under their children. */
  ghost predicate Conforms(tasks: FlatTasks, g: map<string, Entry>)
    requires Linked(tasks)
  {
    && (forall k | k in g && g[k].Leaf? :: PlaceOf(tasks, k).AsIs?)
    && (forall p | p in g && g[p].Group? ::
          && p in tasks && tasks[p].repeatable
          && g[p].elements != [] && StrictlySorted(g[p].elements))
    && (forall p, k, c | InArray(g, p, k, c) :: c in tasks[p].childrenIds && g[p].elements[k].fields[c].Leaf?)
  }

  /** The instances that exist are those the arrays list, as far as saving can tell. */
  ghost predicate ListsInstances(tasks: FlatTasks, g: map<string, Entry>, existing: set<InstanceId>, p: string) {
    var indices := if p in tasks && tasks[p].repeatable then IndicesOf(existing, p) else {};
    if IsArray(g, p) then
      && (forall i: nat :: At(g, p, i).Some? <==> i in indices || (At(g, p, i).Some? && At(g, p, i).value != map[]))
      && (|indices| > 1 || exists i: nat :: At(g, p, i).Some? && At(g, p, i).value != map[])
    else
      |indices| <= 1
  }

  lemma ElementAt(g: map<string, Entry>, p: string, i: nat) returns (k: nat)
    requires IsArray(g, p) && StrictlySorted(g[p].elements) && At(g, p, i).Some?
    ensures k < |g[p].elements| && g[p].elements[k] == Element(i, At(g, p, i).value)
  {
    FieldsAtHas(g[p].elements, i);
    k :| 0 <= k < |g[p].elements| && g[p].elements[k].index == i;
    FieldsAtSorted(g[p].elements, k);
  }

  /** The flat keys of a group cell are the built keys of its fields. */
  lemma FlatOfCell(tasks: FlatTasks, g: map<string, Entry>, flat: map<string, Entry>, key: string)
    requires Linked(tasks) && Conforms(tasks, g) && IsFlattening(g, flat)
    requires key in flat
    ensures PlaceOf(tasks, key).AsIs? ==> key in g && g[key].Leaf? && g[key] == flat[key]
    ensures PlaceOf(tasks, key).InGroup? ==>
              var at := PlaceOf(tasks, key);
              At(g, at.group, at.index).Some? && Get(At(g, at.group, at.index).value, at.child) == Some(flat[key])
  {
    assert Source(g, key, flat[key]);
    if key in g && g[key].Leaf? && flat[key] == g[key] {
    } else {
      var p, k, c :| InArray(g, p, k, c) && key == BuildInstanceId(c, Some(g[p].elements[k].index))
                     && flat[key] == g[p].elements[k].fields[c];
      PlaceOfBuilt(tasks, p, g[p].elements[k].index, c);
      FieldsAtSorted(g[p].elements, k);
    }
  }

  lemma CellInFlat(tasks: FlatTasks, g: map<string, Entry>, flat: map<string, Entry>, p: string, i: nat, c: string)
    requires Linked(tasks) && Conforms(tasks, g) && IsFlattening(g, flat)
    requires At(g, p, i).Some? && c in At(g, p, i).value
    ensures var key := BuildInstanceId(c, Some(i));
            key in flat && PlaceOf(tasks, key) == InGroup(p, i, c) && flat[key] == At(g, p, i).value[c]
  {
    var k := ElementAt(g, p, i);
    var key := BuildInstanceId(c, Some(i));
    assert InArray(g, p, k, c);
    assert Source(g, key, g[p].elements[k].fields[c]);
    PlaceOfBuilt(tasks, p, i, c);
    FlatOfCell(tasks, g, flat, key);
  }

  lemma AnswersOfFlat(tasks: FlatTasks, g: map<string, Entry>, flat: map<string, Entry>, p: string, i: nat)
    requires Linked(tasks) && Conforms(tasks, g) && IsFlattening(g, flat)
    ensures HasAnswer(tasks, flat, p, i) <==> At(g, p, i).Some? && At(g, p, i).value != map[]
  {
    if HasAnswer(tasks, flat, p, i) {
      var key :| key in flat && PlaceOf(tasks, key).InGroup? && PlaceOf(tasks, key).group == p &&
          PlaceOf(tasks, key).index == i;
      FlatOfCell(tasks, g, flat, key);
    }
    if At(g, p, i).Some? && At(g, p, i).value != map[] {
      var c :| c in At(g, p, i).value;
      CellInFlat(tasks, g, flat, p, i, c);
    }
  }

  lemma CellRestored(tasks: FlatTasks, g: map<string, Entry>, flat: map<string, Entry>, p: string, i: nat,
                     fields: Fields)
    requires Linked(tasks) && Conforms(tasks, g) && IsFlattening(g, flat)
    requires At(g, p, i).Some? && CollectsFields(tasks, flat, p, i, fields)
    ensures fields == At(g, p, i).value
  {
    var orig := At(g, p, i).value;
    forall c ensures Get(fields, c) == Get(orig, c) {
      if c in fields {
        var key :| key in flat && PlaceOf(tasks, key) == InGroup(p, i, c) && fields[c] == flat[key];
        FlatOfCell(tasks, g, flat, key);
      } else if c in orig {
        CellInFlat(tasks, g, flat, p, i, c);
      }
    }
    SameLookups(fields, orig);
  }

  /** One key of the regrouped answers. */
  lemma KeyRestored(tasks: FlatTasks, g: map<string, Entry>, flat: map<string, Entry>, existing: set<InstanceId>,
                    out: map<string, Entry>, p: string)
    requires Linked(tasks) && Conforms(tasks, g) && IsFlattening(g, flat) && IsGrouping(tasks, flat, existing, out)
    ensures Get(out, p) == Get(g, p) <==> ListsInstances(tasks, g, existing, p)
  {
    forall i: nat ensures HasAnswer(tasks, flat, p, i) <==> At(g, p, i).Some? && At(g, p, i).value != map[] {
      AnswersOfFlat(tasks, g, flat, p, i);
    }
    if Opened(tasks, flat, existing, p) {
      OpenedRestored(tasks, g, flat, existing, out, p);
    } else {
      ClosedRestored(tasks, g, flat, existing, out, p);
    }
  }

  lemma ClosedRestored(tasks: FlatTasks, g: map<string, Entry>, flat: map<string, Entry>, existing: set<InstanceId>,
                       out: map<string, Entry>, p: string)
    requires Linked(tasks) && Conforms(tasks, g) && IsFlattening(g, flat) && IsGrouping(tasks, flat, existing, out)
    requires forall i: nat :: HasAnswer(tasks, flat, p, i) <==> At(g, p, i).Some? && At(g, p, i).value != map[]
    requires !Opened(tasks, flat, existing, p)
    ensures Get(out, p) == Get(g, p) <==> ListsInstances(tasks, g, existing, p)
  {
    if p in flat {
      FlatOfCell(tasks, g, flat, p);
    }
    if p in g && g[p].Leaf? {
      assert Source(g, p, g[p]);
    }
  }

  lemma OpenedRestored(tasks: FlatTasks, g: map<string, Entry>, flat: map<string, Entry>, existing: set<InstanceId>,
                       out: map<string, Entry>, p: string)
    requires Linked(tasks) && Conforms(tasks, g) && IsFlattening(g, flat) && IsGrouping(tasks, flat, existing, out)
    requires forall i: nat :: HasAnswer(tasks, flat, p, i) <==> At(g, p, i).Some? && At(g, p, i).value != map[]
    requires Opened(tasks, flat, existing, p)
    ensures Get(out, p) == Get(g, p) <==> ListsInstances(tasks, g, existing, p)
  {
    assert IsArray(out, p);
    forall i: nat | At(out, p, i).Some? && At(g, p, i).Some? ensures At(out, p, i) == At(g, p, i) {
      CellRestored(tasks, g, flat, p, i, At(out, p, i).value);
    }
    if IsArray(g, p) {
      if ListsInstances(tasks, g, existing, p) {
        forall i: nat ensures FieldsAt(out[p].elements, i) == FieldsAt(g[p].elements, i) {
          assert At(out, p, i) == At(g, p, i);
        }
        SortedExtensional(out[p].elements, g[p].elements);
      }
      if Get(out, p) == Get(g, p) {
        assert forall i: nat :: At(out, p, i) == At(g, p, i);
      }
    }
  }

  /**
    Grouping what was flattened gives back the grouped answers exactly when every array lists the
    existing instances and its answered elements, and no other repeatable task has more than one.
   */
  lemma GroupOfFlatten(tasks: FlatTasks, g: map<string, Entry>, flat: map<string, Entry>, existing: set<InstanceId>,
                       out: map<string, Entry>)
    requires Linked(tasks) && Conforms(tasks, g) && IsFlattening(g, flat) && IsGrouping(tasks, flat, existing, out)
    ensures out == g <==> forall p :: ListsInstances(tasks, g, existing, p)
  {
    forall p ensures Get(out, p) == Get(g, p) <==> ListsInstances(tasks, g, existing, p) {
      KeyRestored(tasks, g, flat, existing, out, p);
    }
    if forall p :: ListsInstances(tasks, g, existing, p) {
      SameLookups(out, g);
    }
  }

  /** Without instances to list: exactly when no element is empty. */
  lemma GroupOfFlattenBare(tasks: FlatTasks, g: map<string, Entry>, flat: map<string, Entry>, out: map<string, Entry>)
    requires Linked(tasks) && Conforms(tasks, g) && IsFlattening(g, flat) && IsGrouping(tasks, flat, {}, out)
    ensures out == g <==> forall p, k | IsArray(g, p) && 0 <= k < |g[p].elements| :: g[p].elements[k].fields != map[]
  {
    GroupOfFlatten(tasks, g, flat, {}, out);
    forall p ensures ListsInstances(tasks, g, {}, p) <==>
                     (IsArray(g, p) ==> forall k | 0 <= k < |g[p].elements| :: g[p].elements[k].fields != map[]) {
      assert IndicesOf({}, p) == {};
      if IsArray(g, p) {
        ListsWithoutInstances(g, p);
      }
    }
    if forall p, k | IsArray(g, p) && 0 <= k < |g[p].elements| :: g[p].elements[k].fields != map[] {
      assert forall p :: ListsInstances(tasks, g, {}, p);
    } else {
      var p, k :| IsArray(g, p) && 0 <= k < |g[p].elements| && g[p].elements[k].fields == map[];
      assert !ListsInstances(tasks, g, {}, p);
    }
  }

  lemma ListsWithoutInstances(g: map<string, Entry>, p: string)
    requires IsArray(g, p) && g[p].elements != [] && StrictlySorted(g[p].elements)
    ensures (forall k | 0 <= k < |g[p].elements| :: g[p].elements[k].fields != map[])
       <==> (forall i: nat :: At(g, p, i).Some? ==> At(g, p, i).value != map[]) &&
            exists i: nat :: At(g, p, i).Some? && At(g, p, i).value != map[]
  {
    var els := g[p].elements;
    forall k | 0 <= k < |els| ensures At(g, p, els[k].index) == Some(els[k].fields) {
      FieldsAtSorted(els, k);
    }
    forall i: nat | At(g, p, i).Some? ensures exists k :: 0 <= k < |els| && els[k] == Element(i, At(g, p, i).value) {
      var k := ElementAt(g, p, i);
    }
    assert At(g, p, els[0].index) == Some(els[0].fields);
  }
}
