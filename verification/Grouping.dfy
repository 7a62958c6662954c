/**
  Flat answers, keyed by instance id, and grouped answers, where the children of a repeatable
  task are collected per index: the two loops that convert between them, and how far they
  undo each other.
 */
module Grouping {
  import opened Wrappers
  import opened InstanceIds
  import opened States
  import opened Replay
  import opened ElementViews
  import opened DiffReplay
  import opened Schema

  /** Where groupAnswers puts a flat key: field `child` of element `index` of a group, or unchanged. */
  datatype Place = InGroup(group: string, index: nat, child: string) | AsIs

  function PlaceOf(tasks: FlatTasks, key: string): Place
    requires Linked(tasks)
  {
    var id := ParseInstanceId(key);
    var parent := RepeatableParent(tasks, id.taskId);
    if id.index.Some? && parent.Some? then InGroup(parent.value, id.index.value, id.taskId) else AsIs
  }

  function IndicesOf(existing: set<InstanceId>, taskId: string): set<nat> {
    set id | id in existing && id.taskId == taskId && id.index.Some? :: id.index.value
  }

  /** Some flat key goes into group p at index i. */
  ghost predicate HasAnswer(tasks: FlatTasks, flat: map<string, Entry>, p: string, i: nat)
    requires Linked(tasks)
  {
    exists key :: key in flat && PlaceOf(tasks, key).InGroup? && PlaceOf(tasks, key).group == p &&
        PlaceOf(tasks, key).index == i
  }

  /** groupAnswers writes an array at p: for an answer, or for more than one existing instance. */
  ghost predicate Opened(tasks: FlatTasks, flat: map<string, Entry>, existing: set<InstanceId>, p: string)
    requires Linked(tasks)
  {
    || (exists i: nat :: HasAnswer(tasks, flat, p, i))
    || (p in tasks && tasks[p].repeatable && |IndicesOf(existing, p)| > 1)
  }

  /** The fields of element i of group p: one per child with an answer there. */
  ghost predicate CollectsFields(tasks: FlatTasks, flat: map<string, Entry>, p: string, i: nat, fields: Fields)
    requires Linked(tasks)
  {
    && (forall c | c in fields :: exists key ::
          key in flat && PlaceOf(tasks, key) == InGroup(p, i, c) && fields[c] == flat[key])
    && (forall key | key in flat && PlaceOf(tasks, key).InGroup? && PlaceOf(tasks, key).group == p &&
        PlaceOf(tasks, key).index == i ::
          PlaceOf(tasks, key).child in fields)
  }

  /** What groupAnswers promises of its result; which of two keys for the same field wins is left open. */
  ghost predicate IsGrouping(tasks: FlatTasks, flat: map<string, Entry>, existing: set<InstanceId>,
                             g: map<string, Entry>)
    requires Linked(tasks)
  {
    && (forall k | !Opened(tasks, flat, existing, k) ::
          Get(g, k) == if PlaceOf(tasks, k).AsIs? then Get(flat, k) else None)
    && (forall p | Opened(tasks, flat, existing, p) :: IsArray(g, p) && StrictlySorted(g[p].elements))
    && (forall p, i: nat | Opened(tasks, flat, existing, p) ::
          && (At(g, p, i).Some? <==>
                HasAnswer(tasks, flat, p, i) || (i in IndicesOf(existing, p) && p in tasks && tasks[p].repeatable))
          && (At(g, p, i).Some? ==> CollectsFields(tasks, flat, p, i, At(g, p, i).value)))
  }

  // ---- groupAnswers ----

  type Groups = map<string, map<nat, Fields>>

  function CellAt(groups: Groups, p: string, i: nat): Option<Fields> {
    if p in groups && i in groups[p] then Some(groups[p][i]) else None
  }

  /** The groups collected so far, from the flat keys seen so far. */
  ghost predicate Collected(tasks: FlatTasks, seen: map<string, Entry>, groups: Groups)
    requires Linked(tasks)
  {
    && (forall p | p in groups :: groups[p] != map[])
    && (forall p, i: nat :: CellAt(groups, p, i).Some? <==> HasAnswer(tasks, seen, p, i))
    && (forall p, i: nat | CellAt(groups, p, i).Some? :: CollectsFields(tasks, seen, p, i, CellAt(groups, p, i).value))
  }

  function AddToGroup(groups: Groups, p: string, i: nat, c: string, v: Entry): Groups {
    var byIndex := if p in groups then groups[p] else map[];
    var fields := if i in byIndex then byIndex[i] else map[];
    groups[p := byIndex[i := fields[c := v]]]
  }

  lemma AddToGroupView(groups: Groups, p: string, i: nat, c: string, v: Entry, q: string, j: nat)
    ensures CellAt(AddToGroup(groups, p, i, c, v), q, j)
         == if q == p && j == i then Some(CellAt(groups, p, i).GetOr(map[])[c := v]) else CellAt(groups, q, j)
  {
  }

  lemma HasAnswerStep(tasks: FlatTasks, seen: map<string, Entry>, key: string, v: Entry, p: string, i: nat)
    requires Linked(tasks) && key !in seen
    ensures HasAnswer(tasks, seen[key := v], p, i)
       <==> HasAnswer(tasks, seen, p, i) || (PlaceOf(tasks, key).InGroup? && PlaceOf(tasks, key).group == p &&
                                             PlaceOf(tasks, key).index == i)
  {
    var seen' := seen[key := v];
    if HasAnswer(tasks, seen, p, i) {
      var k :| k in seen && PlaceOf(tasks, k).InGroup? && PlaceOf(tasks, k).group == p && PlaceOf(tasks, k).index == i;
      assert k in seen';
    }
    assert key in seen';
  }

  lemma CollectElsewhere(tasks: FlatTasks, seen: map<string, Entry>, key: string, v: Entry, p: string, i: nat,
                         fields: Fields)
    requires Linked(tasks) && key !in seen && CollectsFields(tasks, seen, p, i, fields)
    requires PlaceOf(tasks, key).InGroup? ==> PlaceOf(tasks, key).group != p || PlaceOf(tasks, key).index != i
    ensures CollectsFields(tasks, seen[key := v], p, i, fields)
  {
    forall c | c in fields
      ensures exists k :: k in seen[key := v] && PlaceOf(tasks, k) == InGroup(p, i, c) &&
                fields[c] == seen[key := v][k] {
      var k :| k in seen && PlaceOf(tasks, k) == InGroup(p, i, c) && fields[c] == seen[k];
      assert k in seen[key := v];
    }
  }

  lemma CollectHere(tasks: FlatTasks, seen: map<string, Entry>, key: string, v: Entry, fields: Fields)
    requires Linked(tasks) && key !in seen && PlaceOf(tasks, key).InGroup?
    requires var at := PlaceOf(tasks, key);
             CollectsFields(tasks, seen, at.group, at.index, fields)
             || (fields == map[] && !HasAnswer(tasks, seen, at.group, at.index))
    ensures var at := PlaceOf(tasks, key);
            CollectsFields(tasks, seen[key := v], at.group, at.index, fields[at.child := v])
  {
    var at := PlaceOf(tasks, key);
    var fields', seen' := fields[at.child := v], seen[key := v];
    forall c | c in fields'
      ensures exists k :: k in seen' && PlaceOf(tasks, k) == InGroup(at.group, at.index, c) && fields'[c] == seen'[k] {
      if c == at.child {
        assert key in seen';
      } else {
        var k :| k in seen && PlaceOf(tasks, k) == InGroup(at.group, at.index, c) && fields[c] == seen[k];
        assert k in seen';
      }
    }
  }

  lemma CollectStep(tasks: FlatTasks, seen: map<string, Entry>, key: string, v: Entry, groups: Groups)
    requires Linked(tasks) && key !in seen && Collected(tasks, seen, groups) && PlaceOf(tasks, key).InGroup?
    ensures var at := PlaceOf(tasks, key);
            Collected(tasks, seen[key := v], AddToGroup(groups, at.group, at.index, at.child, v))
  {
    var at := PlaceOf(tasks, key);
    var groups' := AddToGroup(groups, at.group, at.index, at.child, v);
    forall p, i: nat ensures CellAt(groups', p, i).Some? <==> HasAnswer(tasks, seen[key := v], p, i) {
      AddToGroupView(groups, at.group, at.index, at.child, v, p, i);
      HasAnswerStep(tasks, seen, key, v, p, i);
    }
    forall p, i: nat | CellAt(groups', p, i).Some?
      ensures CollectsFields(tasks, seen[key := v], p, i, CellAt(groups', p, i).value) {
      AddToGroupView(groups, at.group, at.index, at.child, v, p, i);
      if p == at.group && i == at.index {
        CollectHere(tasks, seen, key, v, CellAt(groups, p, i).GetOr(map[]));
      } else {
        CollectElsewhere(tasks, seen, key, v, p, i, CellAt(groups, p, i).value);
      }
    }
  }

  lemma CollectSkip(tasks: FlatTasks, seen: map<string, Entry>, key: string, v: Entry, groups: Groups)
    requires Linked(tasks) && key !in seen && Collected(tasks, seen, groups) && PlaceOf(tasks, key).AsIs?
    ensures Collected(tasks, seen[key := v], groups)
  {
    forall p, i: nat ensures CellAt(groups, p, i).Some? <==> HasAnswer(tasks, seen[key := v], p, i) {
      HasAnswerStep(tasks, seen, key, v, p, i);
    }
    forall p, i: nat | CellAt(groups, p, i).Some?
      ensures CollectsFields(tasks, seen[key := v], p, i, CellAt(groups, p, i).value) {
      CollectElsewhere(tasks, seen, key, v, p, i, CellAt(groups, p, i).value);
    }
  }

  /** First pass: every answer either joins its group or passes through. */
  method CollectAnswers(flat: map<string, Entry>, tasks: FlatTasks) returns (groups: Groups, result: map<string, Entry>)
    requires Linked(tasks)
    ensures Collected(tasks, flat, groups)
    ensures forall k :: Get(result, k) == if PlaceOf(tasks, k).AsIs? then Get(flat, k) else None
  {
    groups, result := map[], map[];
    var todo := flat.Keys;
    ghost var seen: map<string, Entry> := map[];
    while todo != {}
      invariant todo <= flat.Keys
      invariant forall k :: Get(seen, k) == if k in todo then None else Get(flat, k)
      invariant Collected(tasks, seen, groups)
      invariant forall k :: Get(result, k) == if PlaceOf(tasks, k).AsIs? then Get(seen, k) else None
      decreases todo
    {
      var key :| key in todo;
      todo := todo - {key};
      var at := PlaceOf(tasks, key);
      assert key !in seen by {
        assert Get(seen, key) == None;
      }
      match at {
        case InGroup(p, i, c) =>
          CollectStep(tasks, seen, key, flat[key], groups);
          groups := AddToGroup(groups, p, i, c, flat[key]);
        case AsIs =>
          CollectSkip(tasks, seen, key, flat[key], groups);
          result := result[key := flat[key]];
      }
      seen := seen[key := flat[key]];
    }
    SameLookups(seen, flat);
  }

  /** Second pass, for one task: its existing instances get an element even without answers. */
  function WithInstances(byIndex: map<nat, Fields>, indices: set<nat>): map<nat, Fields> {
    map i | i in byIndex.Keys + indices :: if i in byIndex then byIndex[i] else map[]
  }

  predicate Widens(tasks: FlatTasks, groups: Groups, existing: set<InstanceId>, t: string) {
    t in tasks && tasks[t].repeatable && (|IndicesOf(existing, t)| > 1 || t in groups)
  }

  function Widened(tasks: FlatTasks, groups: Groups, existing: set<InstanceId>, t: string): Option<map<nat, Fields>> {
    if Widens(tasks, groups, existing, t)
    then Some(WithInstances(if t in groups then groups[t] else map[], IndicesOf(existing, t)))
    else Get(groups, t)
  }

  method AddInstances(groups: Groups, tasks: FlatTasks, existing: set<InstanceId>) returns (wider: Groups)
    ensures forall t :: Get(wider, t) == Widened(tasks, groups, existing, t)
  {
    wider := groups;
    var todo := tasks.Keys;
    while todo != {}
      invariant forall t :: Get(wider, t) == if t in todo then Get(groups, t) else Widened(tasks, groups, existing, t)
      decreases todo
    {
      var taskId :| taskId in todo;
      todo := todo - {taskId};
      if tasks[taskId].repeatable {
        var existingIndices := IndicesOf(existing, taskId);
        assert Get(wider, taskId) == Get(groups, taskId);
        if !(|existingIndices| <= 1 && taskId !in wider) {
          var byIndex := if taskId in wider then wider[taskId] else map[];
          wider := wider[taskId := WithInstances(byIndex, existingIndices)];
        }
      }
    }
  }

  // ---- Sorting the collected elements ----

  predicate DistinctIndices(els: seq<Element>) {
    forall i, j | 0 <= i < j < |els| :: els[i].index != els[j].index
  }

  lemma {:induction false} SortView(els: seq<Element>)
    requires DistinctIndices(els)
    ensures StrictlySorted(SortByIndex(els)) && |SortByIndex(els)| == |els|
    ensures forall j: nat :: FieldsAt(SortByIndex(els), j) == FieldsAt(els, j)
  {
    if els != [] {
      var front, e := els[..|els| - 1], els[|els| - 1];
      SortView(front);
      FieldsAtHas(front, e.index);
      InsertStableView(SortByIndex(front), e);
    }
  }

  lemma AppendView(els: seq<Element>, e: Element, i: nat)
    ensures FieldsAt(els + [e], i) == if i == e.index then Some(e.fields) else FieldsAt(els, i)
  {
    assert (els + [e])[..|els|] == els;
  }

  /** Array.from over the Map's values, in whatever order the Map holds them. */
  method ListElements(byIndex: map<nat, Fields>) returns (els: seq<Element>)
    ensures DistinctIndices(els)
    ensures forall i: nat :: FieldsAt(els, i) == Get(byIndex, i)
  {
    els := [];
    var todo := byIndex.Keys;
    while todo != {}
      invariant todo <= byIndex.Keys
      invariant DistinctIndices(els)
      invariant forall k | 0 <= k < |els| :: els[k].index !in todo
      invariant forall i: nat :: FieldsAt(els, i) == if i in todo then None else Get(byIndex, i)
      decreases todo
    {
      var i: nat :| i in todo;
      todo := todo - {i};
      forall j: nat ensures FieldsAt(els + [Element(i, byIndex[i])], j) == if j == i then Some(byIndex[i])
          else FieldsAt(els, j) {
        AppendView(els, Element(i, byIndex[i]), j);
      }
      els := els + [Element(i, byIndex[i])];
    }
  }

  /** The elements of one group, sorted by index. */
  method SortedElements(byIndex: map<nat, Fields>) returns (els: seq<Element>)
    requires byIndex != map[]
    ensures StrictlySorted(els) && els != []
    ensures forall i: nat :: FieldsAt(els, i) == Get(byIndex, i)
  {
    els := ListElements(byIndex);
    SortView(els);
    els := SortByIndex(els);
    var i: nat :| i in byIndex;
    assert FieldsAt(els, i) == Get(byIndex, i);
  }

  /** Third pass: every group becomes a sorted array, in place of whatever passed through under its key. */
  method WriteGroups(groups: Groups, plain: map<string, Entry>) returns (result: map<string, Entry>)
    requires forall p | p in groups :: groups[p] != map[]
    ensures forall k | k !in groups :: Get(result, k) == Get(plain, k)
    ensures forall p | p in groups :: IsArray(result, p) && result[p].elements != [] &&
              StrictlySorted(result[p].elements)
    ensures forall p, i: nat | p in groups :: At(result, p, i) == CellAt(groups, p, i)
  {
    result := plain;
    var todo := groups.Keys;
    while todo != {}
      invariant todo <= groups.Keys
      invariant forall k | k !in groups || k in todo :: Get(result, k) == Get(plain, k)
      invariant forall p | p in groups && p !in todo ::
                  IsArray(result, p) && result[p].elements != [] && StrictlySorted(result[p].elements)
      invariant forall p, i: nat | p in groups && p !in todo :: At(result, p, i) == CellAt(groups, p, i)
      decreases todo
    {
      var p :| p in todo;
      todo := todo - {p};
      var els := SortedElements(groups[p]);
      ghost var before := result;
      result := result[p := Group(els)];
      assert forall q, i: nat | q in groups && q !in todo && q != p :: At(result, q, i) == At(before, q, i);
    }
  }

  method GroupAnswers(flat: map<string, Entry>, tasks: FlatTasks, existing: set<InstanceId>)
    returns (g: map<string, Entry>)
    requires Linked(tasks)
    ensures IsGrouping(tasks, flat, existing, g)
  {
    var groups, plain := CollectAnswers(flat, tasks);
    var wider := AddInstances(groups, tasks, existing);
    WidenedIsOpened(tasks, flat, existing, groups, wider);
    g := WriteGroups(wider, plain);
    forall k | !Opened(tasks, flat, existing, k)
      ensures Get(g, k) == if PlaceOf(tasks, k).AsIs? then Get(flat, k) else None {
      assert k !in wider;
    }
  }

  /** The widened groups are those that groupAnswers opens, with an element per answer and per instance. */
  lemma WidenedIsOpened(tasks: FlatTasks, flat: map<string, Entry>, existing: set<InstanceId>, groups: Groups,
                        wider: Groups)
    requires Linked(tasks) && Collected(tasks, flat, groups)
    requires forall t :: Get(wider, t) == Widened(tasks, groups, existing, t)
    ensures forall p :: p in wider <==> Opened(tasks, flat, existing, p)
    ensures forall p | p in wider :: wider[p] != map[]
    ensures forall p, i: nat | p in wider ::
              && (CellAt(wider, p, i).Some? <==>
                    HasAnswer(tasks, flat, p, i) || (i in IndicesOf(existing, p) && p in tasks && tasks[p].repeatable))
              && (CellAt(wider, p, i).Some? ==> CollectsFields(tasks, flat, p, i, CellAt(wider, p, i).value))
  {
    forall p ensures p in wider <==> Opened(tasks, flat, existing, p)
             ensures p in wider ==> wider[p] != map[] {
      assert Get(wider, p) == Widened(tasks, groups, existing, p);
      WidenedKey(tasks, flat, existing, groups, p);
    }
    forall p, i: nat | p in wider
      ensures CellAt(wider, p, i).Some? <==>
                HasAnswer(tasks, flat, p, i) || (i in IndicesOf(existing, p) && p in tasks && tasks[p].repeatable)
      ensures CellAt(wider, p, i).Some? ==> CollectsFields(tasks, flat, p, i, CellAt(wider, p, i).value) {
      assert Get(wider, p) == Widened(tasks, groups, existing, p);
      WidenedCell(tasks, flat, existing, groups, p, i);
    }
  }

  lemma WidenedKey(tasks: FlatTasks, flat: map<string, Entry>, existing: set<InstanceId>, groups: Groups, p: string)
    requires Linked(tasks) && Collected(tasks, flat, groups)
    ensures Widened(tasks, groups, existing, p).Some? <==> Opened(tasks, flat, existing, p)
    ensures Widened(tasks, groups, existing, p) != Some(map[])
  {
    if p in groups {
      var i :| i in groups[p];
      assert CellAt(groups, p, i).Some?;
      assert HasAnswer(tasks, flat, p, i);
      assert Widened(tasks, groups, existing, p).Some? && i in Widened(tasks, groups, existing, p).value;
    } else {
      forall i: nat ensures !HasAnswer(tasks, flat, p, i) {
        assert CellAt(groups, p, i).None?;
      }
      if Widens(tasks, groups, existing, p) {
        var i :| i in IndicesOf(existing, p);
        assert i in Widened(tasks, groups, existing, p).value;
      }
    }
  }

  lemma WidenedCell(tasks: FlatTasks, flat: map<string, Entry>, existing: set<InstanceId>, groups: Groups, p: string,
                    i: nat)
    requires Linked(tasks) && Collected(tasks, flat, groups)
    requires Widened(tasks, groups, existing, p).Some?
    ensures var byIndex := Widened(tasks, groups, existing, p).value;
            && (i in byIndex <==>
                  HasAnswer(tasks, flat, p, i) || (i in IndicesOf(existing, p) && p in tasks && tasks[p].repeatable))
            && (i in byIndex ==> CollectsFields(tasks, flat, p, i, byIndex[i]))
  {
    GroupIsRepeatable(tasks, flat, p, i);
    assert CellAt(groups, p, i).Some? <==> HasAnswer(tasks, flat, p, i);
    if p in groups {
      var j :| j in groups[p];
      assert CellAt(groups, p, j).Some?;
      GroupIsRepeatable(tasks, flat, p, j);
    }
    if CellAt(groups, p, i).None? {
      assert CollectsFields(tasks, flat, p, i, map[]);
    }
  }

  lemma GroupIsRepeatable(tasks: FlatTasks, flat: map<string, Entry>, p: string, i: nat)
    requires Linked(tasks)
    ensures HasAnswer(tasks, flat, p, i) ==> p in tasks && tasks[p].repeatable
  {
    if HasAnswer(tasks, flat, p, i) {
      var key :| key in flat && PlaceOf(tasks, key).InGroup? && PlaceOf(tasks, key).group == p &&
          PlaceOf(tasks, key).index == i;
      assert RepeatableChild(tasks, ParseInstanceId(key).taskId, p);
    }
  }
}
