/**
  Saving and reloading: which instances a reload recreates from the grouped answers, exactly when
  every outermost repeatable gets its instances back, and what becomes of those nested below it.
 */
module Reload {
  import opened Wrappers
  import opened InstanceIds
  import opened States
  import opened ElementViews
  import opened DiffReplay
  import opened Schema
  import opened Grouping
  import opened Flattening
  import opened Forest
  import opened Growth
  import opened Removal
  import opened TaskStore
  import opened OutermostRuns
  import opened Sync
  import opened Heads

  // ---- The indices that the answers mention ----

  /** Index i of task p occurs in a flat key of one of p's children, or as an element of p's array. */
  ghost predicate Mentioned(tasks: FlatTasks, flat: map<string, Entry>, g: map<string, Entry>, p: string, i: nat)
    requires Linked(tasks)
  {
    HasAnswer(tasks, flat, p, i) || At(g, p, i).Some?
  }

  /** The indices in the flat keys of one child task. */
  method ChildIndices(flat: map<string, Entry>, child: string) returns (r: set<nat>)
    ensures forall i: nat :: i in r <==> exists key :: key in flat && ParseInstanceId(key) == InstanceId(child, Some(i))
  {
    r := {};
    var todo := flat.Keys;
    while todo != {}
      invariant todo <= flat.Keys
      invariant forall i | i in r :: exists key :: key in flat && ParseInstanceId(key) == InstanceId(child, Some(i))
      invariant forall key, i: nat | key in flat && key !in todo &&
                  ParseInstanceId(key) == InstanceId(child, Some(i)) :: i in r
      decreases todo
    {
      var key :| key in todo;
      todo := todo - {key};
      var parsed := ParseInstanceId(key);
      if parsed.taskId == child && parsed.index.Some? {
        r := r + {parsed.index.value};
      }
    }
  }

  /** A key of child c with index i. */
  ghost predicate KeyedAt(flat: map<string, Entry>, children: seq<string>, k: nat, i: nat) {
    exists j, key :: 0 <= j < k <= |children| && key in flat && ParseInstanceId(key) == InstanceId(children[j], Some(i))
  }

  lemma KeyedIsAnswer(tasks: FlatTasks, flat: map<string, Entry>, p: string, i: nat)
    requires Linked(tasks) && p in tasks && tasks[p].repeatable
    ensures KeyedAt(flat, tasks[p].childrenIds, |tasks[p].childrenIds|, i) <==> HasAnswer(tasks, flat, p, i)
  {
    var cs := tasks[p].childrenIds;
    if KeyedAt(flat, cs, |cs|, i) {
      var j, key :| 0 <= j < |cs| && key in flat && ParseInstanceId(key) == InstanceId(cs[j], Some(i));
      assert RepeatableChild(tasks, cs[j], p);
      assert PlaceOf(tasks, key) == InGroup(p, i, cs[j]);
    }
    if HasAnswer(tasks, flat, p, i) {
      var key :| key in flat && PlaceOf(tasks, key).InGroup? && PlaceOf(tasks, key).group == p &&
          PlaceOf(tasks, key).index == i;
      var c := ParseInstanceId(key).taskId;
      assert RepeatableChild(tasks, c, p);
      var j :| 0 <= j < |cs| && cs[j] == c;
    }
  }

  lemma KeyedStep(flat: map<string, Entry>, children: seq<string>, k: nat, i: nat)
    requires k < |children|
    ensures KeyedAt(flat, children, k + 1, i) <==>
            KeyedAt(flat, children, k, i) || exists key ::
                key in flat && ParseInstanceId(key) == InstanceId(children[k], Some(i))
  {
  }

  method CollectIndices(tasks: FlatTasks, flat: map<string, Entry>, g: map<string, Entry>, p: string)
    returns (indices: set<nat>)
    requires Linked(tasks) && p in tasks && tasks[p].repeatable
    ensures forall i: nat :: i in indices <==> Mentioned(tasks, flat, g, p, i)
  {
    indices := {};
    var children := tasks[p].childrenIds;
    for k := 0 to |children|
      invariant forall i: nat :: i in indices <==> KeyedAt(flat, children, k, i)
    {
      var more := ChildIndices(flat, children[k]);
      forall i: nat ensures i in indices + more <==> KeyedAt(flat, children, k + 1, i) {
        KeyedStep(flat, children, k, i);
      }
      indices := indices + more;
    }
    forall i: nat ensures i in indices <==> HasAnswer(tasks, flat, p, i) {
      KeyedIsAnswer(tasks, flat, p, i);
    }
    if p in g && g[p].Group? {
      var els := g[p].elements;
      ghost var answered := indices;
      for k := 0 to |els|
        invariant forall i: nat :: i in indices <==> i in answered || exists j :: 0 <= j < k && els[j].index == i
      {
        indices := indices + {els[k].index};
      }
      forall i: nat ensures At(g, p, i).Some? <==> exists j :: 0 <= j < |els| && els[j].index == i {
        FieldsAtHas(els, i);
      }
    }
  }

  // ---- rebuildRepeatableInstances ----

  /** What a reload makes of a set of mentioned indices: the default instance stays when there are none. */
  function Restored(indices: set<nat>): set<nat> {
    if indices == {} then {0} else indices
  }

  predicate IsLeast(s: set<nat>, i: nat) {
    i in s && forall j | j in s :: i <= j
  }

  lemma {:induction false} Least(s: set<nat>) returns (i: nat)
    requires s != {}
    ensures IsLeast(s, i)
  {
    var x :| x in s;
    var rest := s - {x};
    assert forall j | j in s :: j == x || j in rest;
    if rest == {} {
      i := x;
    } else {
      var m := Least(rest);
      i := if m < x then m else x;
    }
  }

  method Smallest(s: set<nat>) returns (i: nat)
    requires s != {}
    ensures IsLeast(s, i)
  {
    ghost var least := Least(s);
    i :| i in s && forall j | j in s :: i <= j;
  }

  lemma KeptTwice(d: Defs, f: Instances, g: Instances, h: Instances, t: string)
    requires DefsOk(d) && OthersKeptToo(d, f, g, t) && OthersKeptToo(d, g, h, t)
    ensures OthersKeptToo(d, f, h, t)
  {
    forall u | u in d.tasks && Outermost(d, u) && u != t ensures KeptRepeatable(d, f, h, u) {
      assert KeptRepeatable(d, f, g, u) && KeptRepeatable(d, g, h, u);
    }
  }

  /** From f to g the head t has got the instances `more`, and nothing has changed for the outermost tasks. */
  ghost predicate HeadRebuilt(d: Defs, f: Instances, g: Instances, t: string, more: set<nat>)
    requires DefsOk(d)
  {
    && AllListOwn(d, g) && OthersKeptToo(d, f, g, t)
    && Idx(g, t) == Idx(f, t) + more
    && (HandsDown(d, f, t) ==> HandsDown(d, g, t))
  }

  /** t is outermost, and the parent is the bare instance of its parent task, if it has one. */
  predicate BareOutermost(d: Defs, t: string, parent: Option<InstanceId>)
    requires DefsOk(d) && t in d.tasks
  {
    Outermost(d, t) && (parent.Some? ==> parent.value.index.None?)
  }

  ghost predicate TidyKept(d: Defs, f: Instances, g: Instances)
    requires DefsOk(d)
  {
    Tidy(d, f) ==> Tidy(d, g)
  }

  method AddMentioned(store: TaskStore, t: string, parent: Option<InstanceId>, index: nat, ghost start: Instances,
                      ghost more: set<nat>)
    requires store.Ready() && HeadParent(store.d, t, parent) && ParentFits(store.d, InstanceId(t, None), parent)
    requires HeadRebuilt(store.d, start, store.instances, t, more)
    modifies store
    ensures store.Ready() && HeadRebuilt(store.d, start, store.instances, t, more + {index})
    ensures Inst(t, index) !in old(store.instances) && BareOutermost(store.d, t, parent) ==>
              TidyKept(store.d, old(store.instances), store.instances)
  {
    ghost var d, g := store.d, store.instances;
    var id;
    ghost var made;
    id, made := store.AddRepeatableTaskInstance(t, parent, Some(index));
    assert id.value == Inst(t, index);
    if Inst(t, index) !in g && BareOutermost(d, t, parent) && Tidy(d, g) {
      TidyAdd(d, g, store.instances, t, index, parent, made);
    }
    AddHead(d, g, store.instances, t, index, parent, made);
    KeptTwice(d, start, g, store.instances, t);
  }

  lemma NothingRebuilt(d: Defs, f: Instances, t: string)
    requires DefsOk(d) && AllListOwn(d, f)
    ensures HeadRebuilt(d, f, f, t, {})
  {
    forall u | u in d.tasks && Outermost(d, u) && u != t ensures KeptRepeatable(d, f, f, u) {}
  }

  /** The loop over the mentioned indices, in ascending order; index 0 is there already. */
  method AddAllMentioned(store: TaskStore, t: string, parent: Option<InstanceId>, indices: set<nat>)
    requires store.Ready() && HeadParent(store.d, t, parent) && ParentFits(store.d, InstanceId(t, None), parent)
    requires AllListOwn(store.d, store.instances)
    modifies store
    ensures store.Ready() && HeadRebuilt(store.d, old(store.instances), store.instances, t, indices - {0})
    ensures Idx(old(store.instances), t) == {0} && BareOutermost(store.d, t, parent) ==>
              TidyKept(store.d, old(store.instances), store.instances)
  {
    ghost var start := store.instances;
    NothingRebuilt(store.d, start, t);
    var todo := indices;
    ghost var done: set<nat> := {};
    while todo != {}
      invariant store.Ready() && HeadRebuilt(store.d, start, store.instances, t, done)
      invariant todo <= indices && forall i :: i in done <==> i in indices && i !in todo && i != 0
      invariant Idx(start, t) == {0} && BareOutermost(store.d, t, parent) ==>
                  TidyKept(store.d, start, store.instances)
      decreases todo
    {
      var index := Smallest(todo);
      todo := todo - {index};
      if index != 0 {
        IdxHas(store.instances, t, index);
        AddMentioned(store, t, parent, index, start, done);
        done := done + {index};
      }
    }
    assert done == indices - {0};
  }

  /** The body of the loop for one head: from the default instance to the mentioned ones. */
  method RebuildTask(store: TaskStore, t: string, indices: set<nat>)
    requires store.Ready() && Head(store.d, t) && AllListOwn(store.d, store.instances)
    modifies store
    ensures store.Ready() && AllListOwn(store.d, store.instances)
    ensures OthersKeptToo(store.d, old(store.instances), store.instances, t)
    ensures old(Idx(store.instances, t)) == {0} ==> Idx(store.instances, t) == Restored(indices)
    ensures HandsDown(store.d, old(store.instances), t) ==> HandsDown(store.d, store.instances, t)
    ensures old(Idx(store.instances, t)) == {0} && Outermost(store.d, t) ==>
              TidyKept(store.d, old(store.instances), store.instances)
  {
    ghost var start := store.instances;
    var parentId := store.flatTasks[t].parentId;
    AddAllMentioned(store, t, if parentId.Some? then Some(InstanceId(parentId.value, None)) else None, indices);
    if indices != {} && 0 !in indices {
      ghost var g := store.instances;
      RemoveDefault(store, t);
      KeptTwice(store.d, start, g, store.instances, t);
    }
  }

  /** Removing the default instance, if it is there. */
  method RemoveDefault(store: TaskStore, t: string)
    requires store.Ready() && Head(store.d, t) && AllListOwn(store.d, store.instances)
    modifies store
    ensures store.Ready() && AllListOwn(store.d, store.instances)
    ensures OthersKeptToo(store.d, old(store.instances), store.instances, t)
    ensures Idx(store.instances, t) == old(Idx(store.instances, t)) - {0}
    ensures HandsDown(store.d, old(store.instances), t) ==> HandsDown(store.d, store.instances, t)
    ensures TidyKept(store.d, old(store.instances), store.instances)
  {
    ghost var d, g := store.d, store.instances;
    IdxHas(g, t, 0);
    if Inst(t, 0) in g {
      RemoveHead(d, g, t, 0);
      if Tidy(d, g) {
        RemoveTidy(d, g, Inst(t, 0));
      }
    } else {
      assert ReachSet(d, g, Inst(t, 0)) == {};
      PruneNone(g);
      assert forall u | u in d.tasks && Outermost(d, u) :: KeptRepeatable(d, g, g, u);
    }
    store.RemoveRepeatableTaskInstance(InstanceId(t, Some(0)));
  }

  ghost predicate NoneMentioned(tasks: FlatTasks, flat: map<string, Entry>, g: map<string, Entry>, p: string)
    requires Linked(tasks)
  {
    forall i: nat :: !Mentioned(tasks, flat, g, p, i)
  }

  /** Every repeatable that is not a child of a repeatable one is outermost. */
  predicate HeadsOutermost(d: Defs)
    requires DefsOk(d)
  {
    forall t {:trigger Head(d, t)} | t in d.tasks && Head(d, t) :: Outermost(d, t)
  }

  /** p has the instances that the answers mention, or the default one if they mention none. */
  ghost predicate Rebuilt(tasks: FlatTasks, flat: map<string, Entry>, g: map<string, Entry>, f: Instances, p: string)
    requires Linked(tasks)
  {
    forall i: nat :: i in Idx(f, p) <==> Mentioned(tasks, flat, g, p, i) || (i == 0 && NoneMentioned(tasks, flat, g, p))
  }

  lemma RebuiltAfter(tasks: FlatTasks, flat: map<string, Entry>, g: map<string, Entry>, f: Instances, p: string,
                     indices: set<nat>)
    requires Linked(tasks) && Idx(f, p) == Restored(indices)
    requires forall i: nat :: i in indices <==> Mentioned(tasks, flat, g, p, i)
    ensures Rebuilt(tasks, flat, g, f, p)
  {
    if indices != {} {
      var i :| i in indices;
      assert Mentioned(tasks, flat, g, p, i);
    }
  }

  /** The first k tasks of the order are rebuilt, the others have their default instance; all hand their index down. */
  ghost predicate RebuiltUpTo(d: Defs, flat: map<string, Entry>, g: map<string, Entry>, f: Instances,
                              order: seq<string>, k: nat)
    requires DefsOk(d) && k <= |order|
  {
    && AllListOwn(d, f)
    && (forall r {:trigger Rebuilt(d.tasks, flat, g, f, r)} | r in order[..k] && r in d.tasks && Outermost(d, r) ::
          Rebuilt(d.tasks, flat, g, f, r))
    && (forall r {:trigger Idx(f, r)} | r in order[k..] && r in d.tasks && Outermost(d, r) :: Idx(f, r) == {0})
    && (forall r {:trigger HandsDown(d, f, r)} | r in d.tasks && Outermost(d, r) :: HandsDown(d, f, r))
  }

  lemma RebuiltStep(d: Defs, flat: map<string, Entry>, g: map<string, Entry>, f: Instances, h: Instances,
                    order: seq<string>, k: nat)
    requires DefsOk(d) && k < |order| && NoDuplicates(order) && RebuiltUpTo(d, flat, g, f, order, k)
    requires order[k] in d.tasks && AllListOwn(d, h) && OthersKeptToo(d, f, h, order[k])
    requires Outermost(d, order[k]) ==> Rebuilt(d.tasks, flat, g, h, order[k]) && HandsDown(d, h, order[k])
    ensures RebuiltUpTo(d, flat, g, h, order, k + 1)
  {
    var t := order[k];
    assert order[..k + 1] == order[..k] + [t] && order[k..] == [t] + order[k + 1..];
    forall r | r in d.tasks && Outermost(d, r)
      ensures r in order[..k + 1] ==> Rebuilt(d.tasks, flat, g, h, r)
      ensures r in order[k + 1..] ==> Idx(h, r) == {0}
      ensures HandsDown(d, h, r) {
      if r != t {
        assert KeptRepeatable(d, f, h, r) && HandsDown(d, f, r);
        if r in order[..k] {
          assert Rebuilt(d.tasks, flat, g, f, r);
        }
      }
    }
  }

  /**
    rebuildRepeatableInstances, for a store that init has just filled: every outermost repeatable
    gets the instances that the answers mention, and the tasks that get their index from it have
    the same ones. In a form whose repeatables are outermost or children of repeatable ones the forest
    is as tidy as init left it, with every instance below the one instance of its parent task.
   */
  method RebuildRepeatableInstances(store: TaskStore, order: seq<string>, flat: map<string, Entry>,
                                    g: map<string, Entry>)
    requires store.Ready() && Initial(store.d, store.instances)
    requires NoDuplicates(order) && forall t :: t in order <==> t in store.d.tasks
    modifies store
    ensures store.Ready()
    ensures forall r | r in store.d.tasks && Outermost(store.d, r) ::
              Rebuilt(store.d.tasks, flat, g, store.instances, r)
    ensures forall r, c | r in store.d.tasks && Outermost(store.d, r) && c in store.d.tasks && Tracks(store.d, c, r) ::
              Idx(store.instances, c) == Idx(store.instances, r)
    ensures HeadsOutermost(store.d) ==> Tidy(store.d, store.instances)
  {
    ghost var d := store.d;
    InitialTidy(d, store.instances);
    InitialListsOwn(d, store.instances);
    forall r | r in d.tasks && Outermost(d, r) ensures Idx(store.instances, r) == {0} &&
        HandsDown(d, store.instances, r) {
      InitialIdx(d, store.instances, r);
      InitialHandsDown(d, store.instances, r);
    }
    for k := 0 to |order|
      invariant store.Ready() && RebuiltUpTo(d, flat, g, store.instances, order, k)
      invariant HeadsOutermost(d) ==> Tidy(d, store.instances)
    {
      ghost var before := store.instances;
      assert order[k] in order && order[k] in order[k..];
      RebuildIfHead(store, order[k], flat, g);
      RebuiltStep(d, flat, g, before, store.instances, order, k);
    }
    assert order[..|order|] == order;
    forall r, c | r in d.tasks && Outermost(d, r) && c in d.tasks && Tracks(d, c, r)
      ensures Idx(store.instances, c) == Idx(store.instances, r) {
      HandedIdx(d, store.instances, r, c);
    }
  }

  method RebuildIfHead(store: TaskStore, t: string, flat: map<string, Entry>, g: map<string, Entry>)
    requires store.Ready() && t in store.d.tasks && AllListOwn(store.d, store.instances)
    requires Outermost(store.d, t) ==> Idx(store.instances, t) == {0} && HandsDown(store.d, store.instances, t)
    modifies store
    ensures store.Ready() && AllListOwn(store.d, store.instances)
    ensures OthersKeptToo(store.d, old(store.instances), store.instances, t)
    ensures Outermost(store.d, t) ==>
              Rebuilt(store.d.tasks, flat, g, store.instances, t) && HandsDown(store.d, store.instances, t)
    ensures HeadsOutermost(store.d) ==> TidyKept(store.d, old(store.instances), store.instances)
  {
    var tasks := store.flatTasks;
    var parentId := tasks[t].parentId;
    if tasks[t].repeatable && !(parentId.Some? && tasks[parentId.value].repeatable) {
      assert Head(store.d, t);
      var indices := CollectIndices(tasks, flat, g, t);
      RebuildTask(store, t, indices);
      if Outermost(store.d, t) {
        RebuiltAfter(store.d.tasks, flat, g, store.instances, t, indices);
      }
    } else {
      assert forall u | u in store.d.tasks && Outermost(store.d, u) ::
          KeptRepeatable(store.d, store.instances, store.instances, u);
    }
  }

  // ---- Save, then reload ----

  /** An index is mentioned after the round trip exactly when its group was written and it was answered or existed. */
  lemma MentionedAfterSave(tasks: FlatTasks, flat: map<string, Entry>, existing: set<InstanceId>, g: map<string, Entry>,
                           out: map<string, Entry>, r: string, i: nat)
    requires Linked(tasks) && (forall x | x in flat :: flat[x].Leaf?) && r in tasks && tasks[r].repeatable
    requires IsGrouping(tasks, flat, existing, g) && IsFlattening(g, out)
    ensures Mentioned(tasks, out, g, r, i) <==>
            Opened(tasks, flat, existing, r) && (HasAnswer(tasks, flat, r, i) || i in IndicesOf(existing, r))
  {
    if HasAnswer(tasks, out, r, i) {
      var key :| key in out && PlaceOf(tasks, key).InGroup? && PlaceOf(tasks, key).group == r &&
          PlaceOf(tasks, key).index == i;
      assert Source(g, key, out[key]);
      OriginOfSource(tasks, flat, existing, g, key, out[key]);
      assert HasAnswer(tasks, flat, r, i);
    }
    assert !Opened(tasks, flat, existing, r) ==> Get(g, r) == if PlaceOf(tasks, r).AsIs? then Get(flat, r) else None;
  }

  /**
    The instances of r come back: its answers belong to instances, and saving has something to tell
    them from the default by.
   */
  ghost predicate ComesBack(tasks: FlatTasks, flat: map<string, Entry>, existing: set<InstanceId>, r: string)
    requires Linked(tasks)
  {
    var indices := IndicesOf(existing, r);
    && (forall i: nat | HasAnswer(tasks, flat, r, i) :: i in indices)
    && (indices == {0} || |indices| > 1 || exists i: nat :: HasAnswer(tasks, flat, r, i))
  }

  /**
    A reload gives r its old indices exactly when ComesBack holds: gaps and empty instances
    survive, an empty index set and a lone unanswered instance other than 0 do not.
   */
  lemma ReloadIff(tasks: FlatTasks, flat: map<string, Entry>, existing: set<InstanceId>, g: map<string, Entry>,
                  out: map<string, Entry>, f: Instances, r: string)
    requires Linked(tasks) && (forall x | x in flat :: flat[x].Leaf?) && r in tasks && tasks[r].repeatable
    requires IsGrouping(tasks, flat, existing, g) && IsFlattening(g, out) && Rebuilt(tasks, out, g, f, r)
    ensures Idx(f, r) == IndicesOf(existing, r) <==> ComesBack(tasks, flat, existing, r)
  {
    var indices := IndicesOf(existing, r);
    forall i: nat ensures Mentioned(tasks, out, g, r, i) <==>
                          Opened(tasks, flat, existing, r) && (HasAnswer(tasks, flat, r, i) || i in indices) {
      MentionedAfterSave(tasks, flat, existing, g, out, r, i);
    }
    if Opened(tasks, flat, existing, r) {
      ReloadOpened(tasks, flat, existing, g, out, f, r);
    } else {
      ReloadClosed(tasks, flat, existing, g, out, f, r);
    }
  }

  lemma ReloadOpened(tasks: FlatTasks, flat: map<string, Entry>, existing: set<InstanceId>, g: map<string, Entry>,
                     out: map<string, Entry>, f: Instances, r: string)
    requires Linked(tasks) && Opened(tasks, flat, existing, r) && Rebuilt(tasks, out, g, f, r)
    requires forall i: nat :: Mentioned(tasks, out, g, r, i) <==>
               HasAnswer(tasks, flat, r, i) || i in IndicesOf(existing, r)
    ensures Idx(f, r) == IndicesOf(existing, r) <==> ComesBack(tasks, flat, existing, r)
  {
    var indices := IndicesOf(existing, r);
    assert !NoneMentioned(tasks, out, g, r) by {
      if |indices| > 1 {
        var i :| i in indices;
        assert Mentioned(tasks, out, g, r, i);
      } else {
        var i: nat :| HasAnswer(tasks, flat, r, i);
        assert Mentioned(tasks, out, g, r, i);
      }
    }
    assert forall i: nat :: i in Idx(f, r) <==> HasAnswer(tasks, flat, r, i) || i in indices;
  }

  lemma ReloadClosed(tasks: FlatTasks, flat: map<string, Entry>, existing: set<InstanceId>, g: map<string, Entry>,
                     out: map<string, Entry>, f: Instances, r: string)
    requires Linked(tasks) && !Opened(tasks, flat, existing, r) && Rebuilt(tasks, out, g, f, r) && r in tasks &&
               tasks[r].repeatable
    requires forall i: nat :: !Mentioned(tasks, out, g, r, i)
    ensures Idx(f, r) == IndicesOf(existing, r) <==> ComesBack(tasks, flat, existing, r)
  {
    assert NoneMentioned(tasks, out, g, r);
    assert Idx(f, r) == {0};
  }

  lemma ReloadAll(d: Defs, flat: map<string, Entry>, f: Instances, g: map<string, Entry>, out: map<string, Entry>,
                  h: Instances)
    requires DefsOk(d) && forall x | x in flat :: flat[x].Leaf?
    requires IsGrouping(d.tasks, flat, f.Keys, g) && IsFlattening(g, out)
    requires forall r | r in d.tasks && Outermost(d, r) :: Rebuilt(d.tasks, out, g, h, r)
    ensures forall r | r in d.tasks && Outermost(d, r) :: Idx(h, r) == Idx(f, r) <==>
              ComesBack(d.tasks, flat, f.Keys, r)
  {
    forall r | r in d.tasks && Outermost(d, r) ensures Idx(h, r) == Idx(f, r) <==> ComesBack(d.tasks, flat, f.Keys, r) {
      ReloadIff(d.tasks, flat, f.Keys, g, out, h, r);
      assert IndicesOf(f.Keys, r) == Idx(f, r);
    }
  }

  /**
    Grouping for the save, then a new session: init, flatten, rebuild. Instances nested below a
    repeatable one that get their index from it come back with it, and with no others: one that
    the user added on its own is lost unless its index happens to be one of the outer ones.
   */
  method SaveAndReload(store: TaskStore, order: seq<string>, flat: map<string, Entry>)
    returns (reloaded: TaskStore, g: map<string, Entry>, out: map<string, Entry>)
    requires store.Ready() && RootsListed(store.d, store.rootTaskIds) && forall x | x in flat :: flat[x].Leaf?
    requires NoDuplicates(order) && forall t :: t in order <==> t in store.d.tasks
    ensures reloaded.Ready() && reloaded.d == store.d
    ensures out == flat <==>
              Canonical(store.d.tasks, flat) && PlainAvoidsGroups(store.d.tasks, flat, store.instances.Keys)
    ensures forall r | r in store.d.tasks && Outermost(store.d, r) ::
              Idx(reloaded.instances, r) == Idx(store.instances, r) <==>
                  ComesBack(store.d.tasks, flat, store.instances.Keys, r)
    ensures forall r, c | r in store.d.tasks && Outermost(store.d, r) && c in store.d.tasks && Tracks(store.d, c, r) ::
              Idx(reloaded.instances, c) == Idx(reloaded.instances, r)
    ensures HeadsOutermost(store.d) ==> Tidy(store.d, reloaded.instances)
  {
    ghost var d := store.d;
    g := GroupAnswers(flat, store.flatTasks, store.instances.Keys);
    reloaded := new TaskStore(store.flatTasks, store.rootTaskIds, store.d);
    reloaded.CreateDefaultInstances();
    out := FlattenGroupedAnswers(g);
    FlattenOfGroup(d.tasks, flat, store.instances.Keys, g, out);
    RebuildRepeatableInstances(reloaded, order, out, g);
    ReloadAll(d, flat, store.instances, g, out, reloaded.instances);
  }
}
