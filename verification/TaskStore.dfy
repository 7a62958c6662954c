/** The task store: creating and removing instances, with the instance map updated in place. */
module TaskStore {
  import opened Wrappers
  import opened InstanceIds
  import opened Schema
  import opened Forest
  import opened Growth
  import opened Removal

  // ---- Initialising ----

  predicate IsRoot(d: Defs, t: string) {
    t in d.tasks && d.tasks[t].parentId.None?
  }

  predicate RootsListed(d: Defs, roots: seq<string>) {
    && (forall t | t in roots :: IsRoot(d, t))
    && (forall t | t in d.tasks && IsRoot(d, t) :: t in roots)
    && NoDuplicates(roots)
  }

  predicate BelowSome(d: Defs, t: string, roots: seq<string>)
    requires DefsOk(d) && t in d.tasks
  {
    exists j :: 0 <= j < |roots| && BelowTask(d, t, roots[j])
  }

  /** The instance that init creates for the task. */
  function DefaultId(d: Defs, t: string): InstanceId {
    InstanceId(t, if t in d.under then Some(0) else None)
  }

  predicate NodeStarted(d: Defs, f: Instances, x: InstanceId)
    requires x in f
  {
    x.taskId in d.tasks && OfTasks(f[x].children, d.tasks[x.taskId].childrenIds) && f[x].mappedFrom.None?
  }

  /** The default instances of the tasks below the roots in `done` exist, with all their children, and nothing else. */
  ghost predicate Started(d: Defs, f: Instances, done: seq<string>)
    requires DefsOk(d)
  {
    && Sound(d, f)
    && (forall x :: x in f <==> x.taskId in d.tasks && BelowSome(d, x.taskId, done) && x == DefaultId(d, x.taskId))
    && (forall x {:trigger NodeStarted(d, f, x)} | x in f :: NodeStarted(d, f, x))
    && (forall x {:trigger StartsGroup(f, x)} :: !StartsGroup(f, x))
  }

  predicate NextRoot(d: Defs, done: seq<string>, t: string) {
    IsRoot(d, t) && t !in done && forall j | 0 <= j < |done| :: IsRoot(d, done[j])
  }

  lemma NothingBelowYet(d: Defs, f: Instances, done: seq<string>, t: string, x: InstanceId)
    requires DefsOk(d) && Started(d, f, done) && NextRoot(d, done, t) && x in f
    ensures x.taskId in d.tasks && !BelowTask(d, x.taskId, t)
  {
    var j :| 0 <= j < |done| && BelowTask(d, x.taskId, done[j]);
    if BelowTask(d, x.taskId, t) {
      SiblingsApart(d, x.taskId, done[j], t);
    }
  }

  lemma NoIndexYet(d: Defs, f: Instances, done: seq<string>, root: string, t: string)
    requires DefsOk(d) && Started(d, f, done) && NextRoot(d, done, root)
    requires t in d.tasks && BelowTask(d, t, root)
    ensures Idx(f, t) == {}
  {
    forall i: nat ensures i !in Idx(f, t) {
      IdxHas(f, t, i);
      if InstanceId(t, Some(i)) in f {
        NothingBelowYet(d, f, done, root, InstanceId(t, Some(i)));
      }
    }
  }

  /** Where no task has an instance yet, the chosen ids are the default ones. */
  lemma {:induction false} ChosenIsDefault(d: Defs, f: Instances, done: seq<string>, id: InstanceId, u: string)
    requires DefsOk(d) && Started(d, f, done) && NextRoot(d, done, id.taskId) && id == DefaultId(d, id.taskId)
    requires u in d.tasks && BelowTask(d, u, id.taskId)
    ensures ChosenId(d, f, id, u) == DefaultId(d, u)
    decreases d.depth[u]
  {
    if u != id.taskId {
      ChosenIsDefault(d, f, done, id, d.tasks[u].parentId.value);
      NoIndexYet(d, f, done, id.taskId, u);
    }
  }

  lemma MadeIsDefault(d: Defs, f: Instances, g: Instances, done: seq<string>, id: InstanceId, made: set<InstanceId>,
                      x: InstanceId)
    requires DefsOk(d) && Started(d, f, done) && NextRoot(d, done, id.taskId) && id == DefaultId(d, id.taskId)
    requires Planted(d, f, g, id, None, made)
    ensures x in made <==> x.taskId in d.tasks && BelowTask(d, x.taskId, id.taskId) && x == DefaultId(d, x.taskId)
    ensures x in made ==> x !in f
  {
    if x in made {
      MadeIsChosen(d, f, g, id, None, made, x);
      ChosenIsDefault(d, f, done, id, x.taskId);
      if x in f {
        NothingBelowYet(d, f, done, id.taskId, x);
      }
    }
    if x.taskId in d.tasks && BelowTask(d, x.taskId, id.taskId) && x == DefaultId(d, x.taskId) {
      ChosenIsMade(d, f, g, id, None, made, x.taskId);
      ChosenIsDefault(d, f, done, id, x.taskId);
    }
  }

  lemma BelowSomeMore(d: Defs, t: string, done: seq<string>, root: string)
    requires DefsOk(d) && t in d.tasks
    ensures BelowSome(d, t, done + [root]) <==> BelowSome(d, t, done) || BelowTask(d, t, root)
  {
    var more := done + [root];
    if BelowSome(d, t, done) {
      var j :| 0 <= j < |done| && BelowTask(d, t, done[j]);
      assert more[j] == done[j];
    }
    if BelowTask(d, t, root) {
      assert more[|done|] == root;
    }
  }

  /** What is made below id is in its group. */
  lemma MadeInGroup(d: Defs, f: Instances, g: Instances, id: InstanceId, parent: Option<InstanceId>,
                    made: set<InstanceId>, x: InstanceId)
    requires DefsOk(d) && id.taskId in d.tasks && Planted(d, f, g, id, parent, made) && x in made && x != id
    ensures !StartsGroup(g, x)
  {
    var n := |d.tasks[id.taskId].childrenIds|;
    assert MadeNode(d, f, g, id, made, n, x);
    assert MadeNode(d, f, g, id, made, n, g[x].parent.value);
  }

  lemma StartedGroups(d: Defs, f: Instances, g: Instances, id: InstanceId, made: set<InstanceId>)
    requires DefsOk(d) && id.taskId in d.tasks && Planted(d, f, g, id, None, made) && made !! f.Keys && Sound(d, f)
    requires forall x {:trigger StartsGroup(f, x)} :: !StartsGroup(f, x)
    ensures forall x {:trigger StartsGroup(g, x)} :: !StartsGroup(g, x)
  {
    forall x | x in g ensures !StartsGroup(g, x) {
      if x in made {
        if x != id {
          MadeInGroup(d, f, g, id, None, made, x);
        }
      } else {
        assert NodeOk(d, f, x) && !StartsGroup(f, x) && g[x] == f[x];
      }
    }
  }

  lemma StartedStep(d: Defs, f: Instances, g: Instances, done: seq<string>, id: InstanceId, made: set<InstanceId>)
    requires DefsOk(d) && Started(d, f, done) && NextRoot(d, done, id.taskId) && id == DefaultId(d, id.taskId)
    requires Planted(d, f, g, id, None, made)
    ensures Started(d, g, done + [id.taskId])
  {
    var done' := done + [id.taskId];
    forall x ensures x in made ==> x !in f
             ensures x in g <==> x.taskId in d.tasks && BelowSome(d, x.taskId, done') && x == DefaultId(d, x.taskId) {
      MadeIsDefault(d, f, g, done, id, made, x);
      if x.taskId in d.tasks {
        BelowSomeMore(d, x.taskId, done, id.taskId);
      }
    }
    StartedGroups(d, f, g, id, made);
    PlantedSound(d, f, g, id, None, made);
    forall x | x in g ensures NodeStarted(d, g, x) {
      if x in made {
        assert MadeNode(d, f, g, id, made, |d.tasks[id.taskId].childrenIds|, x);
        var ts := d.tasks[id.taskId].childrenIds;
        assert ts[..|ts|] == ts;
      } else {
        assert NodeStarted(d, f, x);
      }
    }
  }

  /** Once all roots are done, every task has exactly its default instance. */
  lemma {:induction false} EveryTaskBelow(d: Defs, roots: seq<string>, t: string)
    requires DefsOk(d) && RootsListed(d, roots) && t in d.tasks
    ensures BelowSome(d, t, roots)
    decreases d.depth[t]
  {
    if d.tasks[t].parentId.None? {
      assert IsRoot(d, t);
      var j :| 0 <= j < |roots| && roots[j] == t;
      assert BelowTask(d, t, roots[j]);
    } else {
      var p := d.tasks[t].parentId.value;
      EveryTaskBelow(d, roots, p);
      var j :| 0 <= j < |roots| && BelowTask(d, p, roots[j]);
      assert BelowTask(d, t, roots[j]);
    }
  }

  /** What init gives: one instance of every task, with index 0 for the indexed ones, and one group for each root. */
  ghost predicate Initial(d: Defs, f: Instances)
    requires DefsOk(d)
  {
    && Sound(d, f) && AllComplete(d, f)
    && (forall x :: x in f <==> x.taskId in d.tasks && x == DefaultId(d, x.taskId))
    && (forall x {:trigger NodeStarted(d, f, x)} | x in f :: NodeStarted(d, f, x))
    && (forall x {:trigger StartsGroup(f, x)} :: !StartsGroup(f, x))
  }

  lemma StartedIsInitial(d: Defs, f: Instances, roots: seq<string>)
    requires DefsOk(d) && RootsListed(d, roots) && Started(d, f, roots)
    ensures Initial(d, f)
  {
    forall x ensures x in f <==> x.taskId in d.tasks && x == DefaultId(d, x.taskId) {
      if x.taskId in d.tasks {
        EveryTaskBelow(d, roots, x.taskId);
      }
    }
    forall x | x in f ensures Complete(d, f, x) {
      assert NodeStarted(d, f, x);
      var ts := d.tasks[x.taskId].childrenIds;
      forall c | c in ts ensures HasChildOf(f, x, c) {
        var i :| 0 <= i < |ts| && ts[i] == c;
        assert f[x].children[i] in f[x].children;
      }
    }
  }

  /** After init every indexed task has the index 0 alone. */
  lemma InitialIdx(d: Defs, f: Instances, t: string)
    requires DefsOk(d) && Initial(d, f) && t in d.tasks
    ensures Idx(f, t) == if t in d.under then {0} else {}
  {
    forall i: nat ensures i in Idx(f, t) <==> t in d.under && i == 0 {
      IdxHas(f, t, i);
    }
  }

  /** The instances of tasks outside repeatables: one each, under the bare task id. */
  predicate Spine(d: Defs, f: Instances) {
    forall t | t in d.tasks && t !in d.under :: InstanceId(t, None) in f
  }

  // ---- Mapping sources ----

  /** Only the mapping source of x differs. */
  function Mapped(f: Instances, x: InstanceId, source: InstanceId): Instances {
    if x in f then f[x := f[x].(mappedFrom := Some(source))] else f
  }

  predicate SameShape(f: Instances, g: Instances) {
    && g.Keys == f.Keys
    && forall x | x in f :: g[x].parent == f[x].parent && g[x].children == f[x].children && g[x].groupId == f[x].groupId
  }

  lemma SameShapeLinks(d: Defs, f: Instances, g: Instances)
    requires LinksOk(d, f) && SameShape(f, g)
    ensures LinksOk(d, g)
    ensures Spine(d, f) ==> Spine(d, g)
  {
    forall x | x in g ensures NodeLinks(d, g, x) {
      assert NodeLinks(d, f, x);
    }
  }

  lemma SameShapeSound(d: Defs, f: Instances, g: Instances)
    requires SameShape(f, g)
    ensures Sound(d, f) ==> Sound(d, g)
    ensures AllComplete(d, f) ==> AllComplete(d, g)
  {
    if Sound(d, f) {
      forall x | x in g ensures NodeOk(d, g, x) {
        assert NodeOk(d, f, x);
      }
    }
    if AllComplete(d, f) {
      forall x | x in g ensures Complete(d, g, x) {
        assert Complete(d, f, x);
        forall c | c in d.tasks[x.taskId].childrenIds && Fixed(d, c) ensures HasChildOf(g, x, c) {
          HasChildKept(f, g, x, c);
        }
      }
    }
  }

  lemma SameKeysIdx(f: Instances, g: Instances)
    requires g.Keys == f.Keys
    ensures forall u :: Idx(g, u) == Idx(f, u)
  {
  }

  // ---- The store ----

  class TaskStore {
    const flatTasks: FlatTasks
    const rootTaskIds: seq<string>
    ghost const d: Defs
    var instances: Instances
    /** Stands for the supply of fresh group ids. */
    var nextGroup: nat

    /** Kept by every action. */
    ghost predicate Ready()
      reads this
    {
      && DefsOk(d) && d.tasks == flatTasks
      && LinksOk(d, instances)
      && forall x | x in instances :: instances[x].groupId < nextGroup
    }

    /** Kept as long as no new instance takes the id of an old one. */
    ghost predicate Valid()
      reads this
    {
      Ready() && Sound(d, instances) && AllComplete(d, instances) && Spine(d, instances)
    }

    method NextAvailableIndex(taskId: string) returns (n: nat)
      ensures IsNextIndex(instances, taskId, n)
    {
      var last: int := -1;
      var todo := instances.Keys;
      while todo != {}
        invariant todo <= instances.Keys
        invariant -1 <= last
        invariant forall x | x in instances && x !in todo && x.taskId == taskId && x.index.Some? ::
                    x.index.value <= last
        invariant last >= 0 ==> last in Idx(instances, taskId)
        decreases todo
      {
        var x :| x in todo;
        todo := todo - {x};
        if x.taskId == taskId && x.index.Some? && x.index.value > last {
          last := x.index.value;
        }
      }
      n := last + 1;
    }

    /** Repeatable tasks and the tasks of indexed parents get an index, the others just their task id. */
    method ChooseInstanceId(taskId: string, parent: Option<InstanceId>, specificIndex: Option<nat>)
      returns (id: InstanceId)
      requires Ready() && taskId in d.tasks
      ensures id.taskId == taskId
      ensures id.index.Some? <==> d.tasks[taskId].repeatable || (parent.Some? && parent.value.index.Some?)
      ensures id.index.Some? ==>
                if specificIndex.Some? then id.index == specificIndex
                    else IsNextIndex(instances, taskId, id.index.value)
    {
      if flatTasks[taskId].repeatable || (parent.Some? && parent.value.index.Some?) {
        if specificIndex.Some? {
          id := InstanceId(taskId, specificIndex);
        } else {
          var n := NextAvailableIndex(taskId);
          id := InstanceId(taskId, Some(n));
        }
      } else {
        id := InstanceId(taskId, None);
      }
    }

    /**
      What createTaskInstance is called with: a parent that fits the task, and one that exists if its
      group is asked for.
     */
    ghost predicate CanCreate(taskId: string, parent: Option<InstanceId>, forceNewGroupId: bool)
      reads this
      requires DefsOk(d)
    {
      && taskId in d.tasks && ParentFits(d, InstanceId(taskId, None), parent)
      && (taskId in d.under <==> d.tasks[taskId].repeatable || (parent.Some? && parent.value.index.Some?))
      && (parent.Some? && !forceNewGroupId ==> parent.value in instances)
    }

    /** The new entry itself, in the parent's group or in a fresh one; an entry with that id is replaced. */
    method AddNode(id: InstanceId, parent: Option<InstanceId>, forceNewGroupId: bool)
      requires Ready() && CanCreate(id.taskId, parent, forceNewGroupId) && (id.index.Some? <==> id.taskId in d.under)
      modifies this
      ensures Ready() && nextGroup >= old(nextGroup)
      ensures Planting(d, old(instances), instances, id, parent, {id}, 0)
      ensures if parent.Some? && !forceNewGroupId then instances[id].groupId == old(instances)[parent.value].groupId
              else instances[id].groupId >= old(nextGroup)
    {
      var groupId;
      if parent.Some? && !forceNewGroupId {
        groupId := instances[parent.value].groupId;
      } else {
        groupId := nextGroup;
        nextGroup := nextGroup + 1;
      }
      assert parent != Some(id);
      PlantingStart(d, instances, id, groupId, parent);
      WithNodeLinks(d, instances, id, groupId, parent);
      instances := WithNode(instances, id, groupId, parent);
    }

    /**
      createTaskInstance: the instance and everything below it, each in the same group, with the
      given index or the next one; entries with the same ids are replaced.
     */
    method CreateTaskInstance(taskId: string, parent: Option<InstanceId>, forceNewGroupId: bool,
                              specificIndex: Option<nat>)
      returns (id: InstanceId, ghost made: set<InstanceId>)
      requires Ready() && CanCreate(taskId, parent, forceNewGroupId)
      modifies this
      ensures Ready() && nextGroup >= old(nextGroup)
      ensures id.taskId == taskId && (id.index.Some? <==> taskId in d.under)
      ensures id.index.Some? ==>
                if specificIndex.Some? then id.index == specificIndex
                    else IsNextIndex(old(instances), taskId, id.index.value)
      ensures Planted(d, old(instances), instances, id, parent, made)
      ensures if parent.Some? && !forceNewGroupId then instances[id].groupId == old(instances)[parent.value].groupId
              else instances[id].groupId >= old(nextGroup)
      decreases d.bound - d.depth[taskId], 2
    {
      id := ChooseInstanceId(taskId, parent, specificIndex);
      ghost var before := instances;
      AddNode(id, parent, forceNewGroupId);
      var task := flatTasks[taskId];
      var childIndex := if task.repeatable then (if specificIndex.Some? then specificIndex else id.index) else None;
      made := CreateChildren(task.childrenIds, id, parent, childIndex, before);
    }

    method CreateChildren(childTaskIds: seq<string>, id: InstanceId, ghost parent: Option<InstanceId>,
                          childIndex: Option<nat>, ghost before: Instances) returns (ghost made: set<InstanceId>)
      requires Ready() && id.taskId in d.tasks && childTaskIds == d.tasks[id.taskId].childrenIds
      requires id.index.Some? <==> id.taskId in d.under
      requires Planting(d, before, instances, id, parent, {id}, 0)
      requires childIndex == if d.tasks[id.taskId].repeatable then id.index else None
      modifies this
      ensures Ready() && nextGroup >= old(nextGroup)
      ensures Planted(d, before, instances, id, parent, made)
      ensures instances[id].groupId == old(instances)[id].groupId
      decreases d.bound - d.depth[id.taskId], 1
    {
      made := {id};
      for k := 0 to |childTaskIds|
        invariant Ready() && nextGroup >= old(nextGroup)
        invariant Planting(d, before, instances, id, parent, made, k)
        invariant instances[id].groupId == old(instances)[id].groupId
      {
        made := CreateChild(childTaskIds[k], id, parent, childIndex, before, made, k);
      }
    }

    /** One turn of the loop over the child tasks. */
    method CreateChild(childTaskId: string, id: InstanceId, ghost parent: Option<InstanceId>, childIndex: Option<nat>,
                       ghost before: Instances, ghost made: set<InstanceId>, ghost k: nat)
                         returns (ghost made': set<InstanceId>)
      requires Ready() && id.taskId in d.tasks && k < |d.tasks[id.taskId].childrenIds|
      requires id.index.Some? <==> id.taskId in d.under
      requires childTaskId == d.tasks[id.taskId].childrenIds[k]
      requires Planting(d, before, instances, id, parent, made, k)
      requires childIndex == if d.tasks[id.taskId].repeatable then id.index else None
      modifies this
      ensures Ready() && nextGroup >= old(nextGroup)
      ensures Planting(d, before, instances, id, parent, made', k + 1)
      ensures instances[id].groupId == old(instances)[id].groupId
      decreases d.bound - d.depth[id.taskId], 0
    {
      ghost var g := instances;
      assert childTaskId in d.tasks[id.taskId].childrenIds;
      var y;
      ghost var more;
      y, more := CreateTaskInstance(childTaskId, Some(id), false, childIndex);
      PlantingStep(d, before, g, instances, id, parent, made, k, y, more);
      made' := made + more;
      SameGroup(d, before, g, instances, id, parent, made, k, y, more);
    }

    constructor (tasks: FlatTasks, roots: seq<string>, ghost defs: Defs)
      requires DefsOk(defs) && defs.tasks == tasks
      ensures Ready() && d == defs && rootTaskIds == roots && instances == map[]
    {
      flatTasks, rootTaskIds, d := tasks, roots, defs;
      instances, nextGroup := map[], 0;
    }

    /** init: from nothing, one instance of every task, with index 0 for every indexed one. */
    method CreateDefaultInstances()
      requires Ready() && RootsListed(d, rootTaskIds)
      modifies this
      ensures Valid() && Initial(d, instances)
    {
      instances := map[];
      for k := 0 to |rootTaskIds|
        invariant Ready() && Started(d, instances, rootTaskIds[..k])
      {
        assert rootTaskIds[..k + 1] == rootTaskIds[..k] + [rootTaskIds[k]];
        assert forall j | 0 <= j < |rootTaskIds| :: rootTaskIds[j] in rootTaskIds;
        CreateRoot(rootTaskIds[k], rootTaskIds[..k]);
      }
      assert rootTaskIds[..|rootTaskIds|] == rootTaskIds;
      StartedIsInitial(d, instances, rootTaskIds);
    }

    method CreateRoot(taskId: string, ghost done: seq<string>)
      requires Ready() && Started(d, instances, done) && NextRoot(d, done, taskId)
      modifies this
      ensures Ready() && Started(d, instances, done + [taskId])
    {
      ghost var before := instances;
      NoIndexYet(d, before, done, taskId, taskId);
      var id;
      ghost var made;
      id, made := CreateTaskInstance(taskId, None, false, None);
      assert id == DefaultId(d, taskId);
      StartedStep(d, before, instances, done, id, made);
    }

    /**
      addRepeatableTaskInstance: a whole new subtree in a group of its own, at the given index or
      the next one; tasks that are not repeatable get nothing. A valid forest stays valid if no id
      was taken and the parent exists.
     */
    method AddRepeatableTaskInstance(taskId: string, parent: Option<InstanceId>, specificIndex: Option<nat>)
      returns (id: Option<InstanceId>, ghost made: set<InstanceId>)
      requires Ready() && taskId in d.tasks && ParentFits(d, InstanceId(taskId, None), parent)
      modifies this
      ensures Ready() && nextGroup >= old(nextGroup)
      ensures id.Some? <==> d.tasks[taskId].repeatable
      ensures id.None? ==> instances == old(instances)
      ensures id.Some? ==>
                && id.value.taskId == taskId && id.value.index.Some?
                && (if specificIndex.Some? then id.value.index == specificIndex
                    else IsNextIndex(old(instances), taskId, id.value.index.value))
                && Planted(d, old(instances), instances, id.value, parent, made)
                && forall x | x in old(instances) :: old(instances)[x].groupId < instances[id.value].groupId
      ensures old(Valid()) && (id.Some? ==>
                                 IdsFree(d, old(instances), id.value) &&
                                 (parent.Some? ==> parent.value in old(instances))) ==>
                Valid()
    {
      id, made := None, {};
      if flatTasks[taskId].repeatable {
        ghost var before := instances;
        var created;
        created, made := CreateTaskInstance(taskId, parent, true, specificIndex);
        id := Some(created);
        AddKeepsValid(d, before, instances, created, parent, made);
      }
    }

    /** removeRepeatableTaskInstance: the instance goes with everything it reaches, and nothing else changes. */
    method RemoveRepeatableTaskInstance(x: InstanceId)
      requires Ready()
      modifies this`instances
      ensures Ready() && instances == Prune(old(instances), ReachSet(d, old(instances), x))
      decreases Rest(d, x), 1
    {
      ghost var before := instances;
      PruneLinks(d, before, ReachSet(d, before, x));
      if x !in instances {
        assert ReachSet(d, before, x) == {};
        PruneNone(before);
        return;
      }
      var instance := instances[x];
      var childrenToRemove := instance.children;
      PruneNone(before);
      for k := 0 to |childrenToRemove|
        invariant Ready() && instances == Prune(before, ReachOf(d, before, childrenToRemove[..k]))
      {
        RemoveChild(childrenToRemove[k], x, before, k);
      }
      assert childrenToRemove[..|childrenToRemove|] == childrenToRemove;
      RemovalDone(d, before, x);
      if instance.parent.Some? && instance.parent.value in instances {
        var parent := instances[instance.parent.value];
        instances := instances[instance.parent.value := parent.(children := WithoutChild(parent.children, x))];
      }
      instances := instances - {x};
    }

    /** One turn of the loop over the children. */
    method RemoveChild(childId: InstanceId, ghost x: InstanceId, ghost before: Instances, ghost k: nat)
      requires Ready() && LinksOk(d, before) && x in before && k < |before[x].children| &&
                 childId == before[x].children[k]
      requires instances == Prune(before, ReachOf(d, before, before[x].children[..k]))
      modifies this`instances
      ensures Ready() && instances == Prune(before, ReachOf(d, before, before[x].children[..k + 1]))
      decreases Rest(d, x), 0
    {
      assert childId in before[x].children;
      ChildIsDeeper(d, before, x, childId);
      NextChildGone(d, before, before[x].children, k);
      RemoveRepeatableTaskInstance(childId);
    }

    /** setInstanceMappingSource: an unknown instance is left alone. */
    method SetInstanceMappingSource(x: InstanceId, source: InstanceId)
      requires Ready()
      modifies this`instances
      ensures Ready() && instances == Mapped(old(instances), x, source) && (old(Valid()) ==> Valid())
    {
      ghost var before := instances;
      if x in instances {
        instances := instances[x := instances[x].(mappedFrom := Some(source))];
      }
      SameShapeLinks(d, before, instances);
      SameShapeSound(d, before, instances);
    }
  }

  // ---- What keeps a forest valid ----

  lemma AddKeepsValid(d: Defs, f: Instances, g: Instances, id: InstanceId, parent: Option<InstanceId>,
                      made: set<InstanceId>)
    requires DefsOk(d) && ParentFits(d, id, parent) && d.tasks[id.taskId].repeatable &&
               Planted(d, f, g, id, parent, made)
    ensures Sound(d, f) && AllComplete(d, f) && Spine(d, f) && IdsFree(d, f, id) &&
              (parent.Some? ==> parent.value in f) ==>
              Sound(d, g) && AllComplete(d, g) && Spine(d, g)
  {
    if Sound(d, f) && AllComplete(d, f) && Spine(d, f) && IdsFree(d, f, id) && (parent.Some? ==> parent.value in f) {
      FreeIffDisjoint(d, f, g, id, parent, made);
      if parent.Some? {
        assert NodeOk(d, f, parent.value);
      }
      PlantedSound(d, f, g, id, parent, made);
      PlantedComplete(d, f, g, id, parent, made);
    }
  }

  /** Removing an instance of an indexed task that its parent can do without keeps a valid forest valid. */
  lemma RemoveKeepsValid(d: Defs, f: Instances, x: InstanceId)
    requires DefsOk(d) && LinksOk(d, f) && Sound(d, f) && AllComplete(d, f) && Spine(d, f)
    requires x in f && x.taskId in d.under && !Fixed(d, x.taskId)
    ensures var g := Prune(f, ReachSet(d, f, x)); Sound(d, g) && AllComplete(d, g) && Spine(d, g)
  {
    var g := Prune(f, ReachSet(d, f, x));
    PruneSound(d, f, x);
    PruneComplete(d, f, x);
    forall t | t in d.tasks && t !in d.under ensures InstanceId(t, None) in g {
      if Reach(d, f, InstanceId(t, None), x) {
        ReachIn(d, f, InstanceId(t, None), x);
        BelowTaskDepth(d, t, x.taskId);
      }
    }
  }


  lemma WithNodeLinks(d: Defs, f: Instances, id: InstanceId, groupId: nat, parent: Option<InstanceId>)
    requires LinksOk(d, f) && ParentFits(d, id, parent) && (id.index.Some? <==> id.taskId in d.under) &&
               parent != Some(id)
    ensures LinksOk(d, WithNode(f, id, groupId, parent))
  {
    var g := WithNode(f, id, groupId, parent);
    forall x | x in g ensures NodeLinks(d, g, x) {
      if x != id {
        assert NodeLinks(d, f, x);
      }
    }
  }

  lemma SameGroup(d: Defs, f: Instances, g: Instances, h: Instances, id: InstanceId, parent: Option<InstanceId>,
                  made: set<InstanceId>, k: nat, y: InstanceId, more: set<InstanceId>)
    requires DefsOk(d) && id.taskId in d.tasks && k < |d.tasks[id.taskId].childrenIds|
    requires StepOk(d, f, g, h, id, parent, made, k, y, more)
    ensures id in h && h[id].groupId == g[id].groupId
  {
    if id in more {
      MoreIsBelow(d, f, g, h, id, parent, made, k, y, more, id);
    }
  }
}
