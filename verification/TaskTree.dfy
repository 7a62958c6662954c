/**
  createTasks: from the nested task definitions to the flat ones, and why the flat definitions
  have the tree shape that the instance forest relies on.
 */
module TaskTree {
  import opened Wrappers
  import opened InstanceIds
  import opened Schema
  import opened Forest
  import opened Growth
  import opened Removal
  import opened TaskStore

  datatype Task = Task(id: string, repeatable: bool, mappings: seq<string>, tasks: seq<Task>)

  /** All task ids in the trees. */
  function AllIds(tasks: seq<Task>): set<string> {
    if tasks == [] then {} else {tasks[0].id} + AllIds(tasks[0].tasks) + AllIds(tasks[1..])
  }

  /** No task id occurs twice, and none looks like an instance id. */
  predicate DistinctIds(tasks: seq<Task>) {
    tasks == [] || (
      && CleanTaskId(tasks[0].id)
      && tasks[0].id !in AllIds(tasks[0].tasks) && tasks[0].id !in AllIds(tasks[1..])
      && AllIds(tasks[0].tasks) !! AllIds(tasks[1..])
      && DistinctIds(tasks[0].tasks) && DistinctIds(tasks[1..]))
  }

  function ChildIds(tasks: seq<Task>): (r: seq<string>)
    ensures |r| == |tasks| && forall k | 0 <= k < |tasks| :: r[k] == tasks[k].id
  {
    seq(|tasks|, k requires 0 <= k < |tasks| => tasks[k].id)
  }

  lemma ChildIdsStep(tasks: seq<Task>, k: nat)
    requires k < |tasks|
    ensures ChildIds(tasks[..k + 1]) == ChildIds(tasks[..k]) + [tasks[k].id]
  {
  }

  /** The flat definitions hold the tree of this task, under the given parent. */
  predicate MirrorsOne(flat: FlatTasks, t: Task, parentId: Option<string>)
    decreases t
  {
    t.id in flat && flat[t.id] == FlatTask(parentId, ChildIds(t.tasks), t.repeatable, t.mappings) &&
        Mirrors(flat, t.tasks, Some(t.id))
  }

  predicate Mirrors(flat: FlatTasks, tasks: seq<Task>, parentId: Option<string>)
    decreases tasks
  {
    forall k | 0 <= k < |tasks| :: MirrorsOne(flat, tasks[k], parentId)
  }

  /** Entries other than p stay as they are. */
  predicate KeptExcept(f: FlatTasks, g: FlatTasks, p: Option<string>) {
    forall t | t in f && Some(t) != p :: t in g && g[t] == f[t]
  }

  lemma {:induction false} MirrorsKept(f: FlatTasks, g: FlatTasks, t: Task, parentId: Option<string>, p: Option<string>)
    requires MirrorsOne(f, t, parentId) && KeptExcept(f, g, p)
    requires p.Some? ==> p.value != t.id && p.value !in AllIds(t.tasks)
    ensures MirrorsOne(g, t, parentId)
    decreases t
  {
    forall k | 0 <= k < |t.tasks| ensures MirrorsOne(g, t.tasks[k], Some(t.id)) {
      IdsOfOne(t.tasks, k);
      assert MirrorsOne(f, t.tasks[k], Some(t.id));
      MirrorsKept(f, g, t.tasks[k], Some(t.id), p);
    }
  }

  lemma OneMoreMirrored(f: FlatTasks, g: FlatTasks, tasks: seq<Task>, parentId: Option<string>, k: nat)
    requires k < |tasks| && Mirrors(f, tasks[..k], parentId) && KeptExcept(f, g, parentId)
    requires MirrorsOne(g, tasks[k], parentId) && (parentId.Some? ==> parentId.value !in AllIds(tasks))
    ensures Mirrors(g, tasks[..k + 1], parentId)
  {
    var done := tasks[..k + 1];
    forall j | 0 <= j < |done| ensures MirrorsOne(g, done[j], parentId) {
      if j < k {
        IdsOfOne(tasks, j);
        assert MirrorsOne(f, tasks[..k][j], parentId);
        MirrorsKept(f, g, tasks[j], parentId, parentId);
      }
    }
  }

  lemma {:induction false} IdsOfOne(tasks: seq<Task>, k: nat)
    requires k < |tasks|
    ensures tasks[k].id in AllIds(tasks) && AllIds(tasks[k].tasks) <= AllIds(tasks)
  {
    if k > 0 {
      IdsOfOne(tasks[1..], k - 1);
    }
  }

  /** Old entries are kept, and the parent's gains the given children. */
  predicate Extended(f: FlatTasks, g: FlatTasks, parentId: Option<string>, more: seq<string>) {
    && KeptExcept(f, g, parentId)
    && (parentId.Some? && parentId.value in f ==>
          parentId.value in g &&
              g[parentId.value] == f[parentId.value].(childrenIds := f[parentId.value].childrenIds + more))
  }

  /** From f to g the task t has been entered, without its children. */
  predicate Entered(f: FlatTasks, g: FlatTasks, t: Task, parentId: Option<string>) {
    && t.id !in f && g.Keys == f.Keys + {t.id}
    && g[t.id] == FlatTask(parentId, [], t.repeatable, t.mappings)
    && Extended(f, g, parentId, [t.id])
  }

  /** The definitions with one more task, at the end of its parent's children. */
  function WithEntry(f: FlatTasks, t: Task, parentId: Option<string>): FlatTasks
    requires parentId.Some? ==> parentId.value in f
  {
    var g := f[t.id := FlatTask(parentId, [], t.repeatable, t.mappings)];
    if parentId.Some? then
      g[parentId.value := g[parentId.value].(childrenIds := g[parentId.value].childrenIds + [t.id])]
    else g
  }

  lemma WithEntryEntered(f: FlatTasks, t: Task, parentId: Option<string>)
    requires t.id !in f && (parentId.Some? ==> parentId.value in f)
    ensures Entered(f, WithEntry(f, t, parentId), t, parentId)
  {
  }

  lemma EnteredNoDuplicates(f: FlatTasks, g: FlatTasks, t: Task, parentId: Option<string>, x: string)
    requires Linked(f) && Entered(f, g, t, parentId) && (parentId.Some? ==> parentId.value in f) && x in g
    ensures NoDuplicates(g[x].childrenIds)
  {
    if x != t.id {
      assert t.id !in f[x].childrenIds;
    }
  }

  lemma EnteredParent(f: FlatTasks, g: FlatTasks, t: Task, parentId: Option<string>, x: string)
    requires Linked(f) && Entered(f, g, t, parentId) && (parentId.Some? ==> parentId.value in f)
    requires x in g && g[x].parentId.Some?
    ensures g[x].parentId.value in g && x in g[g[x].parentId.value].childrenIds
  {
    if x != t.id {
      assert f[x].parentId == g[x].parentId;
      var p := f[x].parentId.value;
      assert p in f && x in f[p].childrenIds;
    } else {
      var p := parentId.value;
      assert g[p].childrenIds[|f[p].childrenIds|] == t.id;
    }
  }

  lemma EnteredChild(f: FlatTasks, g: FlatTasks, t: Task, parentId: Option<string>, p: string, c: string)
    requires Linked(f) && Entered(f, g, t, parentId) && (parentId.Some? ==> parentId.value in f)
    requires p in g && c in g[p].childrenIds
    ensures c in g && g[c].parentId == Some(p)
  {
    if p != t.id && c != t.id {
      assert c in f[p].childrenIds;
    }
    assert p in f && parentId != Some(p) ==> g[p].childrenIds == f[p].childrenIds;
  }

  lemma EnteredLinked(f: FlatTasks, g: FlatTasks, t: Task, parentId: Option<string>)
    requires Linked(f) && Entered(f, g, t, parentId) && (parentId.Some? ==> parentId.value in f) && CleanTaskId(t.id)
    ensures Linked(g)
  {
    forall x | x in g ensures CleanTaskId(x) && NoDuplicates(g[x].childrenIds) {
      EnteredNoDuplicates(f, g, t, parentId, x);
    }
    forall x | x in g && g[x].parentId.Some? ensures g[x].parentId.value in g &&
        x in g[g[x].parentId.value].childrenIds {
      EnteredParent(f, g, t, parentId, x);
    }
    forall p, c | p in g && c in g[p].childrenIds ensures c in g && g[c].parentId == Some(p) {
      EnteredChild(f, g, t, parentId, p, c);
    }
  }

  /** The tree facts with one more task, which has no children yet. */
  function WithTask(d: Defs, tasks: FlatTasks, t: Task, parentId: Option<string>): Defs {
    var depth := if parentId.Some? && parentId.value in d.depth then d.depth[parentId.value] + 1 else 0;
    Defs(tasks, d.depth[t.id := depth], if depth > d.bound then depth else d.bound,
         if t.repeatable || (parentId.Some? && parentId.value in d.under) then d.under + {t.id} else d.under - {t.id})
  }

  lemma EnteredTreeFacts(d: Defs, g: FlatTasks, t: Task, parentId: Option<string>, x: string)
    requires DefsOk(d) && Entered(d.tasks, g, t, parentId) && (parentId.Some? ==> parentId.value in d.tasks) && x in g
    ensures var e := WithTask(d, g, t, parentId);
            && e.depth.Keys == g.Keys
            && (g[x].parentId.None? ==> e.depth[x] == 0)
            && (g[x].parentId.Some? ==> g[x].parentId.value in g && e.depth[x] == e.depth[g[x].parentId.value] + 1)
            && (x in e.under <==> g[x].repeatable || (g[x].parentId.Some? && g[x].parentId.value in e.under))
  {
    if x != t.id {
      assert d.tasks[x].parentId == g[x].parentId && d.tasks[x].repeatable == g[x].repeatable;
    }
  }

  lemma WithTaskOk(d: Defs, g: FlatTasks, t: Task, parentId: Option<string>)
    requires DefsOk(d) && Entered(d.tasks, g, t, parentId) && CleanTaskId(t.id) &&
               (parentId.Some? ==> parentId.value in d.tasks)
    ensures DefsOk(WithTask(d, g, t, parentId))
  {
    EnteredLinked(d.tasks, g, t, parentId);
    var e := WithTask(d, g, t, parentId);
    forall x | x in g
      ensures e.depth.Keys == g.Keys
      ensures g[x].parentId.None? ==> e.depth[x] == 0
      ensures g[x].parentId.Some? ==> e.depth[x] == e.depth[g[x].parentId.value] + 1
      ensures x in e.under <==> g[x].repeatable || (g[x].parentId.Some? && g[x].parentId.value in e.under) {
      EnteredTreeFacts(d, g, t, parentId, x);
    }
    assert e.depth.Keys == g.Keys;
  }

  /** From f to g the task t has been entered with the whole tree below it. */
  predicate Created(f: FlatTasks, g: FlatTasks, t: Task, parentId: Option<string>) {
    && g.Keys == f.Keys + {t.id} + AllIds(t.tasks)
    && MirrorsOne(g, t, parentId)
    && Extended(f, g, parentId, [t.id])
  }

  lemma EnteredThenChildren(f: FlatTasks, g: FlatTasks, h: FlatTasks, t: Task, parentId: Option<string>)
    requires Entered(f, g, t, parentId) && (parentId.Some? ==> parentId.value in f)
    requires Mirrors(h, t.tasks, Some(t.id)) && Extended(g, h, Some(t.id), ChildIds(t.tasks))
    requires h.Keys == g.Keys + AllIds(t.tasks)
    ensures Created(f, h, t, parentId)
  {
    assert [] + ChildIds(t.tasks) == ChildIds(t.tasks);
  }

  lemma EnteredLeaf(f: FlatTasks, g: FlatTasks, t: Task, parentId: Option<string>)
    requires Entered(f, g, t, parentId) && t.tasks == []
    ensures Created(f, g, t, parentId)
  {
    assert ChildIds(t.tasks) == [];
  }

  /** The first k trees have been flattened. */
  predicate Halfway(start: FlatTasks, flat: FlatTasks, tasks: seq<Task>, parentId: Option<string>, k: nat)
    requires k <= |tasks|
  {
    && DistinctIds(tasks[k..]) && AllIds(tasks[k..]) !! flat.Keys
    && flat.Keys + AllIds(tasks[k..]) == start.Keys + AllIds(tasks)
    && start.Keys <= flat.Keys
    && Mirrors(flat, tasks[..k], parentId) && Extended(start, flat, parentId, ChildIds(tasks[..k]))
  }

  /** Without a parent the roots are the first k trees; otherwise they are left alone. */
  predicate RootsUpTo(now: seq<string>, roots: seq<string>, tasks: seq<Task>, parentId: Option<string>, k: nat)
    requires k <= |tasks|
  {
    now == if parentId.None? then ChildIds(tasks[..k]) else roots
  }

  lemma HalfwayStart(start: FlatTasks, tasks: seq<Task>, parentId: Option<string>)
    requires DistinctIds(tasks) && AllIds(tasks) !! start.Keys && (parentId.Some? ==> parentId.value in start)
    ensures Halfway(start, start, tasks, parentId, 0) && ChildIds(tasks[..0]) == []
  {
    assert tasks[0..] == tasks && ChildIds(tasks[..0]) == [];
    assert parentId.Some? ==> start[parentId.value].childrenIds + [] == start[parentId.value].childrenIds;
  }

  lemma HalfwayDone(start: FlatTasks, flat: FlatTasks, tasks: seq<Task>, parentId: Option<string>)
    requires Halfway(start, flat, tasks, parentId, |tasks|)
    ensures Mirrors(flat, tasks, parentId) && flat.Keys == start.Keys + AllIds(tasks)
    ensures Extended(start, flat, parentId, ChildIds(tasks)) && tasks[..|tasks|] == tasks
  {
    assert tasks[..|tasks|] == tasks && tasks[|tasks|..] == [];
  }

  lemma NextTree(start: FlatTasks, f: FlatTasks, tasks: seq<Task>, parentId: Option<string>, k: nat)
    requires k < |tasks| && Halfway(start, f, tasks, parentId, k)
    ensures var t := tasks[k];
            && CleanTaskId(t.id) && t.id !in AllIds(t.tasks) && DistinctIds(t.tasks) &&
                {t.id} + AllIds(t.tasks) !! f.Keys
            && DistinctIds(tasks[k + 1..]) && {t.id} + AllIds(t.tasks) !! AllIds(tasks[k + 1..])
            && AllIds(tasks[k..]) == {t.id} + AllIds(t.tasks) + AllIds(tasks[k + 1..])
  {
    assert tasks[k..][0] == tasks[k] && tasks[k..][1..] == tasks[k + 1..];
  }

  lemma ExtendedStep(start: FlatTasks, f: FlatTasks, g: FlatTasks, tasks: seq<Task>, parentId: Option<string>, k: nat)
    requires k < |tasks| && Extended(start, f, parentId, ChildIds(tasks[..k])) &&
               Extended(f, g, parentId, [tasks[k].id])
    ensures Extended(start, g, parentId, ChildIds(tasks[..k + 1]))
  {
    ChildIdsStep(tasks, k);
    if parentId.Some? && parentId.value in start {
      var cs := start[parentId.value].childrenIds;
      assert cs + ChildIds(tasks[..k]) + [tasks[k].id] == cs + (ChildIds(tasks[..k]) + [tasks[k].id]);
    }
  }

  lemma HalfwayStep(start: FlatTasks, f: FlatTasks, g: FlatTasks, tasks: seq<Task>, parentId: Option<string>, k: nat)
    requires k < |tasks| && Halfway(start, f, tasks, parentId, k) && Created(f, g, tasks[k], parentId)
    requires parentId.Some? ==> parentId.value in start && parentId.value !in AllIds(tasks)
    ensures Halfway(start, g, tasks, parentId, k + 1)
  {
    NextTree(start, f, tasks, parentId, k);
    OneMoreMirrored(f, g, tasks, parentId, k);
    ExtendedStep(start, f, g, tasks, parentId, k);
  }

  /** Inside mirrored trees only the outermost tasks are without a parent task. */
  lemma {:induction false} InnerTasksHaveParents(flat: FlatTasks, tasks: seq<Task>, parentId: Option<string>, x: string)
    requires Mirrors(flat, tasks, parentId) && x in AllIds(tasks)
    ensures x in flat && (x in ChildIds(tasks) || flat[x].parentId.Some?)
    decreases tasks
  {
    var t := tasks[0];
    assert MirrorsOne(flat, t, parentId);
    if x == t.id {
      assert ChildIds(tasks)[0] == x;
    } else if x in AllIds(t.tasks) {
      InnerTasksHaveParents(flat, t.tasks, Some(t.id), x);
      if x in ChildIds(t.tasks) {
        var j :| 0 <= j < |t.tasks| && t.tasks[j].id == x;
        assert MirrorsOne(flat, t.tasks[j], Some(t.id));
      }
    } else {
      forall k | 0 <= k < |tasks[1..]| ensures MirrorsOne(flat, tasks[1..][k], parentId) {
        assert MirrorsOne(flat, tasks[k + 1], parentId);
      }
      InnerTasksHaveParents(flat, tasks[1..], parentId, x);
      if x in ChildIds(tasks[1..]) {
        var j :| 0 <= j < |tasks[1..]| && tasks[1..][j].id == x;
        assert ChildIds(tasks)[j + 1] == x;
      }
    }
  }

  lemma {:induction false} TopIdsDiffer(tasks: seq<Task>, i: nat, j: nat)
    requires DistinctIds(tasks) && i < j < |tasks|
    ensures tasks[i].id != tasks[j].id
  {
    if i == 0 {
      IdsOfOne(tasks[1..], j - 1);
    } else {
      TopIdsDiffer(tasks[1..], i - 1, j - 1);
    }
  }

  /** After flattening a whole form the root list is exactly the tasks without a parent, each once. */
  lemma RootsAreListed(d: Defs, tasks: seq<Task>)
    requires DistinctIds(tasks) && Mirrors(d.tasks, tasks, None) && d.tasks.Keys == AllIds(tasks)
    ensures RootsListed(d, ChildIds(tasks))
  {
    var roots := ChildIds(tasks);
    forall t | t in roots ensures IsRoot(d, t) {
      var k :| 0 <= k < |tasks| && tasks[k].id == t;
      assert MirrorsOne(d.tasks, tasks[k], None);
    }
    forall t | t in d.tasks && IsRoot(d, t) ensures t in roots {
      InnerTasksHaveParents(d.tasks, tasks, None, t);
    }
    forall i, j | 0 <= i < j < |roots| ensures roots[i] != roots[j] {
      TopIdsDiffer(tasks, i, j);
    }
  }

  class Definitions {
    var flatTasks: FlatTasks
    var rootTaskIds: seq<string>
    ghost var d: Defs

    ghost predicate Ready()
      reads this
    {
      DefsOk(d) && d.tasks == flatTasks
    }

    constructor ()
      ensures Ready() && flatTasks == map[] && rootTaskIds == []
    {
      flatTasks, rootTaskIds, d := map[], [], Defs(map[], map[], 0, {});
    }

    /** The entry itself, at the end of its parent's children or of the roots. */
    method EnterTask(t: Task, parentId: Option<string>)
      requires Ready() && t.id !in flatTasks && CleanTaskId(t.id)
      requires parentId.Some? ==> parentId.value in flatTasks
      modifies this
      ensures Ready() && Entered(old(flatTasks), flatTasks, t, parentId)
      ensures rootTaskIds == if parentId.None? then old(rootTaskIds) + [t.id] else old(rootTaskIds)
    {
      ghost var before := flatTasks;
      flatTasks := flatTasks[t.id := FlatTask(parentId, [], t.repeatable, t.mappings)];
      if parentId.Some? {
        var parent := flatTasks[parentId.value];
        flatTasks := flatTasks[parentId.value := parent.(childrenIds := parent.childrenIds + [t.id])];
      } else {
        rootTaskIds := rootTaskIds + [t.id];
      }
      assert flatTasks == WithEntry(before, t, parentId);
      WithEntryEntered(before, t, parentId);
      WithTaskOk(d, flatTasks, t, parentId);
      d := WithTask(d, flatTasks, t, parentId);
    }

    /** One turn of the loop: the task and the tree below it. */
    method CreateTask(t: Task, parentId: Option<string>)
      requires Ready() && CleanTaskId(t.id) && t.id !in AllIds(t.tasks) && DistinctIds(t.tasks)
      requires {t.id} + AllIds(t.tasks) !! flatTasks.Keys
      requires parentId.Some? ==> parentId.value in flatTasks
      modifies this
      ensures Ready() && Created(old(flatTasks), flatTasks, t, parentId)
      ensures rootTaskIds == if parentId.None? then old(rootTaskIds) + [t.id] else old(rootTaskIds)
      decreases t
    {
      ghost var start := flatTasks;
      EnterTask(t, parentId);
      ghost var entered := flatTasks;
      if t.tasks != [] {
        CreateTasks(t.tasks, Some(t.id));
        EnteredThenChildren(start, entered, flatTasks, t, parentId);
      } else {
        EnteredLeaf(start, entered, t, parentId);
      }
    }

    /** One turn of the loop, seen from the whole list of trees. */
    method CreateNext(ghost start: FlatTasks, ghost roots: seq<string>, tasks: seq<Task>, parentId: Option<string>,
                      k: nat)
      requires Ready() && k < |tasks| && Halfway(start, flatTasks, tasks, parentId, k)
      requires parentId.Some? ==> parentId.value in start && parentId.value !in AllIds(tasks)
      requires RootsUpTo(rootTaskIds, roots, tasks, parentId, k)
      modifies this
      ensures Ready() && Halfway(start, flatTasks, tasks, parentId, k + 1)
      ensures RootsUpTo(rootTaskIds, roots, tasks, parentId, k + 1)
      decreases tasks, 0
    {
      ghost var before := flatTasks;
      NextTree(start, before, tasks, parentId, k);
      CreateTask(tasks[k], parentId);
      HalfwayStep(start, before, flatTasks, tasks, parentId, k);
      ChildIdsStep(tasks, k);
    }

    /** The loop over the trees. */
    method CreateEach(tasks: seq<Task>, parentId: Option<string>)
      requires Ready() && DistinctIds(tasks) && AllIds(tasks) !! flatTasks.Keys
      requires parentId.Some? ==> parentId.value in flatTasks
      requires parentId.None? ==> rootTaskIds == []
      modifies this
      ensures Ready() && Halfway(old(flatTasks), flatTasks, tasks, parentId, |tasks|)
      ensures RootsUpTo(rootTaskIds, old(rootTaskIds), tasks, parentId, |tasks|)
      decreases tasks, 1
    {
      ghost var start, roots := flatTasks, rootTaskIds;
      HalfwayStart(start, tasks, parentId);
      for k := 0 to |tasks|
        invariant Ready() && Halfway(start, flatTasks, tasks, parentId, k)
        invariant RootsUpTo(rootTaskIds, roots, tasks, parentId, k)
      {
        CreateNext(start, roots, tasks, parentId, k);
      }
    }

    /**
      Flattens the trees under a parent (or as roots): every task is entered once, with its
      parent and its children in order, and entries made before only gain children at the parent.
      The result has the tree shape of DefsOk.
     */
    method CreateTasks(tasks: seq<Task>, parentId: Option<string>)
      requires Ready() && DistinctIds(tasks) && AllIds(tasks) !! flatTasks.Keys
      requires parentId.Some? ==> parentId.value in flatTasks
      modifies this
      ensures Ready() && Mirrors(flatTasks, tasks, parentId)
      ensures flatTasks.Keys == old(flatTasks.Keys) + AllIds(tasks)
      ensures Extended(old(flatTasks), flatTasks, parentId, ChildIds(tasks))
      ensures rootTaskIds == if parentId.None? then ChildIds(tasks) else old(rootTaskIds)
      decreases tasks, 2
    {
      ghost var start := flatTasks;
      if parentId.None? {
        rootTaskIds := [];
      }
      CreateEach(tasks, parentId);
      HalfwayDone(start, flatTasks, tasks, parentId);
    }
  }

  /** init: flatten the form into an empty store, then create the default instances. */
  method Init(tasks: seq<Task>) returns (definitions: Definitions, store: TaskStore)
    requires DistinctIds(tasks)
    ensures fresh(store) && store.Valid() && Initial(store.d, store.instances) &&
              definitions.flatTasks == store.flatTasks
    ensures Mirrors(store.flatTasks, tasks, None) && store.flatTasks.Keys == AllIds(tasks)
    ensures store.rootTaskIds == ChildIds(tasks)
  {
    definitions := new Definitions();
    definitions.CreateTasks(tasks, None);
    RootsAreListed(definitions.d, tasks);
    store := new TaskStore(definitions.flatTasks, definitions.rootTaskIds, definitions.d);
    store.CreateDefaultInstances();
  }
}
