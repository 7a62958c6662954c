/**
  The forest of task instances. Two things are said of an instance map: the links that every
  action keeps, and the soundness that it has as long as no new instance took the id of an old one.
 */
module Forest {
  import opened Wrappers
  import opened InstanceIds
  import opened Schema

  /** One entry of the instance map; its own id is its key. */
  datatype TaskInstance = TaskInstance(groupId: nat, parent: Option<InstanceId>, children: seq<InstanceId>,
                                       mappedFrom: Option<InstanceId>)

  type Instances = map<InstanceId, TaskInstance>

  /**
    The definitions with what follows from their tree shape: every task lies one level below its
    parent, and `under` collects the tasks that are repeatable or lie below a repeatable one.
   */
  datatype Defs = Defs(tasks: FlatTasks, depth: map<string, nat>, bound: nat, under: set<string>)

  predicate DefsOk(d: Defs) {
    && Linked(d.tasks)
    && d.depth.Keys == d.tasks.Keys
    && (forall t | t in d.tasks :: d.depth[t] <= d.bound)
    && (forall t {:trigger d.tasks[t].parentId} | t in d.tasks && d.tasks[t].parentId.None? :: d.depth[t] == 0)
    && (forall t {:trigger d.tasks[t].parentId} | t in d.tasks && d.tasks[t].parentId.Some? ::
          d.depth[t] == d.depth[d.tasks[t].parentId.value] + 1)
    && (forall t {:trigger d.tasks[t].parentId} | t in d.tasks ::
          t in d.under <==>
              d.tasks[t].repeatable || (d.tasks[t].parentId.Some? && d.tasks[t].parentId.value in d.under))
  }

  // ---- Task level ----

  /** t lies in the part of the definitions below a, or is a. */
  predicate BelowTask(d: Defs, t: string, a: string)
    requires DefsOk(d) && t in d.tasks
    decreases d.depth[t]
  {
    t == a || (d.tasks[t].parentId.Some? && BelowTask(d, d.tasks[t].parentId.value, a))
  }

  /** A repeatable task that is not below another one. */
  predicate Outermost(d: Defs, t: string)
    requires t in d.tasks
  {
    d.tasks[t].repeatable && !(d.tasks[t].parentId.Some? && d.tasks[t].parentId.value in d.under)
  }

  lemma {:induction false} BelowTaskTrans(d: Defs, t: string, b: string, a: string)
    requires DefsOk(d) && t in d.tasks && b in d.tasks && BelowTask(d, t, b) && BelowTask(d, b, a)
    ensures BelowTask(d, t, a)
    decreases d.depth[t]
  {
    if t != b {
      BelowTaskTrans(d, d.tasks[t].parentId.value, b, a);
    }
  }

  lemma {:induction false} BelowTaskDepth(d: Defs, t: string, a: string)
    requires DefsOk(d) && t in d.tasks && BelowTask(d, t, a)
    ensures a in d.tasks && d.depth[a] <= d.depth[t]
    ensures d.depth[a] == d.depth[t] ==> a == t
    ensures a in d.under ==> t in d.under
    decreases d.depth[t]
  {
    if t != a {
      BelowTaskDepth(d, d.tasks[t].parentId.value, a);
    }
  }

  /** Two outermost tasks are never one below the other. */
  lemma OutermostApart(d: Defs, t: string, a: string)
    requires DefsOk(d) && t in d.tasks && a in d.tasks && BelowTask(d, t, a) && Outermost(d, t) && a in d.under
    ensures t == a
  {
    if t != a {
      BelowTaskDepth(d, d.tasks[t].parentId.value, a);
    }
  }

  /** No task lies below two different tasks of the same depth. */
  lemma {:induction false} SiblingsApart(d: Defs, t: string, a: string, b: string)
    requires DefsOk(d) && t in d.tasks && a in d.tasks && b in d.tasks
    requires BelowTask(d, t, a) && BelowTask(d, t, b) && d.depth[a] == d.depth[b]
    ensures a == b
    decreases d.depth[t]
  {
    if t == a {
      BelowTaskDepth(d, t, b);
    } else if t == b {
      BelowTaskDepth(d, t, a);
    } else {
      SiblingsApart(d, d.tasks[t].parentId.value, a, b);
    }
  }

  /** Tasks above the same task are above one another. */
  lemma {:induction false} AboveComparable(d: Defs, t: string, a: string, b: string)
    requires DefsOk(d) && t in d.tasks && a in d.tasks && b in d.tasks && BelowTask(d, t, a) && BelowTask(d, t, b)
    ensures BelowTask(d, a, b) || BelowTask(d, b, a)
    decreases d.depth[t]
  {
    if t != a && t != b {
      AboveComparable(d, d.tasks[t].parentId.value, a, b);
    }
  }

  predicate ChildTask(d: Defs, c: string, p: string) {
    c in d.tasks && d.tasks[c].parentId == Some(p)
  }

  /** The parent task is repeatable, so that its instances hand their index down. */
  predicate HandedDown(d: Defs, t: string)
    requires DefsOk(d) && t in d.tasks
  {
    d.tasks[t].parentId.Some? && d.tasks[d.tasks[t].parentId.value].repeatable
  }

  /** From s up to o every step hands the index down. */
  predicate Tracks(d: Defs, s: string, o: string)
    requires DefsOk(d) && s in d.tasks
    decreases d.depth[s]
  {
    s == o || (HandedDown(d, s) && Tracks(d, d.tasks[s].parentId.value, o))
  }

  // ---- Links: kept by every action ----

  /** What the entry of x says of tasks and indices; the instances it names need not exist. */
  predicate NodeLinks(d: Defs, f: Instances, x: InstanceId)
    requires x in f
  {
    && x.taskId in d.tasks
    && (x.index.Some? <==> x.taskId in d.under)
    && (f[x].parent.Some? <==> d.tasks[x.taskId].parentId.Some?)
    && (f[x].parent.Some? ==> d.tasks[x.taskId].parentId == Some(f[x].parent.value.taskId))
    && (forall c | c in f[x].children :: ChildTask(d, c.taskId, x.taskId))
  }

  predicate LinksOk(d: Defs, f: Instances) {
    forall x {:trigger NodeLinks(d, f, x)} | x in f :: NodeLinks(d, f, x)
  }

  /** How far below x the definitions can still go. */
  function Rest(d: Defs, x: InstanceId): nat {
    if x.taskId in d.depth && d.depth[x.taskId] <= d.bound then d.bound - d.depth[x.taskId] + 1 else 0
  }

  lemma ChildIsDeeper(d: Defs, f: Instances, x: InstanceId, c: InstanceId)
    requires DefsOk(d) && LinksOk(d, f) && x in f && c in f[x].children
    ensures c.taskId in d.tasks && Rest(d, c) < Rest(d, x) && d.depth[c.taskId] == d.depth[x.taskId] + 1
  {
    assert NodeLinks(d, f, x);
  }

  /** y is x, or is reached from x along the lists of children. */
  predicate Reach(d: Defs, f: Instances, y: InstanceId, x: InstanceId)
    requires DefsOk(d) && LinksOk(d, f)
    decreases Rest(d, x)
  {
    x in f && (y == x || exists c | c in f[x].children :: (ChildIsDeeper(d, f, x, c); Reach(d, f, y, c)))
  }

  /** Everything that goes when x is removed. */
  function ReachSet(d: Defs, f: Instances, x: InstanceId): set<InstanceId>
    requires DefsOk(d) && LinksOk(d, f)
  {
    set y | y in f && Reach(d, f, y, x)
  }

  lemma {:induction false} ReachIn(d: Defs, f: Instances, y: InstanceId, x: InstanceId)
    requires DefsOk(d) && LinksOk(d, f) && Reach(d, f, y, x)
    ensures x in f && y in f && y.taskId in d.tasks && x.taskId in d.tasks && BelowTask(d, y.taskId, x.taskId)
    ensures y.taskId == x.taskId ==> y == x
    decreases Rest(d, x)
  {
    assert NodeLinks(d, f, x);
    if y != x {
      var c :| c in f[x].children && Reach(d, f, y, c);
      ChildIsDeeper(d, f, x, c);
      ReachIn(d, f, y, c);
      BelowTaskTrans(d, y.taskId, c.taskId, x.taskId);
      BelowTaskDepth(d, y.taskId, c.taskId);
    }
  }

  lemma {:induction false} ReachTrans(d: Defs, f: Instances, y: InstanceId, b: InstanceId, x: InstanceId)
    requires DefsOk(d) && LinksOk(d, f) && Reach(d, f, y, b) && Reach(d, f, b, x)
    ensures Reach(d, f, y, x)
    decreases Rest(d, x)
  {
    if b != x {
      var c :| c in f[x].children && Reach(d, f, b, c);
      ChildIsDeeper(d, f, x, c);
      ReachTrans(d, f, y, b, c);
    }
  }

  // ---- Index sets ----

  function Idx(f: Instances, t: string): set<nat> {
    set x | x in f && x.taskId == t && x.index.Some? :: x.index.value
  }

  lemma IdxHas(f: Instances, t: string, i: nat)
    ensures i in Idx(f, t) <==> InstanceId(t, Some(i)) in f
  {
    if i in Idx(f, t) {
      var x :| x in f && x.taskId == t && x.index == Some(i);
      assert x == InstanceId(t, Some(i));
    }
    if InstanceId(t, Some(i)) in f {
      assert InstanceId(t, Some(i)).index.value in Idx(f, t);
    }
  }

  // ---- Soundness: as long as ids do not collide ----

  /** The parent exists and lists x; the group is the parent's, except that a repeatable instance may start its own. */
  predicate ParentOk(d: Defs, f: Instances, x: InstanceId)
    requires x in f && x.taskId in d.tasks
  {
    f[x].parent.Some? ==>
      var p := f[x].parent.value;
      p in f && x in f[p].children && (d.tasks[x.taskId].repeatable || f[x].groupId == f[p].groupId)
  }

  /**
    A child of a repeatable instance carries its index, unless it is a repeatable instance that was
    added on its own.
   */
  predicate IndexFits(d: Defs, x: InstanceId, c: InstanceId) {
    x.taskId in d.tasks && c.taskId in d.tasks && (d.tasks[x.taskId].repeatable ==>
                                                     d.tasks[c.taskId].repeatable || c.index == x.index)
  }

  /** The children exist, name x as their parent, are listed once, and only repeatable tasks occur more than once. */
  predicate ChildrenOk(d: Defs, f: Instances, x: InstanceId)
    requires x in f
  {
    && NoDuplicates(f[x].children)
    && (forall c | c in f[x].children :: c in f && f[c].parent == Some(x) && IndexFits(d, x, c))
    && (forall c, c' | c in f[x].children && c' in f[x].children && c.taskId == c'.taskId && c != c' ::
          c.taskId in d.tasks && d.tasks[c.taskId].repeatable)
  }

  predicate NodeOk(d: Defs, f: Instances, x: InstanceId)
    requires x in f
  {
    NodeLinks(d, f, x) && ParentOk(d, f, x) && ChildrenOk(d, f, x)
  }

  predicate Sound(d: Defs, f: Instances) {
    forall x {:trigger NodeOk(d, f, x)} | x in f :: NodeOk(d, f, x)
  }

  lemma SoundLinks(d: Defs, f: Instances)
    requires Sound(d, f)
    ensures LinksOk(d, f)
  {
    forall x | x in f ensures NodeLinks(d, f, x) {
      assert NodeOk(d, f, x);
    }
  }

  predicate HasChildOf(f: Instances, x: InstanceId, c: string)
    requires x in f
  {
    exists y :: y in f[x].children && y.taskId == c
  }

  /** Neither repeatable nor a mapping target: such a child is created with its parent and only goes with it. */
  predicate Fixed(d: Defs, c: string) {
    c in d.tasks && !d.tasks[c].repeatable && d.tasks[c].mappings == []
  }

  predicate Complete(d: Defs, f: Instances, x: InstanceId)
    requires x in f
  {
    x.taskId in d.tasks && forall c | c in d.tasks[x.taskId].childrenIds && Fixed(d, c) :: HasChildOf(f, x, c)
  }

  predicate AllComplete(d: Defs, f: Instances) {
    forall x {:trigger Complete(d, f, x)} | x in f :: Complete(d, f, x)
  }

  // ---- Upwards, in a sound forest ----

  function Height(d: Defs, x: InstanceId): nat {
    if x.taskId in d.depth then d.depth[x.taskId] + 1 else 0
  }

  /** x is a, or its parent is below a. */
  predicate Below(d: Defs, f: Instances, x: InstanceId, a: InstanceId)
    requires DefsOk(d) && Sound(d, f)
    decreases Height(d, x)
  {
    x in f && (x == a || (f[x].parent.Some? && (assert NodeOk(d, f, x); Below(d, f, f[x].parent.value, a))))
  }

  lemma {:induction false} BelowTrans(d: Defs, f: Instances, x: InstanceId, b: InstanceId, a: InstanceId)
    requires DefsOk(d) && Sound(d, f) && Below(d, f, x, b) && Below(d, f, b, a)
    ensures Below(d, f, x, a)
    decreases Height(d, x)
  {
    if x != b {
      assert NodeOk(d, f, x);
      BelowTrans(d, f, f[x].parent.value, b, a);
    }
  }

  /** In a sound forest the two ways of seeing a subtree agree: down the lists of children and up the parents. */
  lemma {:induction false} ReachIsBelow(d: Defs, f: Instances, y: InstanceId, x: InstanceId)
    requires DefsOk(d) && Sound(d, f) && LinksOk(d, f)
    ensures Reach(d, f, y, x) ==> Below(d, f, y, x)
    decreases Rest(d, x)
  {
    if Reach(d, f, y, x) && y != x {
      var c :| c in f[x].children && Reach(d, f, y, c);
      ChildIsDeeper(d, f, x, c);
      ReachIsBelow(d, f, y, c);
      assert NodeOk(d, f, x) && NodeOk(d, f, c);
      assert Below(d, f, c, x);
      BelowTrans(d, f, y, c, x);
    }
  }

  lemma {:induction false} BelowIsReach(d: Defs, f: Instances, y: InstanceId, x: InstanceId)
    requires DefsOk(d) && Sound(d, f) && LinksOk(d, f) && Below(d, f, y, x)
    ensures Reach(d, f, y, x)
    decreases Height(d, y)
  {
    assert NodeOk(d, f, y);
    if y != x {
      var p := f[y].parent.value;
      BelowIsReach(d, f, p, x);
      ReachIn(d, f, p, x);
      assert Reach(d, f, y, y);
      assert Reach(d, f, y, p);
      ReachTrans(d, f, y, p, x);
    }
  }

  /** x starts a group of its own although its parent has one. */
  predicate StartsGroup(f: Instances, x: InstanceId) {
    x in f && f[x].parent.Some? && f[x].parent.value in f && f[x].groupId != f[f[x].parent.value].groupId
  }

  /**
    Everything below a shares its group, except below an instance in between that starts its own;
    only instances of repeatable tasks can.
   */
  lemma {:induction false} SubtreeGroup(d: Defs, f: Instances, x: InstanceId, a: InstanceId)
    requires DefsOk(d) && Sound(d, f) && Below(d, f, x, a)
    ensures a in f && (f[x].groupId == f[a].groupId || exists z ::
                         StartsGroup(f, z) && z != a && Below(d, f, x, z) && Below(d, f, z, a))
    ensures forall z :: StartsGroup(f, z) ==> z.taskId in d.tasks && d.tasks[z.taskId].repeatable
    decreases Height(d, x)
  {
    forall z | StartsGroup(f, z) ensures z.taskId in d.tasks && d.tasks[z.taskId].repeatable {
      assert NodeOk(d, f, z);
    }
    if x != a {
      assert NodeOk(d, f, x);
      var p := f[x].parent.value;
      SubtreeGroup(d, f, p, a);
      if StartsGroup(f, x) {
        assert Below(d, f, x, x) && Below(d, f, x, a);
      } else if f[p].groupId != f[a].groupId {
        var z :| StartsGroup(f, z) && z != a && Below(d, f, p, z) && Below(d, f, z, a);
        assert Below(d, f, x, p);
        BelowTrans(d, f, x, p, z);
      }
    }
  }

  // ---- Instances that were not added on their own ----

  /** x has the index of its parent if the parent's task is repeatable: it was not added on its own. */
  predicate HasParentIndex(d: Defs, f: Instances, x: InstanceId)
    requires DefsOk(d) && x in f
  {
    x.taskId in d.tasks && HandedDown(d, x.taskId) ==> f[x].parent.Some? && f[x].parent.value.index == x.index
  }

  predicate NoneAdded(d: Defs, f: Instances)
    requires DefsOk(d)
  {
    forall x {:trigger HasParentIndex(d, f, x)} | x in f :: HasParentIndex(d, f, x)
  }

  lemma {:induction false} ChainReach(d: Defs, f: Instances, y: InstanceId, u: string)
    requires DefsOk(d) && LinksOk(d, f) && Sound(d, f) && NoneAdded(d, f) && y in f && y.taskId in d.tasks &&
               Tracks(d, y.taskId, u)
    ensures Reach(d, f, y, InstanceId(u, y.index))
    decreases d.depth[y.taskId]
  {
    if y.taskId != u {
      assert NodeOk(d, f, y) && HasParentIndex(d, f, y);
      var p := f[y].parent.value;
      ChainReach(d, f, p, u);
      assert Reach(d, f, y, y) && Reach(d, f, y, p);
      ReachTrans(d, f, y, p, InstanceId(u, y.index));
    }
  }
}
