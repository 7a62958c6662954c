/**
  Reconciling mapped tasks: syncInstances gives a repeatable target the index set of its source,
  takes from any other target the indices that its source lacks, and leaves a forest that is
  settled alone.
 */
module Sync {
  import opened Wrappers
  import opened InstanceIds
  import opened Schema
  import opened Forest
  import opened Growth
  import opened Removal
  import opened TaskStore
  import opened OutermostRuns

  function Inst(t: string, i: nat): InstanceId {
    InstanceId(t, Some(i))
  }

  // ---- What a removal or a creation does to index sets ----

  /** Removing t[i] takes one index from t and none from tasks that are not below t. */
  lemma PrunedIdx(d: Defs, f: Instances, t: string, i: nat, u: string)
    requires DefsOk(d) && LinksOk(d, f) && u in d.tasks && (u == t || !BelowTask(d, u, t))
    ensures Idx(Prune(f, ReachSet(d, f, Inst(t, i))), u) == if u == t then Idx(f, t) - {i} else Idx(f, u)
  {
    var g := Prune(f, ReachSet(d, f, Inst(t, i)));
    forall j: nat ensures j in Idx(g, u) <==> j in Idx(f, u) && !(u == t && j == i) {
      IdxHas(f, u, j);
      IdxHas(g, u, j);
      if Reach(d, f, Inst(u, j), Inst(t, i)) {
        ReachIn(d, f, Inst(u, j), Inst(t, i));
      }
    }
  }

  // ---- Targets ----

  predicate IsTarget(d: Defs, t: string) {
    t in d.tasks && d.tasks[t].mappings != []
  }

  /** A target has one mapping, and its source does not lie at or below it. */
  predicate MappingOk(d: Defs, t: string)
    requires DefsOk(d)
  {
    t in d.tasks && |d.tasks[t].mappings| == 1 && d.tasks[t].mappings[0] in d.tasks &&
        !BelowTask(d, d.tasks[t].mappings[0], t)
  }

  function SourceOf(d: Defs, t: string): string
    requires IsTarget(d, t)
  {
    d.tasks[t].mappings[0]
  }

  predicate HasMapping(g: Instances, t: string, s: string, i: nat) {
    Inst(t, i) in g && g[Inst(t, i)].mappedFrom == Some(Inst(s, i))
  }

  predicate AllMapped(g: Instances, t: string, s: string) {
    forall i {:trigger HasMapping(g, t, s, i)} | i in Idx(g, t) :: HasMapping(g, t, s, i)
  }

  /** The indices that a target keeps or gets: its source's, or of those the ones it has. */
  function Wanted(d: Defs, f: Instances, t: string, s: string): set<nat>
    requires t in d.tasks
  {
    if d.tasks[t].repeatable then Idx(f, s) else Idx(f, t) * Idx(f, s)
  }

  /** The target is as a reconciliation leaves it. */
  predicate Settled(d: Defs, f: Instances, t: string, s: string)
    requires t in d.tasks
  {
    Idx(f, t) == Wanted(d, f, t, s) && AllMapped(f, t, s)
  }

  /** The target has exactly the indices of its source. */
  predicate InStep(f: Instances, t: string, s: string) {
    Idx(f, t) == Idx(f, s)
  }

  // ---- What a reconciliation keeps ----

  predicate OtherIdxKept(d: Defs, f: Instances, g: Instances, t: string)
    requires DefsOk(d)
  {
    forall u {:trigger Idx(g, u)} | u in d.tasks && !BelowTask(d, u, t) :: Idx(g, u) == Idx(f, u)
  }

  /** How often x lists c as a child. */
  function Times(f: Instances, x: InstanceId, c: InstanceId): nat
    requires x in f
  {
    multiset(f[x].children)[c]
  }

  /** x keeps its parent, group and mapping source, and lists the children that are not below t as before. */
  ghost predicate Keeps(d: Defs, f: Instances, g: Instances, t: string, x: InstanceId)
    requires DefsOk(d) && x in f
  {
    && x in g && g[x].parent == f[x].parent && g[x].groupId == f[x].groupId && g[x].mappedFrom == f[x].mappedFrom
    && forall c: InstanceId {:trigger Times(g, x, c)} | c.taskId in d.tasks && !BelowTask(d, c.taskId, t) ::
         Times(g, x, c) == Times(f, x, c)
  }

  lemma KeepsChild(d: Defs, f: Instances, g: Instances, t: string, x: InstanceId, c: InstanceId)
    requires DefsOk(d) && x in f && Keeps(d, f, g, t, x) && c in f[x].children
    requires c.taskId in d.tasks && !BelowTask(d, c.taskId, t)
    ensures c in g[x].children
  {
    assert Times(g, x, c) == Times(f, x, c);
  }

  ghost predicate OutsideKept(d: Defs, f: Instances, g: Instances, t: string)
    requires DefsOk(d)
  {
    forall x {:trigger Keeps(d, f, g, t, x)} | x in f && x.taskId in d.tasks && !BelowTask(d, x.taskId, t) ::
        Keeps(d, f, g, t, x)
  }

  /**
    If the bare instance of t's parent task exists, it still does, and lists t[i] n times more often
    than before.
   */
  ghost predicate ListedMore(d: Defs, f: Instances, g: Instances, t: string, i: nat, n: nat)
    requires t in d.tasks
  {
    d.tasks[t].parentId.Some? && InstanceId(d.tasks[t].parentId.value, None) in f ==>
      var p := InstanceId(d.tasks[t].parentId.value, None);
      p in g && Times(g, p, Inst(t, i)) == Times(f, p, Inst(t, i)) + n
  }

  /** t[i] has been added below the bare instance of t's parent task, or as a root. */
  ghost predicate AddedBelow(d: Defs, f: Instances, g: Instances, t: string, i: nat)
    requires t in d.tasks
  {
    && Inst(t, i) in g
    && (d.tasks[t].parentId.None? ==> g[Inst(t, i)].parent == None)
    && (d.tasks[t].parentId.Some? ==> g[Inst(t, i)].parent == Some(InstanceId(d.tasks[t].parentId.value, None)))
    && ListedMore(d, f, g, t, i, 1)
  }

  /** In a sound forest that is exactly once. */
  lemma ListedOnce(d: Defs, f: Instances, g: Instances, t: string, i: nat)
    requires Sound(d, f) && t in d.tasks && Inst(t, i) !in f && AddedBelow(d, f, g, t, i)
    ensures forall p | d.tasks[t].parentId == Some(p) && InstanceId(p, None) in f ::
              InstanceId(p, None) in g && multiset(g[InstanceId(p, None)].children)[Inst(t, i)] == 1
  {
    if d.tasks[t].parentId.Some? {
      var p := InstanceId(d.tasks[t].parentId.value, None);
      if p in f {
        assert NodeOk(d, f, p);
        assert Inst(t, i) !in f[p].children;
        assert Times(g, p, Inst(t, i)) == Times(f, p, Inst(t, i)) + 1;
      }
    }
  }

  /** What goes when the instances of t with the given indices are removed. */
  ghost function Gone(d: Defs, f: Instances, t: string, indices: set<nat>): set<InstanceId>
    requires DefsOk(d) && LinksOk(d, f)
  {
    set y | y in f && exists i :: i in indices && Reach(d, f, y, Inst(t, i))
  }

  lemma GoneMore(d: Defs, f: Instances, t: string, indices: set<nat>, i: nat)
    requires DefsOk(d) && LinksOk(d, f)
    ensures Gone(d, f, t, indices + {i}) == Gone(d, f, t, indices) + ReachSet(d, f, Inst(t, i))
  {
    forall y ensures y in Gone(d, f, t, indices + {i}) <==> y in Gone(d, f, t, indices) + ReachSet(d, f, Inst(t, i)) {
      if y in Gone(d, f, t, indices) {
        var j :| j in indices && Reach(d, f, y, Inst(t, j));
        assert j in indices + {i};
      }
      if y in ReachSet(d, f, Inst(t, i)) {
        assert i in indices + {i};
      }
    }
  }

  lemma GoneClosed(d: Defs, f: Instances, t: string, indices: set<nat>)
    requires DefsOk(d) && LinksOk(d, f)
    ensures Closed(d, f, Gone(d, f, t, indices))
  {
    forall x, y | x in Gone(d, f, t, indices) && Reach(d, f, y, x) ensures y in Gone(d, f, t, indices) {
      var i :| i in indices && Reach(d, f, x, Inst(t, i));
      ReachTrans(d, f, y, x, Inst(t, i));
      ReachIn(d, f, y, x);
    }
  }

  /** Reaching and pruning only look at the shape. */
  lemma {:induction false} ReachSameShape(d: Defs, f: Instances, g: Instances, y: InstanceId, x: InstanceId)
    requires DefsOk(d) && LinksOk(d, f) && LinksOk(d, g) && SameShape(f, g)
    ensures Reach(d, g, y, x) ==> Reach(d, f, y, x)
    decreases Rest(d, x)
  {
    if Reach(d, g, y, x) && y != x {
      var c :| c in g[x].children && Reach(d, g, y, c);
      ChildIsDeeper(d, g, x, c);
      ReachSameShape(d, f, g, y, c);
      assert c in f[x].children;
    }
  }

  lemma ReachSetSameShape(d: Defs, f: Instances, g: Instances, x: InstanceId)
    requires DefsOk(d) && LinksOk(d, f) && LinksOk(d, g) && SameShape(f, g)
    ensures ReachSet(d, g, x) == ReachSet(d, f, x)
  {
    forall y ensures y in ReachSet(d, g, x) <==> y in ReachSet(d, f, x) {
      ReachSameShape(d, f, g, y, x);
      ReachSameShape(d, g, f, y, x);
    }
  }

  lemma {:induction false} KeptSameShape(cs: seq<InstanceId>, f: Instances, g: Instances, y: InstanceId,
                                         gone: set<InstanceId>)
    requires SameShape(f, g)
    ensures KeptChildren(cs, f, y, gone) == KeptChildren(cs, g, y, gone)
  {
    if cs != [] {
      KeptSameShape(cs[..|cs| - 1], f, g, y, gone);
    }
  }

  lemma PruneSameShape(f: Instances, g: Instances, gone: set<InstanceId>)
    requires SameShape(f, g)
    ensures SameShape(Prune(f, gone), Prune(g, gone))
  {
    forall x | x in f && x !in gone ensures Prune(g, gone)[x].children == Prune(f, gone)[x].children {
      KeptSameShape(f[x].children, f, g, x, gone);
    }
  }

  // ---- What keeps the forest valid ----

  /** Every target that instances may be created of is outermost. */
  predicate TargetsOutermost(d: Defs) {
    forall t {:trigger IsTarget(d, t)} | t in d.tasks && IsTarget(d, t) && d.tasks[t].repeatable :: Outermost(d, t)
  }

  /** A valid forest in which nothing was added on its own below a target that instances may be created of. */
  ghost predicate Safe(d: Defs, f: Instances)
    requires DefsOk(d)
  {
    && Sound(d, f) && AllComplete(d, f) && Spine(d, f) && TargetsOutermost(d)
    && forall t {:trigger IsTarget(d, t)} | t in d.tasks && IsTarget(d, t) && d.tasks[t].repeatable ::
         NoneAddedBelow(d, f, t)
  }

  /** What is new has the index of its parent if that hands it down, and the rest keeps its parent. */
  lemma AddKeepsIndices(d: Defs, g: Instances, h: Instances, t: string, i: nat, parent: Option<InstanceId>,
                        made: set<InstanceId>, u: string)
    requires DefsOk(d) && t in d.tasks && Outermost(d, t) && Planted(d, g, h, Inst(t, i), parent, made)
    requires NoneAddedBelow(d, g, u)
    ensures NoneAddedBelow(d, h, u)
  {
    forall x | x in h && x.taskId in d.tasks && BelowTask(d, x.taskId, u) ensures HasParentIndex(d, h, x) {
      if x in made {
        assert MadeNode(d, g, h, Inst(t, i), made, |d.tasks[t].childrenIds|, x);
      } else {
        assert HasParentIndex(d, g, x);
      }
    }
  }

  lemma BareParentExists(d: Defs, g: Instances, t: string)
    requires DefsOk(d) && Spine(d, g) && t in d.tasks && Outermost(d, t)
    ensures forall p | d.tasks[t].parentId == Some(p) :: InstanceId(p, None) in g
  {
  }

  lemma SafeAdd(d: Defs, g: Instances, h: Instances, t: string, i: nat, parent: Option<InstanceId>,
                made: set<InstanceId>)
    requires DefsOk(d) && IsTarget(d, t) && d.tasks[t].repeatable && Inst(t, i) !in g && Safe(d, g)
    requires ParentFits(d, Inst(t, i), parent) && Planted(d, g, h, Inst(t, i), parent, made)
    requires parent.Some? ==> parent.value.index == None
    ensures Safe(d, h)
  {
    BareParentExists(d, g, t);
    assert parent.Some? ==> parent.value == InstanceId(d.tasks[t].parentId.value, None);
    forall x | x in g ensures !WillBeMade(d, g, Inst(t, i), x) {
      FreshIsFree(d, g, Inst(t, i), x);
    }
    AddKeepsValid(d, g, h, Inst(t, i), parent, made);
    forall u | u in d.tasks && IsTarget(d, u) && d.tasks[u].repeatable ensures NoneAddedBelow(d, h, u) {
      AddKeepsIndices(d, g, h, t, i, parent, made, u);
    }
  }

  lemma TidyAdd(d: Defs, g: Instances, h: Instances, t: string, i: nat, parent: Option<InstanceId>,
                made: set<InstanceId>)
    requires DefsOk(d) && t in d.tasks && Outermost(d, t) && Inst(t, i) !in g && Tidy(d, g)
    requires ParentFits(d, Inst(t, i), parent) && Planted(d, g, h, Inst(t, i), parent, made)
    requires parent.Some? ==> parent.value.index == None
    ensures Tidy(d, h)
  {
    BareParentExists(d, g, t);
    assert parent.Some? ==> parent.value == InstanceId(d.tasks[t].parentId.value, None);
    AddTidy(d, g, h, Inst(t, i), parent, made);
  }

  lemma SafeRemove(d: Defs, g: Instances, t: string, i: nat)
    requires DefsOk(d) && LinksOk(d, g) && IsTarget(d, t) && Inst(t, i) in g
    ensures Safe(d, g) ==> Safe(d, Prune(g, ReachSet(d, g, Inst(t, i))))
    ensures Tidy(d, g) ==> Tidy(d, Prune(g, ReachSet(d, g, Inst(t, i))))
  {
    assert NodeLinks(d, g, Inst(t, i));
    var h := Prune(g, ReachSet(d, g, Inst(t, i)));
    if Tidy(d, g) {
      RemoveTidy(d, g, Inst(t, i));
    }
    if Safe(d, g) {
      RemoveKeepsValid(d, g, Inst(t, i));
      forall u | u in d.tasks && IsTarget(d, u) && d.tasks[u].repeatable ensures NoneAddedBelow(d, h, u) {
        forall x | x in h && x.taskId in d.tasks && BelowTask(d, x.taskId, u) ensures HasParentIndex(d, h, x) {
          assert HasParentIndex(d, g, x);
        }
      }
    }
  }

  lemma SafeSameShape(d: Defs, g: Instances, h: Instances)
    requires DefsOk(d) && LinksOk(d, g) && SameShape(g, h)
    ensures Safe(d, g) ==> Safe(d, h)
    ensures Tidy(d, g) ==> Tidy(d, h)
  {
    SameShapeLinks(d, g, h);
    SameShapeSound(d, g, h);
    assert forall x | x in h :: HasParentIndex(d, g, x) <==> HasParentIndex(d, h, x);
    if Tidy(d, g) {
      forall x | StartsGroup(h, x) ensures x.taskId in d.tasks && Outermost(d, x.taskId) {
        assert StartsGroup(g, x);
      }
    }
  }

  /** The step from g to h keeps what makes the forest safe, and what makes it tidy. */
  ghost predicate KeepsSafe(d: Defs, g: Instances, h: Instances)
    requires DefsOk(d)
  {
    && (Safe(d, g) ==> Safe(d, h))
    && (TargetsOutermost(d) && Tidy(d, g) ==> Tidy(d, h))
  }

  // ---- Reconciling one target with one source ----

  /** An index that t lacked is added once it has been handled, if it is wanted. */
  ghost predicate PlacedIn(d: Defs, f: Instances, g: Instances, t: string, s: string, todo: set<nat>, i: nat)
    requires t in d.tasks
  {
    if i in Wanted(d, f, t, s) && i !in todo then AddedBelow(d, f, g, t, i) else ListedMore(d, f, g, t, i, 0)
  }

  /** From f to g the indices outside `todo` have been handled. */
  ghost predicate Midway(d: Defs, f: Instances, g: Instances, t: string, s: string, todo: set<nat>)
    requires DefsOk(d) && LinksOk(d, f) && t in d.tasks
  {
    && Idx(g, t) == Idx(f, t) * todo + (Wanted(d, f, t, s) - todo)
    && OtherIdxKept(d, f, g, t)
    && OutsideKept(d, f, g, t)
    && (forall i {:trigger HasMapping(g, t, s, i)} | i in Wanted(d, f, t, s) && i !in todo :: HasMapping(g, t, s, i))
    && AllPlaced(d, f, g, t, s, todo)
    && (Settled(d, f, t, s) ==> g == f)
    && (Wanted(d, f, t, s) <= Idx(f, t) ==> SameShape(Prune(f, Gone(d, f, t, Idx(f, t) - Wanted(d, f, t, s) - todo)),
                                                      g))
  }

  lemma MidwayStart(d: Defs, f: Instances, t: string, s: string)
    requires DefsOk(d) && LinksOk(d, f) && t in d.tasks
    ensures Midway(d, f, f, t, s, Idx(f, t) + Idx(f, s))
  {
    var todo := Idx(f, t) + Idx(f, s);
    assert Idx(f, t) - Wanted(d, f, t, s) - todo == {};
    assert Gone(d, f, t, {}) == {};
    PruneNone(f);
    forall i: nat | i !in Idx(f, t) ensures PlacedIn(d, f, f, t, s, todo, i) {}
    forall x | x in f && x.taskId in d.tasks ensures Keeps(d, f, f, t, x) {}
  }

  ghost predicate AllPlaced(d: Defs, f: Instances, g: Instances, t: string, s: string, todo: set<nat>)
    requires t in d.tasks
  {
    forall i: nat {:trigger PlacedIn(d, f, g, t, s, todo, i)} | i !in Idx(f, t) :: PlacedIn(d, f, g, t, s, todo, i)
  }

  /** Handling an index that t has does not place anything. */
  lemma PlacedSame(d: Defs, f: Instances, g: Instances, h: Instances, t: string, s: string, todo: set<nat>, i: nat)
    requires t in d.tasks && AllPlaced(d, f, g, t, s, todo) && i in Idx(f, t) && SameShape(g, h)
    ensures AllPlaced(d, f, h, t, s, todo - {i})
  {
    forall j: nat | j !in Idx(f, t) ensures PlacedIn(d, f, h, t, s, todo - {i}, j) {
      assert PlacedIn(d, f, g, t, s, todo, j);
    }
  }

  /** Target and source are there: only the mapping source is set. */
  lemma MidwayBoth(d: Defs, f: Instances, g: Instances, t: string, s: string, todo: set<nat>, i: nat)
    requires DefsOk(d) && LinksOk(d, f) && t in d.tasks && Midway(d, f, g, t, s, todo)
    requires i in todo && i in Idx(f, t) && i in Idx(f, s)
    ensures Midway(d, f, Mapped(g, Inst(t, i), Inst(s, i)), t, s, todo - {i})
  {
    var h := Mapped(g, Inst(t, i), Inst(s, i));
    assert i in Idx(g, t);
    IdxHas(g, t, i);
    SameKeysIdx(g, h);
    forall j | j in Wanted(d, f, t, s) && j !in todo - {i} ensures HasMapping(h, t, s, j) {
      assert j == i || HasMapping(g, t, s, j);
    }
    assert Idx(f, t) - Wanted(d, f, t, s) - (todo - {i}) == Idx(f, t) - Wanted(d, f, t, s) - todo;
    forall x | x in f && x.taskId in d.tasks && !BelowTask(d, x.taskId, t) ensures Keeps(d, f, h, t, x) {
      assert Keeps(d, f, g, t, x);
      assert forall c :: Times(h, x, c) == Times(g, x, c);
    }
    PlacedSame(d, f, g, h, t, s, todo, i);
    if Settled(d, f, t, s) {
      assert HasMapping(f, t, s, i);
      assert f[Inst(t, i)].(mappedFrom := Some(Inst(s, i))) == f[Inst(t, i)];
    }
  }

  /** Neither adding nor mapping: nothing is done for this index. */
  lemma MidwaySkip(d: Defs, f: Instances, g: Instances, t: string, s: string, todo: set<nat>, i: nat)
    requires DefsOk(d) && LinksOk(d, f) && t in d.tasks && Midway(d, f, g, t, s, todo)
    requires i in todo && i !in Idx(f, t) && !d.tasks[t].repeatable
    ensures Midway(d, f, g, t, s, todo - {i})
  {
    forall j: nat | j !in Idx(f, t) ensures PlacedIn(d, f, g, t, s, todo - {i}, j) {
      assert PlacedIn(d, f, g, t, s, todo, j);
    }
    assert Idx(f, t) - Wanted(d, f, t, s) - (todo - {i}) == Idx(f, t) - Wanted(d, f, t, s) - todo;
  }

  /** A repeatable target lacks an index of its source: an instance is created and mapped. */
  lemma MidwayAdd(d: Defs, f: Instances, g: Instances, h: Instances, t: string, s: string, todo: set<nat>, i: nat,
                  parent: Option<InstanceId>, made: set<InstanceId>)
    requires DefsOk(d) && LinksOk(d, f) && t in d.tasks && Midway(d, f, g, t, s, todo)
    requires ParentFits(d, Inst(t, i), parent) && Planted(d, g, h, Inst(t, i), parent, made)
    requires i in todo && i !in Idx(f, t) && i in Idx(f, s) && d.tasks[t].repeatable
    requires parent == if d.tasks[t].parentId.Some? then Some(InstanceId(d.tasks[t].parentId.value, None)) else None
    ensures Midway(d, f, Mapped(h, Inst(t, i), Inst(s, i)), t, s, todo - {i})
  {
    var h' := Mapped(h, Inst(t, i), Inst(s, i));
    SameKeysIdx(h, h');
    PlantedIdx(d, g, h, Inst(t, i), parent, made, t);
    forall u | u in d.tasks && !BelowTask(d, u, t) ensures Idx(h', u) == Idx(f, u) {
      PlantedIdx(d, g, h, Inst(t, i), parent, made, u);
    }
    forall j | j in Wanted(d, f, t, s) && j !in todo - {i} ensures HasMapping(h', t, s, j) {
      if j != i {
        assert HasMapping(g, t, s, j);
        OnlyOneOfTask(d, g, h, t, i, parent, made, j);
      }
    }
    AddKeepsOutside(d, f, g, h, t, i, parent, made, Inst(s, i));
    forall j: nat | j !in Idx(f, t) ensures PlacedIn(d, f, h', t, s, todo - {i}, j) {
      PlacedAdd(d, f, g, h, t, s, todo, i, parent, made, j);
    }
  }

  /** The bare instance of the parent task is outside of what is made, and gains t[i] as a child. */
  lemma ParentGainsOne(d: Defs, f: Instances, g: Instances, h: Instances, t: string, i: nat, p: InstanceId,
                       made: set<InstanceId>, j: nat)
    requires DefsOk(d) && t in d.tasks && d.tasks[t].parentId == Some(p.taskId) && OutsideKept(d, f, g, t) && p in f
    requires Planted(d, g, h, Inst(t, i), Some(p), made)
    ensures p in g && p in h && Times(h, p, Inst(t, j)) == Times(g, p, Inst(t, j)) + if j == i then 1 else 0
  {
    if BelowTask(d, p.taskId, t) {
      BelowTaskDepth(d, p.taskId, t);
      assert false;
    }
    assert Keeps(d, f, g, t, p);
    if p in made {
      MadeIsChosen(d, g, h, Inst(t, i), Some(p), made, p);
      assert false;
    }
    assert h[p].children == g[p].children + [Inst(t, i)];
  }

  lemma PlacedAdd(d: Defs, f: Instances, g: Instances, h: Instances, t: string, s: string, todo: set<nat>, i: nat,
                  parent: Option<InstanceId>, made: set<InstanceId>, j: nat)
    requires DefsOk(d) && t in d.tasks && OutsideKept(d, f, g, t) && AllPlaced(d, f, g, t, s, todo)
    requires ParentFits(d, Inst(t, i), parent) && Planted(d, g, h, Inst(t, i), parent, made)
    requires i in todo && i in Wanted(d, f, t, s) && i !in Idx(f, t) && j !in Idx(f, t)
    requires parent == if d.tasks[t].parentId.Some? then Some(InstanceId(d.tasks[t].parentId.value, None)) else None
    ensures PlacedIn(d, f, Mapped(h, Inst(t, i), Inst(s, i)), t, s, todo - {i}, j)
  {
    var h' := Mapped(h, Inst(t, i), Inst(s, i));
    assert PlacedIn(d, f, g, t, s, todo, j);
    if parent.Some? && parent.value in f {
      ParentGainsOne(d, f, g, h, t, i, parent.value, made, j);
      assert h'[parent.value].children == h[parent.value].children;
    }
    if j != i && Inst(t, j) in g {
      OtherOfTask(d, g, h, t, i, parent, made, j);
    }
  }

  /** Another instance of t keeps its parent. */
  lemma OtherOfTask(d: Defs, g: Instances, h: Instances, t: string, i: nat, parent: Option<InstanceId>,
                    made: set<InstanceId>, j: nat)
    requires DefsOk(d) && t in d.tasks && Planted(d, g, h, Inst(t, i), parent, made) && Inst(t, j) in g && j != i
    ensures Inst(t, j) in h && h[Inst(t, j)].parent == g[Inst(t, j)].parent
  {
    if Inst(t, j) in made {
      MadeIsChosen(d, g, h, Inst(t, i), parent, made, Inst(t, j));
    }
  }

  /** Of t itself only t[i] is made. */
  lemma OnlyOneOfTask(d: Defs, g: Instances, h: Instances, t: string, i: nat, parent: Option<InstanceId>,
                      made: set<InstanceId>, j: nat)
    requires DefsOk(d) && t in d.tasks && ParentFits(d, Inst(t, i), parent) &&
               Planted(d, g, h, Inst(t, i), parent, made)
    requires Inst(t, j) in g && j != i
    ensures Inst(t, j) in h && h[Inst(t, j)].mappedFrom == g[Inst(t, j)].mappedFrom
  {
    if Inst(t, j) in made {
      MadeIsChosen(d, g, h, Inst(t, i), parent, made, Inst(t, j));
    }
  }

  lemma AddKeepsOutside(d: Defs, f: Instances, g: Instances, h: Instances, t: string, i: nat,
                        parent: Option<InstanceId>,
                        made: set<InstanceId>, source: InstanceId)
    requires DefsOk(d) && t in d.tasks && OutsideKept(d, f, g, t) && Planted(d, g, h, Inst(t, i), parent, made)
    ensures OutsideKept(d, f, Mapped(h, Inst(t, i), source), t)
  {
    forall x | x in f && x.taskId in d.tasks && !BelowTask(d, x.taskId, t)
      ensures Keeps(d, f, Mapped(h, Inst(t, i), source), t, x) {
      assert Keeps(d, f, g, t, x);
      if x in made {
        MadeIsChosen(d, g, h, Inst(t, i), parent, made, x);
      }
      AddKeepsTimes(d, g, h, t, i, parent, made, source, x);
    }
  }

  lemma AddKeepsTimes(d: Defs, g: Instances, h: Instances, t: string, i: nat, parent: Option<InstanceId>,
                      made: set<InstanceId>, source: InstanceId, x: InstanceId)
    requires DefsOk(d) && t in d.tasks && Planted(d, g, h, Inst(t, i), parent, made) && x in g && x !in made
    ensures x in h
    ensures var h' := Mapped(h, Inst(t, i), source);
            forall c {:trigger Times(h', x, c)} | c != Inst(t, i) :: Times(h', x, c) == Times(g, x, c)
  {
    var h' := Mapped(h, Inst(t, i), source);
    assert h'[x].children == g[x].children || h'[x].children == g[x].children + [Inst(t, i)];
  }

  /** The target has an index that its source lacks: the instance goes. */
  lemma MidwayRemove(d: Defs, f: Instances, g: Instances, t: string, s: string, todo: set<nat>, i: nat)
    requires DefsOk(d) && LinksOk(d, f) && LinksOk(d, g) && t in d.tasks && Midway(d, f, g, t, s, todo)
    requires i in todo && i in Idx(f, t) && i !in Idx(f, s)
    ensures Midway(d, f, Prune(g, ReachSet(d, g, Inst(t, i))), t, s, todo - {i})
  {
    RemoveKeepsIdx(d, f, g, t, i);
    PrunedIdx(d, g, t, i, t);
    RemoveKeepsMapped(d, g, t, s, Wanted(d, f, t, s) - (todo - {i}), i);
    RemoveKeepsOutside(d, f, g, t, i);
    RemoveKeepsPlaced(d, f, g, t, s, todo, i);
    if Wanted(d, f, t, s) <= Idx(f, t) {
      RemoveKeepsShape(d, f, g, t, Idx(f, t) - Wanted(d, f, t, s) - todo, i);
      assert Idx(f, t) - Wanted(d, f, t, s) - (todo - {i}) == Idx(f, t) - Wanted(d, f, t, s) - todo + {i};
    }
  }

  lemma RemoveKeepsIdx(d: Defs, f: Instances, g: Instances, t: string, i: nat)
    requires DefsOk(d) && LinksOk(d, g) && t in d.tasks && OtherIdxKept(d, f, g, t)
    ensures OtherIdxKept(d, f, Prune(g, ReachSet(d, g, Inst(t, i))), t)
  {
    forall u | u in d.tasks && !BelowTask(d, u, t) ensures Idx(Prune(g, ReachSet(d, g, Inst(t, i))), u) == Idx(f, u) {
      PrunedIdx(d, g, t, i, u);
    }
  }

  lemma RemoveKeepsMapped(d: Defs, g: Instances, t: string, s: string, indices: set<nat>, i: nat)
    requires DefsOk(d) && LinksOk(d, g) && t in d.tasks && i !in indices
    requires forall j {:trigger HasMapping(g, t, s, j)} | j in indices :: HasMapping(g, t, s, j)
    ensures forall j {:trigger HasMapping(Prune(g, ReachSet(d, g, Inst(t, i))), t, s, j)} | j in indices ::
              HasMapping(Prune(g, ReachSet(d, g, Inst(t, i))), t, s, j)
  {
    forall j | j in indices ensures HasMapping(Prune(g, ReachSet(d, g, Inst(t, i))), t, s, j) {
      assert HasMapping(g, t, s, j);
      if Reach(d, g, Inst(t, j), Inst(t, i)) {
        ReachIn(d, g, Inst(t, j), Inst(t, i));
      }
    }
  }

  lemma RemoveKeepsPlaced(d: Defs, f: Instances, g: Instances, t: string, s: string, todo: set<nat>, i: nat)
    requires DefsOk(d) && LinksOk(d, g) && t in d.tasks && AllPlaced(d, f, g, t, s, todo) && i in Idx(f, t)
    ensures AllPlaced(d, f, Prune(g, ReachSet(d, g, Inst(t, i))), t, s, todo - {i})
  {
    var gone := ReachSet(d, g, Inst(t, i));
    forall j: nat | j !in Idx(f, t) ensures PlacedIn(d, f, Prune(g, gone), t, s, todo - {i}, j) {
      assert PlacedIn(d, f, g, t, s, todo, j);
      if Inst(t, j) in gone {
        ReachIn(d, g, Inst(t, j), Inst(t, i));
      }
      RemoveKeepsListed(d, f, g, t, i, j);
    }
  }

  /** The bare instance of the parent task stays, and lists the instances of t that stay as before. */
  lemma RemoveKeepsListed(d: Defs, f: Instances, g: Instances, t: string, i: nat, j: nat)
    requires DefsOk(d) && LinksOk(d, g) && t in d.tasks && j != i
    ensures var h := Prune(g, ReachSet(d, g, Inst(t, i)));
            forall p | d.tasks[t].parentId == Some(p) && InstanceId(p, None) in g ::
              InstanceId(p, None) in h
              && Times(h, InstanceId(p, None), Inst(t, j)) == Times(g, InstanceId(p, None), Inst(t, j))
  {
    var gone := ReachSet(d, g, Inst(t, i));
    if d.tasks[t].parentId.Some? && InstanceId(d.tasks[t].parentId.value, None) in g {
      var p := InstanceId(d.tasks[t].parentId.value, None);
      if p in gone {
        ReachIn(d, g, p, Inst(t, i));
        BelowTaskDepth(d, p.taskId, t);
        assert false;
      }
      if Inst(t, j) in gone {
        ReachIn(d, g, Inst(t, j), Inst(t, i));
        assert false;
      }
      KeptTimes(g[p].children, g, p, gone, Inst(t, j));
    }
  }

  lemma RemoveKeeps(d: Defs, f: Instances, g: Instances, t: string, gone: set<InstanceId>, x: InstanceId)
    requires DefsOk(d) && x in f && Keeps(d, f, g, t, x) && x !in gone
    requires forall c: InstanceId | c.taskId in d.tasks && !BelowTask(d, c.taskId, t) :: c !in gone
    ensures Keeps(d, f, Prune(g, gone), t, x)
  {
    forall c: InstanceId | c.taskId in d.tasks && !BelowTask(d, c.taskId, t)
      ensures Times(Prune(g, gone), x, c) == Times(f, x, c) {
      KeptTimes(g[x].children, g, x, gone, c);
      assert Times(g, x, c) == Times(f, x, c);
    }
  }

  lemma RemoveKeepsOutside(d: Defs, f: Instances, g: Instances, t: string, i: nat)
    requires DefsOk(d) && LinksOk(d, g) && OutsideKept(d, f, g, t)
    ensures OutsideKept(d, f, Prune(g, ReachSet(d, g, Inst(t, i))), t)
  {
    var gone := ReachSet(d, g, Inst(t, i));
    forall c: InstanceId | c.taskId in d.tasks && !BelowTask(d, c.taskId, t) ensures c !in gone {
      if c in gone {
        ReachIn(d, g, c, Inst(t, i));
      }
    }
    forall x | x in f && x.taskId in d.tasks && !BelowTask(d, x.taskId, t) ensures Keeps(d, f, Prune(g, gone), t, x) {
      assert Keeps(d, f, g, t, x);
      RemoveKeeps(d, f, g, t, gone, x);
    }
  }

  lemma RemoveKeepsShape(d: Defs, f: Instances, g: Instances, t: string, gone: set<nat>, i: nat)
    requires DefsOk(d) && LinksOk(d, f) && LinksOk(d, g) && SameShape(Prune(f, Gone(d, f, t, gone)), g)
    ensures SameShape(Prune(f, Gone(d, f, t, gone + {i})), Prune(g, ReachSet(d, g, Inst(t, i))))
  {
    var a := Gone(d, f, t, gone);
    var p := Prune(f, a);
    PruneLinks(d, f, a);
    ReachSetSameShape(d, p, g, Inst(t, i));
    PruneSameShape(p, g, ReachSet(d, g, Inst(t, i)));
    GoneClosed(d, f, t, gone);
    PruneMore(d, f, a, Inst(t, i));
    GoneMore(d, f, t, gone, i);
  }

  /**
    What one reconciliation of target t with source s does. What is added hangs below the bare
    instance of the parent task. Without additions the rest of the forest only loses what the removed
    instances reach.
   */
  ghost predicate Reconciled(d: Defs, f: Instances, g: Instances, t: string, s: string)
    requires DefsOk(d) && LinksOk(d, f) && t in d.tasks
  {
    && Idx(g, t) == Wanted(d, f, t, s) && AllMapped(g, t, s)
    && OtherIdxKept(d, f, g, t) && OutsideKept(d, f, g, t)
    && (forall i {:trigger AddedBelow(d, f, g, t, i)} | i in Idx(g, t) && i !in Idx(f, t) :: AddedBelow(d, f, g, t, i))
    && (Settled(d, f, t, s) ==> g == f)
    && (Wanted(d, f, t, s) <= Idx(f, t) ==> SameShape(Prune(f, Gone(d, f, t, Idx(f, t) - Wanted(d, f, t, s))), g))
  }

  lemma MidwayDone(d: Defs, f: Instances, g: Instances, t: string, s: string)
    requires DefsOk(d) && LinksOk(d, f) && t in d.tasks && Midway(d, f, g, t, s, {})
    ensures Reconciled(d, f, g, t, s)
  {
    assert Idx(g, t) == Wanted(d, f, t, s);
    forall i | i in Idx(g, t) && i !in Idx(f, t) ensures AddedBelow(d, f, g, t, i) {
      assert PlacedIn(d, f, g, t, s, {}, i);
    }
    assert Idx(f, t) - Wanted(d, f, t, s) - {} == Idx(f, t) - Wanted(d, f, t, s);
  }

  /** The indices of a task's instances (the keys of byIndex). */
  method ByIndex(store: TaskStore, t: string) returns (r: set<nat>)
    ensures r == Idx(store.instances, t)
  {
    r := {};
    var todo := store.instances.Keys;
    while todo != {}
      invariant todo <= store.instances.Keys
      invariant r == set x | x in store.instances && x !in todo && x.taskId == t && x.index.Some? :: x.index.value
      decreases todo
    {
      var x :| x in todo;
      todo := todo - {x};
      if x.taskId == t && x.index.Some? {
        r := r + {x.index.value};
      }
    }
  }

  lemma AddIsSafe(d: Defs, g: Instances, h: Instances, t: string, i: nat, parent: Option<InstanceId>,
                  made: set<InstanceId>)
    requires DefsOk(d) && t in d.tasks && d.tasks[t].repeatable && Inst(t, i) !in g
    requires ParentFits(d, Inst(t, i), parent) && Planted(d, g, h, Inst(t, i), parent, made)
    requires parent.Some? ==> parent.value.index == None
    ensures IsTarget(d, t) ==> KeepsSafe(d, g, h)
  {
    if IsTarget(d, t) {
      if Safe(d, g) {
        SafeAdd(d, g, h, t, i, parent, made);
      }
      if TargetsOutermost(d) && Tidy(d, g) {
        TidyAdd(d, g, h, t, i, parent, made);
      }
    }
  }

  /** The source has an index that the target lacks. */
  method AddIndex(store: TaskStore, t: string, s: string, i: nat, ghost f: Instances, ghost todo: set<nat>)
    requires store.Ready() && t in store.d.tasks && LinksOk(store.d, f) &&
               Midway(store.d, f, store.instances, t, s, todo)
    requires i in todo && i in Idx(f, s) && i !in Idx(f, t) && Inst(t, i) !in store.instances
    modifies store
    ensures store.Ready() && Midway(store.d, f, store.instances, t, s, todo - {i})
    ensures IsTarget(store.d, t) ==> KeepsSafe(store.d, old(store.instances), store.instances)
  {
    ghost var d, g := store.d, store.instances;
    var parentId := store.flatTasks[t].parentId;
    var parent := if parentId.Some? then Some(InstanceId(parentId.value, None)) else None;
    var added;
    ghost var made;
    added, made := store.AddRepeatableTaskInstance(t, parent, Some(i));
    ghost var h := store.instances;
    if added.Some? {
      MidwayAdd(d, f, g, h, t, s, todo, i, parent, made);
      AddIsSafe(d, g, h, t, i, parent, made);
      SafeSameShape(d, h, Mapped(h, Inst(t, i), Inst(s, i)));
      store.SetInstanceMappingSource(added.value, Inst(s, i));
    } else {
      MidwaySkip(d, f, g, t, s, todo, i);
    }
  }

  /** One turn of the loop over the indices of target and source. */
  method SyncIndex(store: TaskStore, t: string, s: string, i: nat, sourceHas: bool, targetHas: bool,
                   ghost f: Instances, ghost todo: set<nat>)
    requires store.Ready() && t in store.d.tasks && LinksOk(store.d, f) &&
               Midway(store.d, f, store.instances, t, s, todo)
    requires i in todo && sourceHas == (i in Idx(f, s)) && targetHas == (i in Idx(f, t)) && (sourceHas || targetHas)
    modifies store
    ensures store.Ready() && Midway(store.d, f, store.instances, t, s, todo - {i})
    ensures IsTarget(store.d, t) ==> KeepsSafe(store.d, old(store.instances), store.instances)
  {
    ghost var d, g := store.d, store.instances;
    IdxHas(g, t, i);
    assert Inst(t, i) in g <==> targetHas;
    if sourceHas && targetHas {
      MidwayBoth(d, f, g, t, s, todo, i);
      SafeSameShape(d, g, Mapped(g, Inst(t, i), Inst(s, i)));
      store.SetInstanceMappingSource(Inst(t, i), Inst(s, i));
    } else if sourceHas {
      AddIndex(store, t, s, i, f, todo);
    } else {
      MidwayRemove(d, f, g, t, s, todo, i);
      if IsTarget(d, t) {
        SafeRemove(d, g, t, i);
      }
      store.RemoveRepeatableTaskInstance(Inst(t, i));
    }
  }

  /** The body of syncInstances for one mapping. */
  method SyncMapping(store: TaskStore, t: string, s: string)
    requires store.Ready() && t in store.d.tasks && s in store.d.tasks
    modifies store
    ensures store.Ready() && Reconciled(store.d, old(store.instances), store.instances, t, s)
    ensures IsTarget(store.d, t) ==> KeepsSafe(store.d, old(store.instances), store.instances)
  {
    ghost var f := store.instances;
    var sources := ByIndex(store, s);
    var targets := ByIndex(store, t);
    var todo := sources + targets;
    MidwayStart(store.d, f, t, s);
    assert todo == Idx(f, t) + Idx(f, s);
    while todo != {}
      invariant store.Ready() && Midway(store.d, f, store.instances, t, s, todo)
      invariant IsTarget(store.d, t) ==> KeepsSafe(store.d, f, store.instances)
      invariant todo <= sources + targets
      decreases todo
    {
      var i :| i in todo;
      SyncIndex(store, t, s, i, i in sources, i in targets, f, todo);
      todo := todo - {i};
    }
    MidwayDone(store.d, f, store.instances, t, s);
  }

  /**
    After its reconciliation a target is in step exactly when it is repeatable or had all the indices
    of its source.
   */
  lemma StepIff(d: Defs, f: Instances, g: Instances, t: string, s: string)
    requires DefsOk(d) && LinksOk(d, f) && t in d.tasks && s in d.tasks && !BelowTask(d, s, t) &&
               Reconciled(d, f, g, t, s)
    ensures Settled(d, g, t, s)
    ensures InStep(g, t, s) <==> d.tasks[t].repeatable || Idx(f, s) <= Idx(f, t)
  {
    assert Idx(g, s) == Idx(f, s);
  }

  // ---- All mappings, in the order of the definitions ----

  /** If both positions hold targets, the one at j is not at or above the source of the one at k. */
  predicate SourceBefore(d: Defs, order: seq<string>, k: nat, j: nat)
    requires DefsOk(d) && k < |order| && j < |order|
  {
    IsTarget(d, order[k]) && IsTarget(d, order[j]) && MappingOk(d, order[k]) ==>
        !BelowTask(d, SourceOf(d, order[k]), order[j])
  }

  /** The task at position j is not above the one at position k. */
  predicate NotAbove(d: Defs, order: seq<string>, k: nat, j: nat)
    requires DefsOk(d) && k < |order| && j < |order|
  {
    order[k] in d.tasks ==> !BelowTask(d, order[k], order[j])
  }

  /**
    The order lists every task once and parents before their children, and a source is final
    before its targets are reconciled: no target from position k on is at or above the source of
    the target at position k.
   */
  predicate OrderOk(d: Defs, order: seq<string>)
    requires DefsOk(d)
  {
    && (forall t | t in d.tasks :: t in order)
    && (forall t | t in order :: t in d.tasks)
    && NoDuplicates(order)
    && (forall t {:trigger MappingOk(d, t)} | t in d.tasks && IsTarget(d, t) :: MappingOk(d, t))
    && (forall k, j {:trigger NotAbove(d, order, k, j)} | 0 <= k < j < |order| :: NotAbove(d, order, k, j))
    && (forall k, j {:trigger SourceBefore(d, order, k, j)} | 0 <= k <= j < |order| :: SourceBefore(d, order, k, j))
  }

  predicate SettledAt(d: Defs, f: Instances, order: seq<string>, j: nat)
    requires j < |order|
  {
    IsTarget(d, order[j]) ==> Settled(d, f, order[j], SourceOf(d, order[j]))
  }

  predicate SettledUpTo(d: Defs, f: Instances, order: seq<string>, k: nat)
    requires k <= |order|
  {
    forall j {:trigger SettledAt(d, f, order, j)} | 0 <= j < k :: SettledAt(d, f, order, j)
  }

  predicate AllSettled(d: Defs, f: Instances) {
    forall t {:trigger IsTarget(d, t)} | t in d.tasks && IsTarget(d, t) :: Settled(d, f, t, SourceOf(d, t))
  }

  /** Reconciling a later target leaves an earlier one settled. */
  lemma EarlierSettled(d: Defs, f: Instances, g: Instances, order: seq<string>, j: nat, k: nat)
    requires DefsOk(d) && LinksOk(d, f) && OrderOk(d, order) && j < k < |order|
    requires IsTarget(d, order[j]) && IsTarget(d, order[k]) && Reconciled(d, f, g, order[k], SourceOf(d, order[k]))
    requires Settled(d, f, order[j], SourceOf(d, order[j]))
    ensures Settled(d, g, order[j], SourceOf(d, order[j]))
  {
    var t, u := order[k], order[j];
    assert MappingOk(d, u) && SourceBefore(d, order, j, k) && NotAbove(d, order, j, k);
    SettledElsewhere(d, f, g, t, u, SourceOf(d, u));
  }

  lemma SettledElsewhere(d: Defs, f: Instances, g: Instances, t: string, u: string, s: string)
    requires DefsOk(d) && u in d.tasks && s in d.tasks && !BelowTask(d, u, t) && !BelowTask(d, s, t)
    requires OtherIdxKept(d, f, g, t) && OutsideKept(d, f, g, t) && Settled(d, f, u, s)
    ensures Settled(d, g, u, s)
  {
    assert Idx(g, u) == Idx(f, u) && Idx(g, s) == Idx(f, s);
    forall i | i in Idx(g, u) ensures HasMapping(g, u, s, i) {
      assert HasMapping(f, u, s, i) && Keeps(d, f, g, t, Inst(u, i));
    }
  }

  ghost predicate SyncStep(d: Defs, order: seq<string>, run: seq<Instances>, k: nat)
    requires DefsOk(d) && k < |order| && k + 1 < |run|
  {
    && LinksOk(d, run[k])
    && if IsTarget(d, order[k]) then Reconciled(d, run[k], run[k + 1], order[k], SourceOf(d, order[k]))
       else run[k + 1] == run[k]
  }

  /** The forests between the turns of the outer loop. */
  ghost predicate SyncRun(d: Defs, order: seq<string>, run: seq<Instances>)
    requires DefsOk(d)
  {
    && 0 < |run| <= |order| + 1
    && forall k {:trigger SyncStep(d, order, run, k)} | 0 <= k < |run| - 1 :: SyncStep(d, order, run, k)
  }

  /** One turn of the outer loop, seen from one position. */
  lemma SettledTurn(d: Defs, order: seq<string>, run: seq<Instances>, k: nat, j: nat)
    requires DefsOk(d) && OrderOk(d, order) && j <= k < |order| && k + 1 < |run| && SyncStep(d, order, run, k)
    requires j < k ==> SettledAt(d, run[k], order, j)
    ensures SettledAt(d, run[k + 1], order, j)
  {
    if IsTarget(d, order[j]) && IsTarget(d, order[k]) {
      if j < k {
        EarlierSettled(d, run[k], run[k + 1], order, j, k);
      } else {
        assert MappingOk(d, order[k]);
        StepIff(d, run[k], run[k + 1], order[k], SourceOf(d, order[k]));
      }
    }
  }

  lemma SettledStep(d: Defs, order: seq<string>, run: seq<Instances>, k: nat)
    requires DefsOk(d) && OrderOk(d, order) && k < |order| && k + 1 < |run| && SyncStep(d, order, run, k)
    requires SettledUpTo(d, run[k], order, k)
    ensures SettledUpTo(d, run[k + 1], order, k + 1)
  {
    var g := run[k + 1];
    forall j | 0 <= j < k + 1 ensures SettledAt(d, g, order, j) {
      SettledTurn(d, order, run, k, j);
    }
  }

  lemma AllSettledAtTheEnd(d: Defs, f: Instances, order: seq<string>)
    requires DefsOk(d) && OrderOk(d, order) && SettledUpTo(d, f, order, |order|)
    ensures AllSettled(d, f)
  {
    forall t | t in d.tasks && IsTarget(d, t) ensures Settled(d, f, t, SourceOf(d, t)) {
      assert t in order;
      var j :| 0 <= j < |order| && order[j] == t;
      assert SettledAt(d, f, order, j);
    }
  }

  /** No target is at or above the task u. */
  predicate NoTargetAbove(d: Defs, u: string)
    requires DefsOk(d) && u in d.tasks
  {
    forall t | t in d.tasks && IsTarget(d, t) :: !BelowTask(d, u, t)
  }

  lemma OthersStep(d: Defs, order: seq<string>, run: seq<Instances>, k: nat, u: string)
    requires DefsOk(d) && k < |order| && k + 1 < |run| && SyncStep(d, order, run, k)
    requires u in d.tasks && NoTargetAbove(d, u)
    ensures Idx(run[k + 1], u) == Idx(run[k], u)
  {
  }

  /** No other target is above t. */
  predicate AloneAbove(d: Defs, t: string)
    requires DefsOk(d) && t in d.tasks
  {
    forall u {:trigger IsTarget(d, u)} | u in d.tasks && IsTarget(d, u) && u != t :: !BelowTask(d, t, u)
  }

  /** x keeps its parent, and lists the instances of t as before. */
  ghost predicate SameParentAndList(f: Instances, g: Instances, t: string, x: InstanceId)
    requires x in f
  {
    x in g && g[x].parent == f[x].parent && forall i: nat {:trigger Inst(t, i)} ::
      Times(g, x, Inst(t, i)) == Times(f, x, Inst(t, i))
  }

  /** Turns of targets that t does not lie below leave t and what is above it alone. */
  lemma {:induction false} OutsideRun(d: Defs, order: seq<string>, run: seq<Instances>, a: nat, b: nat, t: string)
    requires DefsOk(d) && SyncRun(d, order, run) && a <= b < |run| && t in d.tasks
    requires forall j | a <= j < b :: IsTarget(d, order[j]) ==> !BelowTask(d, t, order[j])
    ensures Idx(run[b], t) == Idx(run[a], t)
    ensures forall x {:trigger SameParentAndList(run[a], run[b], t, x)} |
              x in run[a] && x.taskId in d.tasks && BelowTask(d, t, x.taskId) ::
              SameParentAndList(run[a], run[b], t, x)
    decreases b
  {
    if a < b {
      OutsideRun(d, order, run, a, b - 1, t);
      assert SyncStep(d, order, run, b - 1);
      forall x | x in run[a] && x.taskId in d.tasks && BelowTask(d, t, x.taskId)
        ensures SameParentAndList(run[a], run[b], t, x) {
        assert SameParentAndList(run[a], run[b - 1], t, x);
        OutsideTurn(d, order, run, b - 1, t, x);
      }
    }
  }

  lemma OutsideTurn(d: Defs, order: seq<string>, run: seq<Instances>, k: nat, t: string, x: InstanceId)
    requires DefsOk(d) && k < |order| && k + 1 < |run| && SyncStep(d, order, run, k) && t in d.tasks
    requires IsTarget(d, order[k]) ==> !BelowTask(d, t, order[k])
    requires x in run[k] && x.taskId in d.tasks && BelowTask(d, t, x.taskId)
    ensures SameParentAndList(run[k], run[k + 1], t, x)
  {
    if IsTarget(d, order[k]) {
      if BelowTask(d, x.taskId, order[k]) {
        BelowTaskTrans(d, t, x.taskId, order[k]);
        assert false;
      }
      assert Keeps(d, run[k], run[k + 1], order[k], x);
      forall i: nat ensures Times(run[k + 1], x, Inst(t, i)) == Times(run[k], x, Inst(t, i)) {
      }
    }
  }

  /** Over the whole reconciliation: what is new of a target hangs below the bare instance of its parent task. */
  lemma AddedInRun(d: Defs, order: seq<string>, run: seq<Instances>, t: string, i: nat)
    requires DefsOk(d) && OrderOk(d, order) && SyncRun(d, order, run) && |run| == |order| + 1
    requires t in d.tasks && IsTarget(d, t) && AloneAbove(d, t)
    requires i in Idx(run[|order|], t) && i !in Idx(run[0], t)
    ensures AddedBelow(d, run[0], run[|order|], t, i)
  {
    assert t in order;
    var k :| 0 <= k < |order| && order[k] == t;
    OutsideRun(d, order, run, 0, k, t);
    assert SyncStep(d, order, run, k);
    OutsideRun(d, order, run, k + 1, |order|, t);
    assert AddedBelow(d, run[k], run[k + 1], t, i);
    AddedAcross(d, run[0], run[k], run[k + 1], run[|order|], t, i);
  }

  /** Every new instance of a target that lies below no other one hangs below the bare instance of its parent task. */
  ghost predicate NewAreBelowParent(d: Defs, f: Instances, g: Instances)
    requires DefsOk(d)
  {
    forall t, i {:trigger AddedBelow(d, f, g, t, i)} |
      t in d.tasks && IsTarget(d, t) && AloneAbove(d, t) && i in Idx(g, t) && i !in Idx(f, t) ::
      AddedBelow(d, f, g, t, i)
  }

  lemma AllAddedInRun(d: Defs, order: seq<string>, run: seq<Instances>)
    requires DefsOk(d) && OrderOk(d, order) && SyncRun(d, order, run) && |run| == |order| + 1
    ensures NewAreBelowParent(d, run[0], run[|order|])
  {
    forall t, i | t in d.tasks && IsTarget(d, t) && AloneAbove(d, t) && i in Idx(run[|order|], t)
        && i !in Idx(run[0], t)
      ensures AddedBelow(d, run[0], run[|order|], t, i) {
      AddedInRun(d, order, run, t, i);
    }
  }

  lemma AddedAcross(d: Defs, f: Instances, g: Instances, h: Instances, last: Instances, t: string, i: nat)
    requires DefsOk(d) && t in d.tasks && AddedBelow(d, g, h, t, i)
    requires forall x {:trigger SameParentAndList(f, g, t, x)} |
               x in f && x.taskId in d.tasks && BelowTask(d, t, x.taskId) :: SameParentAndList(f, g, t, x)
    requires forall x {:trigger SameParentAndList(h, last, t, x)} |
               x in h && x.taskId in d.tasks && BelowTask(d, t, x.taskId) :: SameParentAndList(h, last, t, x)
    ensures AddedBelow(d, f, last, t, i)
  {
    assert SameParentAndList(h, last, t, Inst(t, i));
    if d.tasks[t].parentId.Some? {
      var p := InstanceId(d.tasks[t].parentId.value, None);
      assert BelowTask(d, p.taskId, p.taskId);
      if p in f {
        assert SameParentAndList(f, g, t, p) && SameParentAndList(h, last, t, p);
      }
    }
  }

  lemma SyncRunMore(d: Defs, order: seq<string>, run: seq<Instances>, g: Instances)
    requires DefsOk(d) && SyncRun(d, order, run) && |run| <= |order| && SyncStep(d, order, run + [g], |run| - 1)
    ensures SyncRun(d, order, run + [g])
  {
    var run' := run + [g];
    forall j | 0 <= j < |run'| - 1 ensures SyncStep(d, order, run', j) {
      if j < |run| - 1 {
        assert SyncStep(d, order, run, j);
      }
    }
  }

  /** One turn of the outer loop. */
  method SyncTask(store: TaskStore, order: seq<string>, ghost run: seq<Instances>, k: nat)
    returns (ghost run': seq<Instances>)
    requires store.Ready() && OrderOk(store.d, order) && k < |order| && |run| == k + 1
    requires SyncRun(store.d, order, run) && run[k] == store.instances
    modifies store
    ensures store.Ready() && |run'| == k + 2 && run'[..k + 1] == run && run'[k + 1] == store.instances
    ensures SyncRun(store.d, order, run') && SyncStep(store.d, order, run', k)
    ensures KeepsSafe(store.d, old(store.instances), store.instances)
  {
    var task := store.flatTasks[order[k]];
    if task.mappings != [] {
      assert IsTarget(store.d, order[k]) && MappingOk(store.d, order[k]);
      SyncMapping(store, order[k], task.mappings[0]);
    }
    run' := run + [store.instances];
    SyncRunMore(store.d, order, run, store.instances);
  }

  /**
    syncInstances: afterwards every target is settled, with every instance knowing its source;
    tasks without a target above them keep their indices, and a settled forest is unchanged, so a
    second run does nothing.
   */
  method SyncInstances(store: TaskStore, order: seq<string>) returns (ghost run: seq<Instances>)
    requires store.Ready() && OrderOk(store.d, order)
    modifies store
    ensures store.Ready() && AllSettled(store.d, store.instances)
    ensures forall u | u in store.d.tasks && NoTargetAbove(store.d, u) ::
              Idx(store.instances, u) == Idx(old(store.instances), u)
    ensures AllSettled(store.d, old(store.instances)) ==> store.instances == old(store.instances)
    ensures NewAreBelowParent(store.d, old(store.instances), store.instances)
    ensures Safe(store.d, old(store.instances)) ==> Safe(store.d, store.instances)
    ensures TargetsOutermost(store.d) && Tidy(store.d, old(store.instances)) ==> Tidy(store.d, store.instances)
    ensures SyncRun(store.d, order, run) && |run| == |order| + 1
    ensures run[0] == old(store.instances) && run[|order|] == store.instances
  {
    ghost var d, start := store.d, store.instances;
    run := [start];
    for k := 0 to |order|
      invariant store.Ready() && SettledUpTo(d, store.instances, order, k)
      invariant |run| == k + 1 && run[0] == start && run[k] == store.instances && SyncRun(d, order, run)
      invariant forall u | u in d.tasks && NoTargetAbove(d, u) :: Idx(store.instances, u) == Idx(start, u)
      invariant AllSettled(d, start) ==> store.instances == start
      invariant KeepsSafe(d, start, store.instances)
    {
      ghost var before := run;
      run := SyncTask(store, order, run, k);
      assert run[k] == before[k] && run[0] == before[0];
      SettledStep(d, order, run, k);
      forall u | u in d.tasks && NoTargetAbove(d, u) ensures Idx(store.instances, u) == Idx(start, u) {
        OthersStep(d, order, run, k, u);
      }
    }
    AllSettledAtTheEnd(d, store.instances, order);
    AllAddedInRun(d, order, run);
  }
}
