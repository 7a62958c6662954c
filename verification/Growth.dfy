/**
  What creating an instance does: a whole new subtree, whose ids replace whatever was there under
  them. When none of the ids is taken the forest stays sound.
 */
module Growth {
  import opened Wrappers
  import opened InstanceIds
  import opened Schema
  import opened Forest

  /** n is one above the greatest index of t, or 0 when t has none. */
  predicate IsNextIndex(f: Instances, t: string, n: nat) {
    (forall i | i in Idx(f, t) :: i < n) && (n > 0 ==> n - 1 in Idx(f, t))
  }

  /** The instances belong to the tasks, one by one. */
  predicate OfTasks(cs: seq<InstanceId>, ts: seq<string>) {
    |cs| == |ts| && forall i | 0 <= i < |cs| :: cs[i].taskId == ts[i]
  }

  /** The task lies below one of the first k children of t. */
  predicate BelowFirst(d: Defs, u: string, t: string, k: nat)
    requires DefsOk(d) && u in d.tasks && t in d.tasks && k <= |d.tasks[t].childrenIds|
  {
    exists j :: 0 <= j < k && BelowTask(d, u, d.tasks[t].childrenIds[j])
  }

  /**
    The parent of x was made along with it; x has its index if the parent's task is repeatable, else
    the next one in f.
   */
  predicate MadeUnder(d: Defs, f: Instances, g: Instances, made: set<InstanceId>, x: InstanceId)
    requires x in g && x.taskId in d.tasks
  {
    g[x].parent.Some? &&
    var p := g[x].parent.value;
    && p in made && p in g && x in g[p].children
    && d.tasks[x.taskId].parentId == Some(p.taskId) && p.taskId in d.tasks
    && if d.tasks[p.taskId].repeatable then x.index == p.index else x.index.Some? ==>
        IsNextIndex(f, x.taskId, x.index.value)
  }

  /** One of the instances made at and below id, when the first k children of id are done. */
  predicate MadeNode(d: Defs, f: Instances, g: Instances, id: InstanceId, made: set<InstanceId>, k: nat, x: InstanceId)
    requires DefsOk(d) && id in g && id.taskId in d.tasks && k <= |d.tasks[id.taskId].childrenIds| && x in g
  {
    && x.taskId in d.tasks
    && (x.taskId == id.taskId ==> x == id)
    && (x.index.Some? <==> x.taskId in d.under)
    && g[x].groupId == g[id].groupId && g[x].mappedFrom.None?
    && (x != id ==> BelowFirst(d, x.taskId, id.taskId, k) && MadeUnder(d, f, g, made, x))
    && OfTasks(g[x].children, if x == id then d.tasks[id.taskId].childrenIds[..k] else d.tasks[x.taskId].childrenIds)
    && (forall c | c in g[x].children :: c in made && c in g && g[c].parent == Some(x))
  }

  predicate AllMade(d: Defs, f: Instances, g: Instances, id: InstanceId, made: set<InstanceId>, k: nat)
    requires DefsOk(d) && id in g && id.taskId in d.tasks && k <= |d.tasks[id.taskId].childrenIds| && made <= g.Keys
  {
    forall x {:trigger MadeNode(d, f, g, id, made, k, x)} | x in made :: MadeNode(d, f, g, id, made, k, x)
  }

  /** Instances that were not made again are as they were; only the parent gains id as its last child. */
  predicate OthersKept(f: Instances, g: Instances, id: InstanceId, parent: Option<InstanceId>, made: set<InstanceId>) {
    forall x | x in f && x !in made ::
      x in g && g[x] == if parent == Some(x) then f[x].(children := f[x].children + [id]) else f[x]
  }

  /** From f to g the instance id has been made with its first k children. */
  predicate Planting(d: Defs, f: Instances, g: Instances, id: InstanceId, parent: Option<InstanceId>,
                     made: set<InstanceId>, k: nat)
    requires DefsOk(d) && id.taskId in d.tasks && k <= |d.tasks[id.taskId].childrenIds|
  {
    && id in made && id in g && g.Keys == f.Keys + made
    && g[id].parent == parent
    && OthersKept(f, g, id, parent, made)
    && AllMade(d, f, g, id, made, k)
  }

  /** From f to g the instance id has been made with everything below it. */
  predicate Planted(d: Defs, f: Instances, g: Instances, id: InstanceId, parent: Option<InstanceId>,
                    made: set<InstanceId>)
    requires DefsOk(d) && id.taskId in d.tasks
  {
    Planting(d, f, g, id, parent, made, |d.tasks[id.taskId].childrenIds|)
  }

  // ---- The steps of the loop ----

  /** The map entry written by createTaskInstance, with its id pushed onto the list of an existing parent. */
  function WithNode(f: Instances, x: InstanceId, groupId: nat, parent: Option<InstanceId>): Instances {
    var g := f[x := TaskInstance(groupId, parent, [], None)];
    if parent.Some? && parent.value in g then
      g[parent.value := g[parent.value].(children := g[parent.value].children + [x])]
    else g
  }

  lemma PlantingStart(d: Defs, f: Instances, id: InstanceId, groupId: nat, parent: Option<InstanceId>)
    requires DefsOk(d) && id.taskId in d.tasks && (id.index.Some? <==> id.taskId in d.under) && parent != Some(id)
    ensures Planting(d, f, WithNode(f, id, groupId, parent), id, parent, {id}, 0)
  {
  }

  /** Nothing made so far lies below the next child. */
  lemma NotBelowNext(d: Defs, f: Instances, g: Instances, id: InstanceId, parent: Option<InstanceId>,
                     made: set<InstanceId>, k: nat,
                     x: InstanceId)
    requires DefsOk(d) && id.taskId in d.tasks && k < |d.tasks[id.taskId].childrenIds|
    requires Planting(d, f, g, id, parent, made, k) && x in made
    ensures d.tasks[id.taskId].childrenIds[k] in d.tasks && x.taskId in d.tasks
    ensures !BelowTask(d, x.taskId, d.tasks[id.taskId].childrenIds[k])
  {
    var cs := d.tasks[id.taskId].childrenIds;
    assert MadeNode(d, f, g, id, made, k, x);
    assert cs[k] in cs;
    if BelowTask(d, x.taskId, cs[k]) {
      if x == id {
        BelowTaskDepth(d, id.taskId, cs[k]);
      } else {
        var j :| 0 <= j < k && BelowTask(d, x.taskId, cs[j]);
        assert cs[j] in cs;
        SiblingsApart(d, x.taskId, cs[j], cs[k]);
      }
    }
  }

  /** Tasks below the next child have the instances that they had. */
  lemma NotYetMet(d: Defs, f: Instances, g: Instances, id: InstanceId, parent: Option<InstanceId>,
                  made: set<InstanceId>, k: nat,
                  t: string)
    requires DefsOk(d) && id.taskId in d.tasks && k < |d.tasks[id.taskId].childrenIds|
    requires Planting(d, f, g, id, parent, made, k)
    requires d.tasks[id.taskId].childrenIds[k] in d.tasks && t in d.tasks &&
               BelowTask(d, t, d.tasks[id.taskId].childrenIds[k])
    ensures Idx(g, t) == Idx(f, t)
  {
    forall i: nat ensures i in Idx(g, t) <==> i in Idx(f, t) {
      IdxHas(g, t, i);
      IdxHas(f, t, i);
      var x := InstanceId(t, Some(i));
      if x in made {
        NotBelowNext(d, f, g, id, parent, made, k, x);
      }
    }
  }

  /** What the next child must be like: it has the index that its task hands down, or the next one. */
  predicate NextChild(d: Defs, g: Instances, id: InstanceId, k: nat, y: InstanceId)
    requires id.taskId in d.tasks && k < |d.tasks[id.taskId].childrenIds|
  {
    && y.taskId == d.tasks[id.taskId].childrenIds[k] && y.taskId in d.tasks
    && if d.tasks[id.taskId].repeatable then y.index == id.index else y.index.Some? ==>
        IsNextIndex(g, y.taskId, y.index.value)
  }

  /** What the step needs: g with k children done, h with the next child y and everything below it. */
  predicate StepOk(d: Defs, f: Instances, g: Instances, h: Instances, id: InstanceId, parent: Option<InstanceId>,
                   made: set<InstanceId>, k: nat, y: InstanceId, more: set<InstanceId>)
    requires DefsOk(d) && id.taskId in d.tasks && k < |d.tasks[id.taskId].childrenIds|
  {
    && Planting(d, f, g, id, parent, made, k)
    && NextChild(d, g, id, k, y)
    && Planted(d, g, h, y, Some(id), more)
    && y in h && id in g && h[y].groupId == g[id].groupId
  }

  /** What the child brought lies below it. */
  lemma MoreIsBelow(d: Defs, f: Instances, g: Instances, h: Instances, id: InstanceId, parent: Option<InstanceId>,
                    made: set<InstanceId>, k: nat, y: InstanceId, more: set<InstanceId>, x: InstanceId)
    requires DefsOk(d) && id.taskId in d.tasks && k < |d.tasks[id.taskId].childrenIds|
    requires StepOk(d, f, g, h, id, parent, made, k, y, more) && x in more
    ensures x.taskId in d.tasks && BelowTask(d, x.taskId, y.taskId) && x !in made
    ensures MadeNode(d, g, h, y, more, |d.tasks[y.taskId].childrenIds|, x)
  {
    assert MadeNode(d, g, h, y, more, |d.tasks[y.taskId].childrenIds|, x);
    if x != y {
      var cs := d.tasks[y.taskId].childrenIds;
      var j :| 0 <= j < |cs| && BelowTask(d, x.taskId, cs[j]);
      assert cs[j] in cs && cs[j] in d.tasks && d.tasks[cs[j]].parentId == Some(y.taskId);
      assert BelowTask(d, cs[j], y.taskId);
      BelowTaskTrans(d, x.taskId, cs[j], y.taskId);
    }
    if x in made {
      NotBelowNext(d, f, g, id, parent, made, k, x);
    }
  }

  lemma BelowFirstMore(d: Defs, u: string, t: string, k: nat)
    requires DefsOk(d) && u in d.tasks && t in d.tasks && k < |d.tasks[t].childrenIds|
    ensures BelowFirst(d, u, t, k) ==> BelowFirst(d, u, t, k + 1)
    ensures BelowTask(d, u, d.tasks[t].childrenIds[k]) ==> BelowFirst(d, u, t, k + 1)
  {
  }

  /** Instances made before the step are fine after it. */
  lemma EarlierMade(d: Defs, f: Instances, g: Instances, h: Instances, id: InstanceId, parent: Option<InstanceId>,
                    made: set<InstanceId>, k: nat, y: InstanceId, more: set<InstanceId>, x: InstanceId)
    requires DefsOk(d) && id.taskId in d.tasks && k < |d.tasks[id.taskId].childrenIds|
    requires StepOk(d, f, g, h, id, parent, made, k, y, more) && x in made
    requires forall z | z in more :: z !in made
    ensures x in h && id in h && MadeNode(d, f, h, id, made + more, k + 1, x)
  {
    assert MadeNode(d, f, g, id, made, k, x);
    assert x in g && x !in more && id !in more;
    assert h[x] == if x == id then g[x].(children := g[x].children + [y]) else g[x];
    assert h[id].groupId == g[id].groupId;
    if x != id {
      BelowFirstMore(d, x.taskId, id.taskId, k);
      var p := g[x].parent.value;
      assert p in made && p !in more;
      assert h[p].children == if p == id then g[p].children + [y] else g[p].children;
    } else {
      var cs := d.tasks[id.taskId].childrenIds;
      assert cs[..k + 1] == cs[..k] + [cs[k]];
    }
    forall c | c in h[x].children ensures c in made + more && c in h && h[c].parent == Some(x) {
      if c in g[x].children {
        assert c in made && c !in more;
        assert h[c].parent == g[c].parent;
      } else {
        assert c == y;
      }
    }
  }

  /** Instances made in the step are fine. */
  lemma LaterMade(d: Defs, f: Instances, g: Instances, h: Instances, id: InstanceId, parent: Option<InstanceId>,
                  made: set<InstanceId>, k: nat, y: InstanceId, more: set<InstanceId>, x: InstanceId)
    requires DefsOk(d) && id.taskId in d.tasks && k < |d.tasks[id.taskId].childrenIds|
    requires StepOk(d, f, g, h, id, parent, made, k, y, more) && x in more
    requires forall z | z in more :: z !in made
    ensures x in h && id in h && MadeNode(d, f, h, id, made + more, k + 1, x)
  {
    var cs := d.tasks[id.taskId].childrenIds;
    MoreIsBelow(d, f, g, h, id, parent, made, k, y, more, x);
    assert MadeNode(d, f, g, id, made, k, id);
    assert h[id] == g[id].(children := g[id].children + [y]);
    BelowFirstMore(d, x.taskId, id.taskId, k);
    assert cs[k] in cs && d.tasks[y.taskId].parentId == Some(id.taskId);
    if x.taskId == id.taskId {
      BelowTaskDepth(d, x.taskId, y.taskId);
    }
    NotYetMet(d, f, g, id, parent, made, k, x.taskId);
    if x == y {
      assert d.tasks[y.taskId].childrenIds[..|d.tasks[y.taskId].childrenIds|] == d.tasks[y.taskId].childrenIds;
      assert y in h[id].children;
    }
  }

  lemma OthersKeptStep(f: Instances, g: Instances, h: Instances, id: InstanceId, parent: Option<InstanceId>,
                       made: set<InstanceId>, y: InstanceId, more: set<InstanceId>)
    requires id in made && OthersKept(f, g, id, parent, made) && OthersKept(g, h, y, Some(id), more)
    ensures OthersKept(f, h, id, parent, made + more)
  {
  }

  lemma AllMadeStep(d: Defs, f: Instances, g: Instances, h: Instances, id: InstanceId, parent: Option<InstanceId>,
                    made: set<InstanceId>, k: nat, y: InstanceId, more: set<InstanceId>)
    requires DefsOk(d) && id.taskId in d.tasks && k < |d.tasks[id.taskId].childrenIds|
    requires StepOk(d, f, g, h, id, parent, made, k, y, more)
    requires made + more <= h.Keys && id in h && forall z | z in more :: z !in made
    ensures AllMade(d, f, h, id, made + more, k + 1)
  {
    forall x | x in made + more ensures MadeNode(d, f, h, id, made + more, k + 1, x) {
      if x in made {
        EarlierMade(d, f, g, h, id, parent, made, k, y, more, x);
      } else {
        LaterMade(d, f, g, h, id, parent, made, k, y, more, x);
      }
    }
  }

  /** One more child. */
  lemma PlantingStep(d: Defs, f: Instances, g: Instances, h: Instances, id: InstanceId, parent: Option<InstanceId>,
                     made: set<InstanceId>, k: nat, y: InstanceId, more: set<InstanceId>)
    requires DefsOk(d) && id.taskId in d.tasks && k < |d.tasks[id.taskId].childrenIds|
    requires StepOk(d, f, g, h, id, parent, made, k, y, more)
    ensures Planting(d, f, h, id, parent, made + more, k + 1)
  {
    forall z | z in more ensures z !in made {
      MoreIsBelow(d, f, g, h, id, parent, made, k, y, more, z);
    }
    AllMadeStep(d, f, g, h, id, parent, made, k, y, more);
    assert id !in more && h[id].parent == g[id].parent;
    OthersKeptStep(f, g, h, id, parent, made, y, more);
  }

  // ---- Which ids are made ----

  predicate IsGreatest(s: set<nat>, m: nat) {
    m in s && forall i | i in s :: i <= m
  }

  lemma {:induction false} Greatest(s: set<nat>) returns (m: nat)
    requires s != {}
    ensures IsGreatest(s, m)
  {
    var x :| x in s;
    var rest := s - {x};
    assert forall i | i in s :: i == x || i in rest;
    if rest == {} {
      m := x;
    } else {
      var n := Greatest(rest);
      m := if x < n then n else x;
    }
  }

  lemma NextIndexExists(f: Instances, t: string)
    ensures exists n: nat :: IsNextIndex(f, t, n)
  {
    if Idx(f, t) == {} {
      assert IsNextIndex(f, t, 0);
    } else {
      var m := Greatest(Idx(f, t));
      assert IsNextIndex(f, t, m + 1);
    }
  }

  ghost function NextIndex(f: Instances, t: string): (n: nat)
    ensures IsNextIndex(f, t, n)
  {
    NextIndexExists(f, t);
    var n: nat :| IsNextIndex(f, t, n);
    n
  }

  /** The index that the instance of u gets when id is made. */
  ghost function ChosenIndex(d: Defs, f: Instances, id: InstanceId, u: string): Option<nat>
    requires DefsOk(d) && u in d.tasks && BelowTask(d, u, id.taskId)
    decreases d.depth[u]
  {
    if u == id.taskId then id.index
    else if HandedDown(d, u) then ChosenIndex(d, f, id, d.tasks[u].parentId.value)
    else if u in d.under then Some(NextIndex(f, u))
    else None
  }

  /** The id of the instance of u that is made along with id. */
  ghost function ChosenId(d: Defs, f: Instances, id: InstanceId, u: string): InstanceId
    requires DefsOk(d) && u in d.tasks && BelowTask(d, u, id.taskId)
  {
    InstanceId(u, ChosenIndex(d, f, id, u))
  }

  /** x is made along with id, as far as one can tell before. */
  ghost predicate WillBeMade(d: Defs, f: Instances, id: InstanceId, x: InstanceId)
    requires DefsOk(d)
  {
    x.taskId in d.tasks && BelowTask(d, x.taskId, id.taskId) && x == ChosenId(d, f, id, x.taskId)
  }

  lemma BelowFirstIsBelow(d: Defs, u: string, t: string, k: nat)
    requires DefsOk(d) && u in d.tasks && t in d.tasks && k <= |d.tasks[t].childrenIds| && BelowFirst(d, u, t, k)
    ensures BelowTask(d, u, t)
  {
    var cs := d.tasks[t].childrenIds;
    var j :| 0 <= j < k && BelowTask(d, u, cs[j]);
    assert cs[j] in cs && d.tasks[cs[j]].parentId == Some(t);
    assert BelowTask(d, cs[j], t);
    BelowTaskTrans(d, u, cs[j], t);
  }

  lemma {:induction false} MadeIsChosen(d: Defs, f: Instances, g: Instances, id: InstanceId, parent: Option<InstanceId>,
                                        made: set<InstanceId>, x: InstanceId)
    requires DefsOk(d) && id.taskId in d.tasks && Planted(d, f, g, id, parent, made) && x in made
    ensures x.taskId in d.tasks && WillBeMade(d, f, id, x)
    decreases if x.taskId in d.tasks then d.depth[x.taskId] else 0
  {
    var n := |d.tasks[id.taskId].childrenIds|;
    assert MadeNode(d, f, g, id, made, n, x);
    if x != id {
      BelowFirstIsBelow(d, x.taskId, id.taskId, n);
      var p := g[x].parent.value;
      assert d.depth[x.taskId] == d.depth[p.taskId] + 1;
      MadeIsChosen(d, f, g, id, parent, made, p);
      if !d.tasks[p.taskId].repeatable && x.index.Some? {
        assert IsNextIndex(f, x.taskId, NextIndex(f, x.taskId));
      }
    }
  }

  lemma {:induction false} ChosenIsMade(d: Defs, f: Instances, g: Instances, id: InstanceId, parent: Option<InstanceId>,
                                        made: set<InstanceId>, u: string)
    requires DefsOk(d) && id.taskId in d.tasks && Planted(d, f, g, id, parent, made)
    requires u in d.tasks && BelowTask(d, u, id.taskId)
    ensures ChosenId(d, f, id, u) in made
    ensures u != id.taskId ==>
              d.tasks[u].parentId.Some? && BelowTask(d, d.tasks[u].parentId.value, id.taskId) &&
              ChosenId(d, f, id, d.tasks[u].parentId.value) in g &&
              ChosenId(d, f, id, u) in g[ChosenId(d, f, id, d.tasks[u].parentId.value)].children
    decreases d.depth[u]
  {
    if u != id.taskId {
      var t := d.tasks[u].parentId.value;
      ChosenIsMade(d, f, g, id, parent, made, t);
      var p := ChosenId(d, f, id, t);
      var n := |d.tasks[id.taskId].childrenIds|;
      assert MadeNode(d, f, g, id, made, n, p);
      var cs := d.tasks[t].childrenIds;
      assert u in cs && cs[..|cs|] == cs;
      var i :| 0 <= i < |cs| && cs[i] == u;
      var c := g[p].children[i];
      assert c in g[p].children;
      MadeIsChosen(d, f, g, id, parent, made, c);
    }
  }

  /**
    An existing instance is replaced exactly when its id is one of the chosen ones. It then hangs
    below id, in id's group and without a mapping source; all others keep their entry, except that
    the parent gains a child.
   */
  lemma ReplacedIff(d: Defs, f: Instances, g: Instances, id: InstanceId, parent: Option<InstanceId>,
                    made: set<InstanceId>,
                    x: InstanceId)
    requires DefsOk(d) && id.taskId in d.tasks && Planted(d, f, g, id, parent, made) && x in f
    ensures x in made <==> WillBeMade(d, f, id, x)
    ensures x in g && if WillBeMade(d, f, id, x) then g[x].groupId == g[id].groupId && g[x].mappedFrom.None?
                      else g[x] == if parent == Some(x) then f[x].(children := f[x].children + [id]) else f[x]
  {
    if x in made {
      MadeIsChosen(d, f, g, id, parent, made, x);
      assert MadeNode(d, f, g, id, made, |d.tasks[id.taskId].childrenIds|, x);
    }
    if WillBeMade(d, f, id, x) {
      ChosenIsMade(d, f, g, id, parent, made, x.taskId);
    }
  }

  /** No id that will be made is taken. */
  ghost predicate IdsFree(d: Defs, f: Instances, id: InstanceId)
    requires DefsOk(d)
  {
    forall x | x in f :: !WillBeMade(d, f, id, x)
  }

  lemma FreeIffDisjoint(d: Defs, f: Instances, g: Instances, id: InstanceId, parent: Option<InstanceId>,
                        made: set<InstanceId>)
    requires DefsOk(d) && id.taskId in d.tasks && Planted(d, f, g, id, parent, made)
    ensures IdsFree(d, f, id) <==> made !! f.Keys
  {
    forall x | x in f ensures x in made <==> WillBeMade(d, f, id, x) {
      ReplacedIff(d, f, g, id, parent, made, x);
    }
  }

  // ---- What is kept ----

  /** The parent that is named fits the task. */
  predicate ParentFits(d: Defs, id: InstanceId, parent: Option<InstanceId>) {
    && id.taskId in d.tasks
    && (parent.Some? <==> d.tasks[id.taskId].parentId.Some?)
    && (parent.Some? ==> d.tasks[id.taskId].parentId == Some(parent.value.taskId))
  }

  lemma MadeLinks(d: Defs, f: Instances, g: Instances, id: InstanceId, parent: Option<InstanceId>,
                  made: set<InstanceId>, x: InstanceId)
    requires DefsOk(d) && ParentFits(d, id, parent) && Planted(d, f, g, id, parent, made) && x in made
    ensures NodeLinks(d, g, x)
  {
    var n := |d.tasks[id.taskId].childrenIds|;
    assert MadeNode(d, f, g, id, made, n, x);
    assert d.tasks[id.taskId].childrenIds[..n] == d.tasks[id.taskId].childrenIds;
    var ts := d.tasks[x.taskId].childrenIds;
    forall c | c in g[x].children ensures ChildTask(d, c.taskId, x.taskId) {
      var i :| 0 <= i < |g[x].children| && g[x].children[i] == c;
      assert ts[i] in ts;
    }
  }

  lemma {:induction false} MadeReached(d: Defs, f: Instances, g: Instances, id: InstanceId, parent: Option<InstanceId>,
                                       made: set<InstanceId>, x: InstanceId)
    requires DefsOk(d) && id.taskId in d.tasks && LinksOk(d, g) && Planted(d, f, g, id, parent, made) && x in made
    ensures Reach(d, g, x, id)
    decreases if x.taskId in d.tasks then d.depth[x.taskId] else 0
  {
    assert MadeNode(d, f, g, id, made, |d.tasks[id.taskId].childrenIds|, x);
    if x != id {
      var p := g[x].parent.value;
      assert d.depth[x.taskId] == d.depth[p.taskId] + 1;
      MadeReached(d, f, g, id, parent, made, p);
      assert Reach(d, g, x, x) && Reach(d, g, x, p);
      ReachTrans(d, g, x, p, id);
    }
  }

  /** One index more for the task itself, none for tasks that are not below it. */
  lemma PlantedIdx(d: Defs, f: Instances, g: Instances, id: InstanceId, parent: Option<InstanceId>,
                   made: set<InstanceId>, u: string)
    requires DefsOk(d) && id.taskId in d.tasks && Planted(d, f, g, id, parent, made)
    requires u in d.tasks && (u == id.taskId || !BelowTask(d, u, id.taskId))
    ensures Idx(g, u) == Idx(f, u) + if u == id.taskId && id.index.Some? then {id.index.value} else {}
  {
    forall j: nat ensures j in Idx(g, u) <==> j in Idx(f, u) || (u == id.taskId && id.index == Some(j)) {
      IdxHas(f, u, j);
      IdxHas(g, u, j);
      var x := InstanceId(u, Some(j));
      if x in made {
        MadeIsChosen(d, f, g, id, parent, made, x);
      }
    }
  }

  // ---- In a sound forest ----

  /** The parent exists and has room: a task that is not repeatable occurs once per parent, in the parent's group. */
  predicate HasRoom(d: Defs, f: Instances, id: InstanceId, parent: Option<InstanceId>, groupId: nat)
    requires id.taskId in d.tasks
  {
    parent.Some? ==>
      && parent.value in f && IndexFits(d, parent.value, id)
      && (d.tasks[id.taskId].repeatable || (groupId == f[parent.value].groupId &&
                                            !HasChildOf(f, parent.value, id.taskId)))
  }

  /** The children of a made instance belong to its child tasks, one each. */
  lemma MadeChildrenOk(d: Defs, f: Instances, g: Instances, id: InstanceId, parent: Option<InstanceId>,
                       made: set<InstanceId>, x: InstanceId)
    requires DefsOk(d) && ParentFits(d, id, parent) && Planted(d, f, g, id, parent, made) && x in made
    ensures ChildrenOk(d, g, x)
  {
    var n := |d.tasks[id.taskId].childrenIds|;
    assert MadeNode(d, f, g, id, made, n, x);
    assert d.tasks[id.taskId].childrenIds[..n] == d.tasks[id.taskId].childrenIds;
    OneEach(g[x].children, d.tasks[x.taskId].childrenIds);
    forall c | c in g[x].children ensures IndexFits(d, x, c) {
      MadeIndexFits(d, f, g, id, parent, made, x, c);
    }
  }

  lemma OneEach(cs: seq<InstanceId>, ts: seq<string>)
    requires OfTasks(cs, ts) && NoDuplicates(ts)
    ensures NoDuplicates(cs) && forall c, c' | c in cs && c' in cs && c.taskId == c'.taskId :: c == c'
  {
    forall i, j | 0 <= i < j < |cs| ensures cs[i] != cs[j] && cs[i].taskId != cs[j].taskId {
      assert ts[i] != ts[j];
    }
  }

  lemma MadeIndexFits(d: Defs, f: Instances, g: Instances, id: InstanceId, parent: Option<InstanceId>,
                      made: set<InstanceId>,
                      x: InstanceId, c: InstanceId)
    requires DefsOk(d) && ParentFits(d, id, parent) && Planted(d, f, g, id, parent, made) && x in made &&
               c in g[x].children
    ensures IndexFits(d, x, c)
  {
    var n := |d.tasks[id.taskId].childrenIds|;
    assert MadeNode(d, f, g, id, made, n, x);
    assert c in made && g[c].parent == Some(x);
    assert MadeNode(d, f, g, id, made, n, c);
    MadeLinks(d, f, g, id, parent, made, x);
    MadeIsChosen(d, f, g, id, parent, made, x);
    BelowTaskDepth(d, x.taskId, id.taskId);
    assert c != id;
  }

  lemma MadeNodeOk(d: Defs, f: Instances, g: Instances, id: InstanceId, parent: Option<InstanceId>,
                   made: set<InstanceId>, x: InstanceId)
    requires DefsOk(d) && Sound(d, f) && ParentFits(d, id, parent) && Planted(d, f, g, id, parent, made)
    requires made !! f.Keys && HasRoom(d, f, id, parent, g[id].groupId) && x in made
    ensures NodeOk(d, g, x)
  {
    var n := |d.tasks[id.taskId].childrenIds|;
    MadeLinks(d, f, g, id, parent, made, x);
    MadeChildrenOk(d, f, g, id, parent, made, x);
    assert MadeNode(d, f, g, id, made, n, x);
    if x == id && parent.Some? {
      assert parent.value in f && parent.value !in made;
      assert g[parent.value].children == f[parent.value].children + [id];
    } else if x != id {
      var p := g[x].parent.value;
      assert MadeNode(d, f, g, id, made, n, p);
    }
  }

  lemma OldNodeOk(d: Defs, f: Instances, g: Instances, id: InstanceId, parent: Option<InstanceId>,
                  made: set<InstanceId>, x: InstanceId)
    requires DefsOk(d) && Sound(d, f) && ParentFits(d, id, parent) && Planted(d, f, g, id, parent, made)
    requires made !! f.Keys && HasRoom(d, f, id, parent, g[id].groupId) && x in f
    ensures NodeOk(d, g, x)
  {
    assert NodeOk(d, f, x);
    assert x in g && x !in made;
    forall c | c in f[x].children ensures c in g && g[c].parent == Some(x) && IndexFits(d, x, c) && c != id {
      assert c in f && c !in made;
    }
    if f[x].parent.Some? {
      assert f[x].parent.value !in made;
    }
    if parent == Some(x) {
      ParentGains(d, f, g, id, x);
    }
  }

  lemma ParentGains(d: Defs, f: Instances, g: Instances, id: InstanceId, p: InstanceId)
    requires p in f && p in g && id in g && ChildrenOk(d, f, p) && g[p].children == f[p].children + [id] &&
               id !in f[p].children
    requires forall c | c in f[p].children :: c in g && g[c].parent == Some(p)
    requires g[id].parent == Some(p) && IndexFits(d, p, id)
    requires d.tasks[id.taskId].repeatable || !HasChildOf(f, p, id.taskId)
    ensures ChildrenOk(d, g, p)
  {
    var cs := g[p].children;
    forall c, c' | c in cs && c' in cs && c.taskId == c'.taskId && c != c'
      ensures c.taskId in d.tasks && d.tasks[c.taskId].repeatable {
      if c == id {
        assert c' in f[p].children;
      } else if c' == id {
        assert c in f[p].children;
      }
    }
  }

  /** With free ids and room at the parent the forest stays sound. */
  lemma PlantedSound(d: Defs, f: Instances, g: Instances, id: InstanceId, parent: Option<InstanceId>,
                     made: set<InstanceId>)
    requires DefsOk(d) && Sound(d, f) && ParentFits(d, id, parent) && Planted(d, f, g, id, parent, made)
    requires made !! f.Keys && HasRoom(d, f, id, parent, g[id].groupId)
    ensures Sound(d, g)
  {
    forall x | x in g ensures NodeOk(d, g, x) {
      if x in made {
        MadeNodeOk(d, f, g, id, parent, made, x);
      } else {
        OldNodeOk(d, f, g, id, parent, made, x);
      }
    }
  }

  /** A replaced entry is still listed by its old parent, or by its new one a second time. */
  lemma {:induction false} ReplacedIsUnsound(d: Defs, f: Instances, g: Instances, id: InstanceId,
                                             parent: Option<InstanceId>, made: set<InstanceId>, x: InstanceId)
    requires DefsOk(d) && Sound(d, f) && ParentFits(d, id, parent) && Planted(d, f, g, id, parent, made)
    requires id !in f && x in f && x in made
    ensures !Sound(d, g)
    decreases Height(d, x)
  {
    assert NodeOk(d, f, x);
    assert MadeNode(d, f, g, id, made, |d.tasks[id.taskId].childrenIds|, x);
    var p := f[x].parent.value;
    if p in made {
      ReplacedIsUnsound(d, f, g, id, parent, made, p);
    } else {
      assert x in g[p].children && g[x].parent != Some(p);
      assert !NodeOk(d, g, p);
    }
  }

  /** With an unused id and room at the parent, a sound forest stays sound exactly when no chosen id is taken. */
  lemma SoundIffFree(d: Defs, f: Instances, g: Instances, id: InstanceId, parent: Option<InstanceId>,
                     made: set<InstanceId>)
    requires DefsOk(d) && Sound(d, f) && ParentFits(d, id, parent) && Planted(d, f, g, id, parent, made)
    requires id !in f && HasRoom(d, f, id, parent, g[id].groupId)
    ensures Sound(d, g) <==> IdsFree(d, f, id)
  {
    FreeIffDisjoint(d, f, g, id, parent, made);
    if IdsFree(d, f, id) {
      PlantedSound(d, f, g, id, parent, made);
    } else {
      var x :| x in f && WillBeMade(d, f, id, x);
      ReplacedIff(d, f, g, id, parent, made, x);
      ReplacedIsUnsound(d, f, g, id, parent, made, x);
    }
  }

  lemma HasChildKept(f: Instances, g: Instances, x: InstanceId, c: string)
    requires x in f && x in g && HasChildOf(f, x, c)
    requires forall y | y in f[x].children :: y in g[x].children
    ensures HasChildOf(g, x, c)
  {
    var y :| y in f[x].children && y.taskId == c;
    assert y in g[x].children;
  }

  lemma PlantedComplete(d: Defs, f: Instances, g: Instances, id: InstanceId, parent: Option<InstanceId>,
                        made: set<InstanceId>)
    requires DefsOk(d) && id.taskId in d.tasks && AllComplete(d, f) && Planted(d, f, g, id, parent, made)
    ensures AllComplete(d, g)
  {
    forall x | x in g ensures Complete(d, g, x) {
      if x in made {
        MadeComplete(d, f, g, id, parent, made, x);
      } else {
        assert Complete(d, f, x);
        forall c | c in d.tasks[x.taskId].childrenIds && Fixed(d, c) ensures HasChildOf(g, x, c) {
          HasChildKept(f, g, x, c);
        }
      }
    }
  }

  lemma MadeComplete(d: Defs, f: Instances, g: Instances, id: InstanceId, parent: Option<InstanceId>,
                     made: set<InstanceId>, x: InstanceId)
    requires DefsOk(d) && id.taskId in d.tasks && Planted(d, f, g, id, parent, made) && x in made
    ensures x.taskId in d.tasks && forall c | c in d.tasks[x.taskId].childrenIds :: HasChildOf(g, x, c)
  {
    var n := |d.tasks[id.taskId].childrenIds|;
    assert MadeNode(d, f, g, id, made, n, x);
    assert d.tasks[id.taskId].childrenIds[..n] == d.tasks[id.taskId].childrenIds;
    var ts := d.tasks[x.taskId].childrenIds;
    forall c | c in ts ensures HasChildOf(g, x, c) {
      var i :| 0 <= i < |ts| && ts[i] == c;
      assert g[x].children[i] in g[x].children;
    }
  }
}
