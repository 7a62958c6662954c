/**
  What a reload does to the forest: it adds and removes instances of heads, the repeatable tasks
  that are not children of repeatable ones. Tasks nested directly below a repeatable one get
  their instances handed down with it.
 */
module Heads {
  import opened Wrappers
  import opened InstanceIds
  import opened Schema
  import opened Forest
  import opened Growth
  import opened Removal
  import opened TaskStore
  import opened Sync

  predicate Head(d: Defs, t: string)
    requires DefsOk(d)
  {
    t in d.tasks && d.tasks[t].repeatable && !HandedDown(d, t)
  }

  /** A child with a handed-down index has the index of the instance that lists it. */
  predicate ListsOwn(d: Defs, f: Instances, x: InstanceId)
    requires DefsOk(d) && x in f
  {
    forall c | c in f[x].children && c.taskId in d.tasks && HandedDown(d, c.taskId) :: c.index == x.index
  }

  predicate AllListOwn(d: Defs, f: Instances)
    requires DefsOk(d)
  {
    forall x {:trigger ListsOwn(d, f, x)} | x in f :: ListsOwn(d, f, x)
  }

  /** The task c has an instance exactly where t has one, and its parent's instance of that index lists it. */
  ghost predicate HandedAt(d: Defs, f: Instances, t: string, c: string)
    requires DefsOk(d) && c in d.tasks && HandedDown(d, c)
  {
    forall i: nat {:trigger Inst(t, i)} {:trigger Inst(c, i)} ::
      && (Inst(c, i) in f <==> Inst(t, i) in f)
      && (Inst(t, i) in f ==>
            Inst(d.tasks[c].parentId.value, i) in f && Inst(c, i) in f[Inst(d.tasks[c].parentId.value, i)].children)
  }

  /** All tasks that get their index from t have the instances of t. */
  ghost predicate HandsDown(d: Defs, f: Instances, t: string)
    requires DefsOk(d)
  {
    forall c {:trigger HandedAt(d, f, t, c)} | c in d.tasks && c != t && Tracks(d, c, t) :: HandedAt(d, f, t, c)
  }

  // ---- Tracking ----

  lemma {:induction false} TracksBelow(d: Defs, c: string, t: string)
    requires DefsOk(d) && c in d.tasks && Tracks(d, c, t)
    ensures t in d.tasks && BelowTask(d, c, t)
    decreases d.depth[c]
  {
    if c != t {
      TracksBelow(d, d.tasks[c].parentId.value, t);
    }
  }

  /** Between c and t every task tracks t and is tracked by c. */
  lemma {:induction false} TracksBetween(d: Defs, c: string, b: string, t: string)
    requires DefsOk(d) && c in d.tasks && b in d.tasks && Tracks(d, c, t) && BelowTask(d, c, b) && BelowTask(d, b, t)
    ensures Tracks(d, c, b) && Tracks(d, b, t)
    decreases d.depth[c]
  {
    if c != b {
      BelowTaskDepth(d, c, b);
      if c == t {
        BelowTaskDepth(d, b, t);
      } else {
        TracksBetween(d, d.tasks[c].parentId.value, b, t);
      }
    }
  }

  /** What tracks one outermost task does not lie below another head. */
  lemma NotBelowHead(d: Defs, c: string, u: string, t: string)
    requires DefsOk(d) && c in d.tasks && u in d.tasks && Tracks(d, c, u) && Outermost(d, u) && Head(d, t) && u != t
    ensures !BelowTask(d, c, t)
  {
    if BelowTask(d, c, t) {
      TracksBelow(d, c, u);
      AboveComparable(d, c, u, t);
      if BelowTask(d, u, t) {
        OutermostApart(d, u, t);
      } else {
        TracksBetween(d, c, t, u);
      }
    }
  }

  /** Reaching along tracked tasks does not change the index. */
  lemma {:induction false} ReachKeepsIndex(d: Defs, f: Instances, y: InstanceId, x: InstanceId)
    requires DefsOk(d) && LinksOk(d, f) && AllListOwn(d, f) && Reach(d, f, y, x) && y.taskId in d.tasks
    requires Tracks(d, y.taskId, x.taskId)
    ensures y.index == x.index
    decreases Rest(d, x)
  {
    if y != x {
      var c :| c in f[x].children && Reach(d, f, y, c);
      ChildIsDeeper(d, f, x, c);
      ReachIn(d, f, y, c);
      assert NodeLinks(d, f, x) && ListsOwn(d, f, x);
      assert BelowTask(d, c.taskId, x.taskId);
      TracksBetween(d, y.taskId, c.taskId, x.taskId);
      ReachKeepsIndex(d, f, y, c);
    }
  }

  // ---- After init ----

  lemma InitialListsOwn(d: Defs, f: Instances)
    requires DefsOk(d) && Initial(d, f)
    ensures AllListOwn(d, f)
  {
    forall x | x in f ensures ListsOwn(d, f, x) {
      assert NodeOk(d, f, x);
    }
  }

  lemma InitialHandsDown(d: Defs, f: Instances, t: string)
    requires DefsOk(d) && Initial(d, f) && t in d.tasks && d.tasks[t].repeatable
    ensures HandsDown(d, f, t)
  {
    forall c | c in d.tasks && c != t && Tracks(d, c, t) ensures HandedAt(d, f, t, c) {
      var p := d.tasks[c].parentId.value;
      var x := DefaultId(d, p);
      assert x in f && NodeStarted(d, f, x);
      var ts := d.tasks[p].childrenIds;
      var k :| 0 <= k < |ts| && ts[k] == c;
      var y := f[x].children[k];
      assert y in f[x].children && NodeOk(d, f, x);
      assert y == DefaultId(d, c);
    }
  }

  // ---- Adding an instance of a head ----

  /** The outermost task u and what tracks it are as before. */
  ghost predicate KeptRepeatable(d: Defs, f: Instances, g: Instances, u: string)
    requires DefsOk(d)
  {
    Idx(g, u) == Idx(f, u) && (HandsDown(d, f, u) ==> HandsDown(d, g, u))
  }

  ghost predicate OthersKeptToo(d: Defs, f: Instances, g: Instances, t: string)
    requires DefsOk(d)
  {
    forall u {:trigger KeptRepeatable(d, f, g, u)} | u in d.tasks && Outermost(d, u) && u != t ::
        KeptRepeatable(d, f, g, u)
  }

  predicate HeadParent(d: Defs, t: string, parent: Option<InstanceId>)
    requires DefsOk(d)
  {
    Head(d, t) && (parent.Some? ==> d.tasks[t].parentId == Some(parent.value.taskId))
  }

  lemma AddListsOwn(d: Defs, f: Instances, g: Instances, t: string, i: nat, parent: Option<InstanceId>,
                    made: set<InstanceId>)
    requires DefsOk(d) && HeadParent(d, t, parent) && AllListOwn(d, f) && Planted(d, f, g, Inst(t, i), parent, made)
    ensures AllListOwn(d, g)
  {
    var n := |d.tasks[t].childrenIds|;
    forall x | x in g ensures ListsOwn(d, g, x) {
      if x in made {
        assert MadeNode(d, f, g, Inst(t, i), made, n, x);
        forall c | c in g[x].children && c.taskId in d.tasks && HandedDown(d, c.taskId) ensures c.index == x.index {
          assert c in made && MadeNode(d, f, g, Inst(t, i), made, n, c);
        }
      } else {
        assert ListsOwn(d, f, x);
      }
    }
  }

  /** The chosen index of a task that tracks t is t's. */
  lemma {:induction false} ChosenTracks(d: Defs, f: Instances, id: InstanceId, u: string)
    requires DefsOk(d) && u in d.tasks && Tracks(d, u, id.taskId) && BelowTask(d, u, id.taskId)
    ensures ChosenId(d, f, id, u) == InstanceId(u, id.index)
    decreases d.depth[u]
  {
    if u != id.taskId {
      TracksBelow(d, d.tasks[u].parentId.value, id.taskId);
      ChosenTracks(d, f, id, d.tasks[u].parentId.value);
    }
  }

  /** The new instance comes with one of every task that tracks it. */
  lemma AddHandsDown(d: Defs, f: Instances, g: Instances, t: string, i: nat, parent: Option<InstanceId>,
                     made: set<InstanceId>)
    requires DefsOk(d) && t in d.tasks && Planted(d, f, g, Inst(t, i), parent, made) && HandsDown(d, f, t)
    requires parent.Some? ==> d.tasks[t].parentId == Some(parent.value.taskId)
    ensures HandsDown(d, g, t)
  {
    forall c | c in d.tasks && c != t && Tracks(d, c, t) ensures HandedAt(d, g, t, c) {
      assert HandedAt(d, f, t, c);
      forall j: nat ensures Inst(c, j) in g <==> Inst(t, j) in g
                    ensures Inst(t, j) in g ==> Inst(d.tasks[c].parentId.value, j) in g &&
                                                Inst(c, j) in g[Inst(d.tasks[c].parentId.value, j)].children {
        AddHandedAt(d, f, g, t, i, parent, made, c, j);
      }
    }
  }

  lemma AddHandedAt(d: Defs, f: Instances, g: Instances, t: string, i: nat, parent: Option<InstanceId>,
                    made: set<InstanceId>,
                    c: string, j: nat)
    requires DefsOk(d) && t in d.tasks && Planted(d, f, g, Inst(t, i), parent, made)
    requires c in d.tasks && c != t && Tracks(d, c, t) && HandedAt(d, f, t, c)
    ensures Inst(c, j) in g <==> Inst(t, j) in g
    ensures Inst(t, j) in g ==> Inst(d.tasks[c].parentId.value, j) in g &&
                                Inst(c, j) in g[Inst(d.tasks[c].parentId.value, j)].children
  {
    var id, p := Inst(t, i), d.tasks[c].parentId.value;
    TracksBelow(d, c, t);
    TracksBelow(d, p, t);
    ChosenTracks(d, f, id, c);
    ChosenTracks(d, f, id, p);
    ChosenIsMade(d, f, g, id, parent, made, c);
    forall u | u == c || u == t || u == p ensures Inst(u, j) in made ==> i == j {
      if Inst(u, j) in made {
        MadeIsChosen(d, f, g, id, parent, made, Inst(u, j));
        ChosenTracks(d, f, id, u);
      }
    }
    assert Inst(c, j) in f <==> Inst(t, j) in f;
  }

  lemma AddKeepsOther(d: Defs, f: Instances, g: Instances, t: string, i: nat, parent: Option<InstanceId>,
                      made: set<InstanceId>,
                      u: string)
    requires DefsOk(d) && Head(d, t) && Planted(d, f, g, Inst(t, i), parent, made)
    requires u in d.tasks && Outermost(d, u) && u != t
    ensures KeptRepeatable(d, f, g, u)
  {
    NotBelowHead(d, u, u, t);
    PlantedIdx(d, f, g, Inst(t, i), parent, made, u);
    if HandsDown(d, f, u) {
      forall c | c in d.tasks && c != u && Tracks(d, c, u) ensures HandedAt(d, g, u, c) {
        assert HandedAt(d, f, u, c);
        NotBelowHead(d, c, u, t);
        NotBelowHead(d, d.tasks[c].parentId.value, u, t);
        forall v, j: nat | v == c || v == u || v == d.tasks[c].parentId.value
          ensures Inst(v, j) !in made {
          if Inst(v, j) in made {
            MadeIsChosen(d, f, g, Inst(t, i), parent, made, Inst(v, j));
          }
        }
      }
    }
  }

  lemma AddHead(d: Defs, f: Instances, g: Instances, t: string, i: nat, parent: Option<InstanceId>,
                made: set<InstanceId>)
    requires DefsOk(d) && HeadParent(d, t, parent) && AllListOwn(d, f) && Planted(d, f, g, Inst(t, i), parent, made)
    ensures AllListOwn(d, g) && OthersKeptToo(d, f, g, t)
    ensures Idx(g, t) == Idx(f, t) + {i} && (HandsDown(d, f, t) ==> HandsDown(d, g, t))
  {
    AddListsOwn(d, f, g, t, i, parent, made);
    PlantedIdx(d, f, g, Inst(t, i), parent, made, t);
    forall u | u in d.tasks && Outermost(d, u) && u != t ensures KeptRepeatable(d, f, g, u) {
      AddKeepsOther(d, f, g, t, i, parent, made, u);
    }
    if HandsDown(d, f, t) {
      AddHandsDown(d, f, g, t, i, parent, made);
    }
  }

  // ---- Removing an instance of a head ----

  /** Removing t[i] takes the instance i of every task that tracks t, and no other of that task. */
  lemma {:induction false} TrackedGoes(d: Defs, f: Instances, t: string, i: nat, c: string)
    requires DefsOk(d) && LinksOk(d, f) && HandsDown(d, f, t) && c in d.tasks && Tracks(d, c, t) && Inst(t, i) in f
    ensures Inst(c, i) in f && Reach(d, f, Inst(c, i), Inst(t, i))
    decreases d.depth[c]
  {
    if c != t {
      var p := d.tasks[c].parentId.value;
      assert HandedAt(d, f, t, c);
      TrackedGoes(d, f, t, i, p);
      assert Inst(t, i) in f && Inst(c, i) in f[Inst(p, i)].children;
      assert Inst(c, i) in f && Reach(d, f, Inst(c, i), Inst(c, i));
      assert Reach(d, f, Inst(c, i), Inst(p, i));
      ReachTrans(d, f, Inst(c, i), Inst(p, i), Inst(t, i));
    }
  }

  lemma GoesIffSameIndex(d: Defs, f: Instances, t: string, i: nat, c: string, j: nat)
    requires DefsOk(d) && LinksOk(d, f) && AllListOwn(d, f) && HandsDown(d, f, t) && Inst(t, i) in f
    requires c in d.tasks && Tracks(d, c, t) && Inst(c, j) in f
    ensures Reach(d, f, Inst(c, j), Inst(t, i)) <==> i == j
  {
    TrackedGoes(d, f, t, i, c);
    if Reach(d, f, Inst(c, j), Inst(t, i)) {
      ReachKeepsIndex(d, f, Inst(c, j), Inst(t, i));
    }
  }

  /** Of the instances of u exactly the one with index i goes. */
  ghost predicate TakesIndex(f: Instances, gone: set<InstanceId>, u: string, i: nat) {
    forall j: nat {:trigger Inst(u, j)} | Inst(u, j) in f :: Inst(u, j) in gone <==> i == j
  }

  lemma RemovalTakesIndex(d: Defs, f: Instances, t: string, i: nat, c: string)
    requires DefsOk(d) && LinksOk(d, f) && AllListOwn(d, f) && HandsDown(d, f, t) && Inst(t, i) in f
    requires c in d.tasks && Tracks(d, c, t)
    ensures TakesIndex(f, ReachSet(d, f, Inst(t, i)), c, i)
  {
    forall j: nat | Inst(c, j) in f ensures Inst(c, j) in ReachSet(d, f, Inst(t, i)) <==> i == j {
      GoesIffSameIndex(d, f, t, i, c, j);
    }
  }

  lemma PruneHandedAt(d: Defs, f: Instances, gone: set<InstanceId>, t: string, i: nat, c: string)
    requires DefsOk(d) && c in d.tasks && HandedDown(d, c) && HandedAt(d, f, t, c)
    requires TakesIndex(f, gone, c, i) && TakesIndex(f, gone, t, i) && TakesIndex(f, gone, d.tasks[c].parentId.value, i)
    ensures HandedAt(d, Prune(f, gone), t, c)
  {
  }

  lemma RemoveKeepsOther(d: Defs, f: Instances, t: string, i: nat, u: string)
    requires DefsOk(d) && LinksOk(d, f) && Head(d, t) && u in d.tasks && Outermost(d, u) && u != t
    ensures KeptRepeatable(d, f, Prune(f, ReachSet(d, f, Inst(t, i))), u)
  {
    var g := Prune(f, ReachSet(d, f, Inst(t, i)));
    NotBelowHead(d, u, u, t);
    PrunedIdx(d, f, t, i, u);
    if HandsDown(d, f, u) {
      forall c | c in d.tasks && c != u && Tracks(d, c, u) ensures HandedAt(d, g, u, c) {
        assert HandedAt(d, f, u, c);
        NotBelowHead(d, c, u, t);
        NotBelowHead(d, d.tasks[c].parentId.value, u, t);
        forall v, j: nat | v == c || v == u || v == d.tasks[c].parentId.value
          ensures Inst(v, j) !in ReachSet(d, f, Inst(t, i)) {
          if Reach(d, f, Inst(v, j), Inst(t, i)) {
            ReachIn(d, f, Inst(v, j), Inst(t, i));
          }
        }
      }
    }
  }

  lemma RemoveHead(d: Defs, f: Instances, t: string, i: nat)
    requires DefsOk(d) && LinksOk(d, f) && AllListOwn(d, f) && Head(d, t) && Inst(t, i) in f
    ensures var g := Prune(f, ReachSet(d, f, Inst(t, i)));
            && AllListOwn(d, g) && OthersKeptToo(d, f, g, t)
            && Idx(g, t) == Idx(f, t) - {i} && (HandsDown(d, f, t) ==> HandsDown(d, g, t))
  {
    var g := Prune(f, ReachSet(d, f, Inst(t, i)));
    forall x | x in g ensures ListsOwn(d, g, x) {
      assert ListsOwn(d, f, x);
    }
    PrunedIdx(d, f, t, i, t);
    forall u | u in d.tasks && Outermost(d, u) && u != t ensures KeptRepeatable(d, f, g, u) {
      RemoveKeepsOther(d, f, t, i, u);
    }
    if HandsDown(d, f, t) {
      forall c | c in d.tasks && c != t && Tracks(d, c, t) ensures HandedAt(d, g, t, c) {
        var p := d.tasks[c].parentId.value;
        RemovalTakesIndex(d, f, t, i, c);
        RemovalTakesIndex(d, f, t, i, t);
        RemovalTakesIndex(d, f, t, i, p);
        assert HandedAt(d, f, t, c);
        PruneHandedAt(d, f, ReachSet(d, f, Inst(t, i)), t, i, c);
      }
    }
  }

  /** The index sets then agree. */
  lemma HandedIdx(d: Defs, f: Instances, t: string, c: string)
    requires DefsOk(d) && c in d.tasks && Tracks(d, c, t) && HandsDown(d, f, t)
    ensures Idx(f, c) == Idx(f, t)
  {
    if c != t {
      assert HandedAt(d, f, t, c);
      forall i: nat ensures i in Idx(f, c) <==> i in Idx(f, t) {
        IdxHas(f, c, i);
        IdxHas(f, t, i);
        assert Inst(c, i) in f <==> Inst(t, i) in f;
      }
    }
  }
}
