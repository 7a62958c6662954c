/** What removing an instance does: it goes with everything that it reaches, and nothing else changes. */
module Removal {
  import opened Wrappers
  import opened InstanceIds
  import opened Schema
  import opened Forest

  /** The children of y without those that went and named y as their parent. */
  function KeptChildren(cs: seq<InstanceId>, f: Instances, y: InstanceId, gone: set<InstanceId>): (r: seq<InstanceId>)
    ensures forall c :: c in r <==> c in cs && !(c in gone && c in f && f[c].parent == Some(y))
  {
    if cs == [] then []
    else
      var c := cs[|cs| - 1];
      var front := KeptChildren(cs[..|cs| - 1], f, y, gone);
      if c in gone && c in f && f[c].parent == Some(y) then front else front + [c]
  }

  /** The forest without the given instances. */
  function Prune(f: Instances, gone: set<InstanceId>): Instances {
    map y | y in f && y !in gone :: f[y].(children := KeptChildren(f[y].children, f, y, gone))
  }

  lemma {:induction false} KeptAll(cs: seq<InstanceId>, f: Instances, y: InstanceId, gone: set<InstanceId>)
    requires forall c | c in cs && c in gone && c in f :: f[c].parent != Some(y)
    ensures KeptChildren(cs, f, y, gone) == cs
  {
    if cs != [] {
      KeptAll(cs[..|cs| - 1], f, y, gone);
      assert cs == cs[..|cs| - 1] + [cs[|cs| - 1]];
    }
  }

  lemma {:induction false} KeptTwice(cs: seq<InstanceId>, f: Instances, y: InstanceId, a: set<InstanceId>,
                                     b: set<InstanceId>)
    ensures KeptChildren(KeptChildren(cs, f, y, a), Prune(f, a), y, b) == KeptChildren(cs, f, y, a + b)
  {
    if cs != [] {
      var front := cs[..|cs| - 1];
      KeptTwice(front, f, y, a, b);
      var kept := KeptChildren(front, f, y, a);
      var c := cs[|cs| - 1];
      assert (kept + [c])[..|kept + [c]| - 1] == kept;
    }
  }

  lemma {:induction false} KeptNoDuplicates(cs: seq<InstanceId>, f: Instances, y: InstanceId, gone: set<InstanceId>)
    requires NoDuplicates(cs)
    ensures NoDuplicates(KeptChildren(cs, f, y, gone))
  {
    if cs != [] {
      var front := cs[..|cs| - 1];
      KeptNoDuplicates(front, f, y, gone);
      var r := KeptChildren(front, f, y, gone);
      assert forall i | 0 <= i < |r| :: r[i] in front;
    }
  }

  /** What stays is listed as often as before. */
  lemma {:induction false} KeptTimes(cs: seq<InstanceId>, f: Instances, y: InstanceId, gone: set<InstanceId>,
                                     c: InstanceId)
    requires c !in gone
    ensures multiset(KeptChildren(cs, f, y, gone))[c] == multiset(cs)[c]
  {
    if cs != [] {
      assert cs == cs[..|cs| - 1] + [cs[|cs| - 1]];
      KeptTimes(cs[..|cs| - 1], f, y, gone, c);
    }
  }

  lemma PruneNone(f: Instances)
    ensures Prune(f, {}) == f
  {
    forall y | y in f ensures f[y].(children := KeptChildren(f[y].children, f, y, {})) == f[y] {
      KeptAll(f[y].children, f, y, {});
    }
  }

  /** Pruning twice is pruning once. */
  lemma PruneTwice(f: Instances, a: set<InstanceId>, b: set<InstanceId>)
    ensures Prune(Prune(f, a), b) == Prune(f, a + b)
  {
    var g := Prune(f, a);
    forall y | y in f && y !in a + b ensures Prune(g, b)[y] == Prune(f, a + b)[y] {
      KeptTwice(f[y].children, f, y, a, b);
    }
    assert Prune(g, b).Keys == Prune(f, a + b).Keys;
  }

  lemma PruneLinks(d: Defs, f: Instances, gone: set<InstanceId>)
    requires LinksOk(d, f)
    ensures LinksOk(d, Prune(f, gone))
  {
    forall x | x in Prune(f, gone) ensures NodeLinks(d, Prune(f, gone), x) {
      assert NodeLinks(d, f, x);
    }
  }

  // ---- Reaching, with some instances gone ----

  /** Whatever a member reaches is a member. */
  ghost predicate Closed(d: Defs, f: Instances, a: set<InstanceId>)
    requires DefsOk(d) && LinksOk(d, f)
  {
    forall x, y {:trigger x in a, Reach(d, f, y, x)} | x in a && Reach(d, f, y, x) :: y in a
  }

  lemma ReachSetClosed(d: Defs, f: Instances, x: InstanceId)
    requires DefsOk(d) && LinksOk(d, f)
    ensures Closed(d, f, ReachSet(d, f, x))
  {
    forall b, y | b in ReachSet(d, f, x) && Reach(d, f, y, b) ensures y in ReachSet(d, f, x) {
      ReachTrans(d, f, y, b, x);
      ReachIn(d, f, y, x);
    }
  }

  lemma ClosedUnion(d: Defs, f: Instances, a: set<InstanceId>, b: set<InstanceId>)
    requires DefsOk(d) && LinksOk(d, f) && Closed(d, f, a) && Closed(d, f, b)
    ensures Closed(d, f, a + b)
  {
  }

  /** Pruning a closed set leaves reaching as it was between the others. */
  lemma {:induction false} PruneReach(d: Defs, f: Instances, a: set<InstanceId>, y: InstanceId, x: InstanceId)
    requires DefsOk(d) && LinksOk(d, f) && LinksOk(d, Prune(f, a)) && Closed(d, f, a)
    ensures Reach(d, Prune(f, a), y, x) <==> y !in a && Reach(d, f, y, x)
    decreases Rest(d, x)
  {
    var g := Prune(f, a);
    if Reach(d, g, y, x) && y != x {
      var c :| c in g[x].children && Reach(d, g, y, c);
      ChildIsDeeper(d, f, x, c);
      PruneReach(d, f, a, y, c);
      assert c in f[x].children;
    }
    if y !in a && Reach(d, f, y, x) {
      assert x !in a;
      if y != x {
        var c :| c in f[x].children && Reach(d, f, y, c);
        ChildIsDeeper(d, f, x, c);
        PruneReach(d, f, a, y, c);
        assert c !in a && c in g[x].children;
      }
    }
  }

  lemma PruneReachSet(d: Defs, f: Instances, a: set<InstanceId>, x: InstanceId)
    requires DefsOk(d) && LinksOk(d, f) && LinksOk(d, Prune(f, a)) && Closed(d, f, a)
    ensures ReachSet(d, Prune(f, a), x) == ReachSet(d, f, x) - a
  {
    forall y ensures y in ReachSet(d, Prune(f, a), x) <==> y in ReachSet(d, f, x) - a {
      PruneReach(d, f, a, y, x);
    }
  }

  /** Removing after removing: the sets add up. */
  lemma PruneMore(d: Defs, f: Instances, a: set<InstanceId>, x: InstanceId)
    requires DefsOk(d) && LinksOk(d, f) && LinksOk(d, Prune(f, a)) && Closed(d, f, a)
    ensures Prune(Prune(f, a), ReachSet(d, Prune(f, a), x)) == Prune(f, a + ReachSet(d, f, x))
    ensures Closed(d, f, a + ReachSet(d, f, x))
  {
    PruneReachSet(d, f, a, x);
    PruneTwice(f, a, ReachSet(d, f, x) - a);
    assert a + (ReachSet(d, f, x) - a) == a + ReachSet(d, f, x);
    ReachSetClosed(d, f, x);
    ClosedUnion(d, f, a, ReachSet(d, f, x));
  }

  // ---- The loop over the children ----

  /** Everything reached from one of the children in the list. */
  function ReachOf(d: Defs, f: Instances, cs: seq<InstanceId>): set<InstanceId>
    requires DefsOk(d) && LinksOk(d, f)
  {
    if cs == [] then {} else ReachOf(d, f, cs[..|cs| - 1]) + ReachSet(d, f, cs[|cs| - 1])
  }

  lemma {:induction false} ReachOfMembers(d: Defs, f: Instances, cs: seq<InstanceId>, y: InstanceId)
    requires DefsOk(d) && LinksOk(d, f)
    ensures y in ReachOf(d, f, cs) <==> y in f && exists c | c in cs :: Reach(d, f, y, c)
  {
    if cs != [] {
      var front, c := cs[..|cs| - 1], cs[|cs| - 1];
      ReachOfMembers(d, f, front, y);
      assert cs == front + [c];
      if y in f && Reach(d, f, y, c) {
        assert c in cs;
      }
    }
  }

  lemma {:induction false} ReachOfClosed(d: Defs, f: Instances, cs: seq<InstanceId>)
    requires DefsOk(d) && LinksOk(d, f)
    ensures Closed(d, f, ReachOf(d, f, cs))
  {
    if cs != [] {
      ReachOfClosed(d, f, cs[..|cs| - 1]);
      ReachSetClosed(d, f, cs[|cs| - 1]);
      ClosedUnion(d, f, ReachOf(d, f, cs[..|cs| - 1]), ReachSet(d, f, cs[|cs| - 1]));
    }
  }

  /** After one more child. */
  lemma NextChildGone(d: Defs, f: Instances, cs: seq<InstanceId>, k: nat)
    requires DefsOk(d) && LinksOk(d, f) && k < |cs| && LinksOk(d, Prune(f, ReachOf(d, f, cs[..k])))
    ensures var g := Prune(f, ReachOf(d, f, cs[..k]));
            Prune(g, ReachSet(d, g, cs[k])) == Prune(f, ReachOf(d, f, cs[..k + 1]))
  {
    ReachOfClosed(d, f, cs[..k]);
    PruneMore(d, f, ReachOf(d, f, cs[..k]), cs[k]);
    assert cs[..k + 1][..k] == cs[..k];
  }

  lemma WholeReach(d: Defs, f: Instances, x: InstanceId)
    requires DefsOk(d) && LinksOk(d, f) && x in f
    ensures x !in ReachOf(d, f, f[x].children)
    ensures ReachSet(d, f, x) == ReachOf(d, f, f[x].children) + {x}
  {
    var cs := f[x].children;
    forall y ensures y in ReachSet(d, f, x) <==> y == x || y in ReachOf(d, f, cs) {
      ReachOfMembers(d, f, cs, y);
      if y in ReachSet(d, f, x) && y != x {
        var c :| c in cs && Reach(d, f, y, c);
      }
    }
    ReachOfMembers(d, f, cs, x);
    if x in ReachOf(d, f, cs) {
      var c :| c in cs && Reach(d, f, x, c);
      ChildIsDeeper(d, f, x, c);
      ReachIn(d, f, x, c);
      BelowTaskDepth(d, x.taskId, c.taskId);
    }
  }

  // ---- The end: unlink and delete ----

  function WithoutChild(cs: seq<InstanceId>, x: InstanceId): seq<InstanceId> {
    if cs == [] then []
    else if cs[|cs| - 1] == x then WithoutChild(cs[..|cs| - 1], x)
    else WithoutChild(cs[..|cs| - 1], x) + [cs[|cs| - 1]]
  }

  /** x is taken off its parent's list, if the parent exists, and deleted. */
  function WithoutNode(f: Instances, x: InstanceId, parent: Option<InstanceId>): Instances {
    var g := if parent.Some? && parent.value in f then
               f[parent.value := f[parent.value].(children := WithoutChild(f[parent.value].children, x))]
             else f;
    g - {x}
  }

  lemma {:induction false} WithoutIsKept(cs: seq<InstanceId>, f: Instances, x: InstanceId, y: InstanceId)
    requires x in f && f[x].parent == Some(y)
    ensures WithoutChild(cs, x) == KeptChildren(cs, f, y, {x})
  {
    if cs != [] {
      WithoutIsKept(cs[..|cs| - 1], f, x, y);
    }
  }

  lemma WithoutNodeIsPrune(f: Instances, x: InstanceId)
    requires x in f
    ensures WithoutNode(f, x, f[x].parent) == Prune(f, {x})
  {
    var g, h := WithoutNode(f, x, f[x].parent), Prune(f, {x});
    assert g.Keys == f.Keys - {x} == h.Keys;
    forall y | y in g ensures g[y] == h[y] {
      assert h[y].children == KeptChildren(f[y].children, f, y, {x});
      if f[x].parent == Some(y) {
        WithoutIsKept(f[y].children, f, x, y);
      } else {
        KeptAll(f[y].children, f, y, {x});
      }
    }
  }

  /** The children have gone, and now x itself. */
  lemma RemovalDone(d: Defs, f: Instances, x: InstanceId)
    requires DefsOk(d) && LinksOk(d, f) && x in f
    ensures var g := Prune(f, ReachOf(d, f, f[x].children));
            x in g && WithoutNode(g, x, f[x].parent) == Prune(f, ReachSet(d, f, x))
  {
    var gone := ReachOf(d, f, f[x].children);
    WholeReach(d, f, x);
    WithoutNodeIsPrune(Prune(f, gone), x);
    PruneTwice(f, gone, {x});
  }

  // ---- In a sound forest ----

  /** A surviving instance keeps all its children, except that the parent of x loses x. */
  lemma OnlyTheParentChanges(d: Defs, f: Instances, x: InstanceId, y: InstanceId)
    requires DefsOk(d) && Sound(d, f) && LinksOk(d, f) && y in f && !Reach(d, f, y, x)
    ensures forall c | c in f[y].children && c != x :: c in f && !Reach(d, f, c, x)
    ensures x !in f || f[x].parent != Some(y) ==> Prune(f, ReachSet(d, f, x))[y] == f[y]
  {
    assert NodeOk(d, f, y);
    forall c | c in f[y].children && c != x ensures c in f && !Reach(d, f, c, x) {
      assert NodeOk(d, f, c);
      if Reach(d, f, c, x) {
        ReachIsBelow(d, f, c, x);
        BelowIsReach(d, f, y, x);
      }
    }
    if x !in f || f[x].parent != Some(y) {
      KeptAll(f[y].children, f, y, ReachSet(d, f, x));
    }
  }

  lemma PruneNode(d: Defs, f: Instances, x: InstanceId, y: InstanceId)
    requires DefsOk(d) && Sound(d, f) && LinksOk(d, f) && y in f && !Reach(d, f, y, x)
    ensures NodeOk(d, Prune(f, ReachSet(d, f, x)), y)
  {
    var gone := ReachSet(d, f, x);
    var g := Prune(f, gone);
    assert NodeOk(d, f, y);
    KeptNoDuplicates(f[y].children, f, y, gone);
    OnlyTheParentChanges(d, f, x, y);
    forall c | c in g[y].children ensures c in g && g[c].parent == Some(y) && IndexFits(d, y, c) {
      assert c in f[y].children && f[c].parent == Some(y);
    }
    if f[y].parent.Some? {
      var p := f[y].parent.value;
      if Reach(d, f, p, x) {
        assert Reach(d, f, y, y) && Reach(d, f, y, p);
        ReachTrans(d, f, y, p, x);
      }
      assert p in g && y in g[p].children;
    }
  }

  /** Removing keeps a sound forest sound. */
  lemma PruneSound(d: Defs, f: Instances, x: InstanceId)
    requires DefsOk(d) && Sound(d, f) && LinksOk(d, f)
    ensures Sound(d, Prune(f, ReachSet(d, f, x)))
  {
    var g := Prune(f, ReachSet(d, f, x));
    forall y | y in g ensures NodeOk(d, g, y) {
      PruneNode(d, f, x, y);
    }
  }

  /** Removing an instance that its parent can do without leaves every other instance complete. */
  lemma PruneComplete(d: Defs, f: Instances, x: InstanceId)
    requires DefsOk(d) && Sound(d, f) && LinksOk(d, f) && AllComplete(d, f)
    requires !Fixed(d, x.taskId)
    ensures AllComplete(d, Prune(f, ReachSet(d, f, x)))
  {
    var g := Prune(f, ReachSet(d, f, x));
    forall y | y in g ensures Complete(d, g, y) {
      assert Complete(d, f, y);
      OnlyTheParentChanges(d, f, x, y);
      forall c | c in d.tasks[y.taskId].childrenIds && Fixed(d, c) ensures HasChildOf(g, y, c) {
        var z :| z in f[y].children && z.taskId == c;
        assert z != x && z in g[y].children;
      }
    }
  }
}
