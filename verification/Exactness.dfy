/**
  When the warning before a deletion is right: what removing an instance and reconciling take away,
  turn by turn, and the condition on the forest under which that is exactly what was reported.
 */
module Exactness {
  import opened Wrappers
  import opened InstanceIds
  import opened States
  import opened Schema
  import opened Forest
  import opened Growth
  import opened Removal
  import opened TaskStore
  import opened Sync
  import opened Impact
  import opened Prediction

  /** A settled forest, and an instance in it that is deleted by hand: one of a task that is not mapped. */
  ghost predicate Deletion(d: Defs, f: Instances, order: seq<string>, r: string, i: nat)
    requires DefsOk(d)
  {
    && LinksOk(d, f) && OrderOk(d, order) && AllSettled(d, f)
    && Inst(r, i) in f && !IsTarget(d, r)
    && (forall t {:trigger IsTarget(d, t)} | IsTarget(d, t) && d.tasks[t].repeatable :: Outermost(d, t))
  }

  // ---- What goes, turn by turn ----

  /** The indices at which the source of t has gone. */
  ghost function CutIndices(d: Defs, f: Instances, t: string, gone: set<InstanceId>): set<nat>
    requires IsTarget(d, t)
  {
    set j | j in Idx(f, t) && Inst(SourceOf(d, t), j) in gone
  }

  /** What has gone after the removal and the first k turns of the reconciliation. */
  ghost function GoneAfter(d: Defs, f: Instances, order: seq<string>, r: string, i: nat, k: nat): set<InstanceId>
    requires DefsOk(d) && LinksOk(d, f) && k <= |order|
  {
    if k == 0 then ReachSet(d, f, Inst(r, i))
    else
      var prev := GoneAfter(d, f, order, r, i, k - 1);
      if IsTarget(d, order[k - 1]) then prev + Gone(d, f, order[k - 1], CutIndices(d, f, order[k - 1], prev)) else prev
  }

  lemma {:induction false} GoneAfterClosed(d: Defs, f: Instances, order: seq<string>, r: string, i: nat, k: nat)
    requires DefsOk(d) && LinksOk(d, f) && k <= |order|
    ensures Closed(d, f, GoneAfter(d, f, order, r, i, k))
    ensures forall y | y in GoneAfter(d, f, order, r, i, k) :: y in f
  {
    if k == 0 {
      ReachSetClosed(d, f, Inst(r, i));
    } else {
      GoneAfterClosed(d, f, order, r, i, k - 1);
      if IsTarget(d, order[k - 1]) {
        var prev := GoneAfter(d, f, order, r, i, k - 1);
        var cut := CutIndices(d, f, order[k - 1], prev);
        GoneClosed(d, f, order[k - 1], cut);
        ClosedUnion(d, f, prev, Gone(d, f, order[k - 1], cut));
      }
    }
  }

  lemma {:induction false} GoneAfterGrows(d: Defs, f: Instances, order: seq<string>, r: string, i: nat, j: nat, k: nat)
    requires DefsOk(d) && LinksOk(d, f) && j <= k <= |order|
    ensures GoneAfter(d, f, order, r, i, j) <= GoneAfter(d, f, order, r, i, k)
  {
    if j < k {
      GoneAfterGrows(d, f, order, r, i, j, k - 1);
    }
  }

  /** What has gone lies below the deleted instance or below a removed instance of an earlier target. */
  lemma {:induction false} GoneOrigin(d: Defs, f: Instances, order: seq<string>, r: string, i: nat, k: nat,
                                      y: InstanceId)
    returns (m: nat, j: nat)
    requires DefsOk(d) && LinksOk(d, f) && k <= |order| && y in GoneAfter(d, f, order, r, i, k)
    ensures Reach(d, f, y, Inst(r, i)) ||
            (m < k && IsTarget(d, order[m]) && Reach(d, f, y, Inst(order[m], j)) &&
             Inst(order[m], j) in GoneAfter(d, f, order, r, i, m + 1))
  {
    m, j := 0, 0;
    if k > 0 {
      var prev := GoneAfter(d, f, order, r, i, k - 1);
      if y in prev {
        m, j := GoneOrigin(d, f, order, r, i, k - 1, y);
      } else {
        var t := order[k - 1];
        var cut := CutIndices(d, f, t, prev);
        j :| j in cut && Reach(d, f, y, Inst(t, j));
        m := k - 1;
        IdxHas(f, t, j);
        assert Reach(d, f, Inst(t, j), Inst(t, j));
        assert Inst(t, j) in Gone(d, f, t, cut);
      }
    }
  }

  /** An outermost target only loses instances at its own turn. */
  lemma OutermostWaits(d: Defs, f: Instances, order: seq<string>, r: string, i: nat, k: nat, j: nat)
    requires DefsOk(d) && Deletion(d, f, order, r, i) && k < |order|
    requires IsTarget(d, order[k]) && Outermost(d, order[k])
    ensures Inst(order[k], j) !in GoneAfter(d, f, order, r, i, k)
  {
    var t := order[k];
    if Inst(t, j) in GoneAfter(d, f, order, r, i, k) {
      var m, n := GoneOrigin(d, f, order, r, i, k, Inst(t, j));
      if Reach(d, f, Inst(t, j), Inst(r, i)) {
        ReachIn(d, f, Inst(t, j), Inst(r, i));
        assert NodeLinks(d, f, Inst(r, i));
        OutermostApart(d, t, r);
      } else {
        ReachIn(d, f, Inst(t, j), Inst(order[m], n));
        assert NodeLinks(d, f, Inst(order[m], n));
        OutermostApart(d, t, order[m]);
      }
    }
  }

  /**
    In g, which has the shape of f without `gone`, the target lacks sources exactly at the cut indices
    that it still has.
   */
  lemma TurnIndices(d: Defs, f: Instances, g: Instances, t: string, gone: set<InstanceId>)
    requires DefsOk(d) && LinksOk(d, f) && SameShape(Prune(f, gone), g) && IsTarget(d, t) &&
               Settled(d, f, t, SourceOf(d, t))
    requires d.tasks[t].repeatable ==> forall j :: Inst(t, j) !in gone
    ensures Wanted(d, g, t, SourceOf(d, t)) <= Idx(g, t)
    ensures forall j: nat :: j in Idx(g, t) - Wanted(d, g, t, SourceOf(d, t)) <==>
                             j in CutIndices(d, f, t, gone) && Inst(t, j) !in gone
  {
    var s := SourceOf(d, t);
    forall j: nat ensures j in Idx(g, t) <==> j in Idx(f, t) && Inst(t, j) !in gone
                  ensures j in Idx(g, s) <==> j in Idx(f, s) && Inst(s, j) !in gone {
      IdxHas(f, t, j);
      IdxHas(g, t, j);
      IdxHas(f, s, j);
      IdxHas(g, s, j);
    }
  }

  lemma GoneInShape(d: Defs, f: Instances, g: Instances, t: string, gone: set<InstanceId>, cut: set<nat>)
    requires DefsOk(d) && LinksOk(d, f) && LinksOk(d, g) && SameShape(Prune(f, gone), g) && Closed(d, f, gone)
    ensures Gone(d, g, t, cut) == Gone(d, f, t, cut) - gone
  {
    var p := Prune(f, gone);
    PruneLinks(d, f, gone);
    forall y ensures y in Gone(d, g, t, cut) <==> y in Gone(d, f, t, cut) - gone {
      forall j | j in cut ensures Reach(d, g, y, Inst(t, j)) <==> y !in gone && Reach(d, f, y, Inst(t, j)) {
        PruneReach(d, f, gone, y, Inst(t, j));
        ReachSameShape(d, p, g, y, Inst(t, j));
        ReachSameShape(d, g, p, y, Inst(t, j));
      }
    }
  }

  /** Indices whose target instance has gone already add nothing. */
  lemma CutTwice(d: Defs, f: Instances, t: string, gone: set<InstanceId>, cut: set<nat>, some: set<nat>)
    requires DefsOk(d) && LinksOk(d, f) && Closed(d, f, gone)
    requires forall j: nat :: j in some <==> j in cut && Inst(t, j) !in gone
    ensures gone + (Gone(d, f, t, some) - gone) == gone + Gone(d, f, t, cut)
  {
    forall y ensures y in gone + (Gone(d, f, t, some) - gone) <==> y in gone + Gone(d, f, t, cut) {
      if y in Gone(d, f, t, cut) {
        var j :| j in cut && Reach(d, f, y, Inst(t, j));
        assert Inst(t, j) in gone || j in some;
      }
    }
  }

  /** One turn of the reconciliation. */
  lemma TurnStep(d: Defs, f: Instances, g: Instances, h: Instances, order: seq<string>, r: string, i: nat, k: nat)
    requires DefsOk(d) && Deletion(d, f, order, r, i) && k < |order| && IsTarget(d, order[k]) && LinksOk(d, g)
    requires SameShape(Prune(f, GoneAfter(d, f, order, r, i, k)), g)
    requires Reconciled(d, g, h, order[k], SourceOf(d, order[k]))
    ensures SameShape(Prune(f, GoneAfter(d, f, order, r, i, k + 1)), h)
  {
    var t, gone := order[k], GoneAfter(d, f, order, r, i, k);
    var s, cut := SourceOf(d, t), CutIndices(d, f, t, gone);
    if d.tasks[t].repeatable {
      forall j ensures Inst(t, j) !in gone {
        OutermostWaits(d, f, order, r, i, k, j);
      }
    }
    GoneAfterClosed(d, f, order, r, i, k);
    TurnIndices(d, f, g, t, gone);
    TurnShape(d, f, g, h, t, gone, cut, Idx(g, t) - Wanted(d, g, t, s));
  }

  lemma TurnShape(d: Defs, f: Instances, g: Instances, h: Instances, t: string, gone: set<InstanceId>, cut: set<nat>,
                  some: set<nat>)
    requires DefsOk(d) && LinksOk(d, f) && LinksOk(d, g) && Closed(d, f, gone) && SameShape(Prune(f, gone), g)
    requires forall j: nat :: j in some <==> j in cut && Inst(t, j) !in gone
    requires SameShape(Prune(g, Gone(d, g, t, some)), h)
    ensures SameShape(Prune(f, gone + Gone(d, f, t, cut)), h)
  {
    GoneInShape(d, f, g, t, gone, some);
    PruneSameShape(Prune(f, gone), g, Gone(d, g, t, some));
    PruneTwice(f, gone, Gone(d, f, t, some) - gone);
    CutTwice(d, f, t, gone, cut, some);
  }

  lemma {:induction false} TurnsDone(d: Defs, f: Instances, run: seq<Instances>, order: seq<string>, r: string,
                                     i: nat, k: nat)
    requires DefsOk(d) && Deletion(d, f, order, r, i) && k <= |order|
    requires SyncRun(d, order, run) && |run| == |order| + 1 && run[0] == Prune(f, ReachSet(d, f, Inst(r, i)))
    ensures SameShape(Prune(f, GoneAfter(d, f, order, r, i, k)), run[k])
  {
    if k > 0 {
      TurnsDone(d, f, run, order, r, i, k - 1);
      assert SyncStep(d, order, run, k - 1);
      if IsTarget(d, order[k - 1]) {
        TurnStep(d, f, run[k - 1], run[k], order, r, i, k - 1);
      }
    }
  }

  // ---- The condition ----

  /** y is reached from an instance of the cascade: if it has an answer, the warning names it. */
  ghost predicate Warned(d: Defs, f: Instances, order: seq<string>, r: string, i: nat, y: InstanceId)
    requires DefsOk(d) && LinksOk(d, f)
  {
    exists u :: u in Cascade(d, f, order, r, i, |order|) && Reach(d, f, y, Inst(u, i))
  }

  /** Wherever the warning names a source instance, it names the target instance of that index too, if there is one. */
  ghost predicate TargetsNamed(d: Defs, f: Instances, order: seq<string>, r: string, i: nat)
    requires DefsOk(d) && LinksOk(d, f)
  {
    forall t, j: nat {:trigger IsTarget(d, t), Inst(t, j)} |
      IsTarget(d, t) && Inst(t, j) in f && Warned(d, f, order, r, i, Inst(SourceOf(d, t), j)) ::
      Warned(d, f, order, r, i, Inst(t, j))
  }

  /** Every target of the cascade has its source instance named, or lies below another instance of the cascade. */
  ghost predicate SourcesNamed(d: Defs, f: Instances, order: seq<string>, r: string, i: nat)
    requires DefsOk(d) && LinksOk(d, f)
  {
    forall t {:trigger IsTarget(d, t)} | t in Cascade(d, f, order, r, i, |order|) && t != r && IsTarget(d, t) ::
      Warned(d, f, order, r, i, Inst(SourceOf(d, t), i)) || BelowOther(d, f, order, r, i, t)
  }

  ghost predicate BelowOther(d: Defs, f: Instances, order: seq<string>, r: string, i: nat, t: string)
    requires DefsOk(d) && LinksOk(d, f)
  {
    exists u :: u in Cascade(d, f, order, r, i, |order|) && u != t && Reach(d, f, Inst(t, i), Inst(u, i))
  }

  /** The condition, to be read off the forest before the deletion. */
  ghost predicate Exact(d: Defs, f: Instances, order: seq<string>, r: string, i: nat)
    requires DefsOk(d) && LinksOk(d, f)
  {
    TargetsNamed(d, f, order, r, i) && SourcesNamed(d, f, order, r, i)
  }

  /** The warning names exactly what goes. */
  ghost predicate RightWarning(d: Defs, f: Instances, order: seq<string>, r: string, i: nat)
    requires DefsOk(d) && LinksOk(d, f)
  {
    forall y {:trigger Warned(d, f, order, r, i, y)} | y in f ::
      Warned(d, f, order, r, i, y) <==> y in GoneAfter(d, f, order, r, i, |order|)
  }

  lemma WarnedDown(d: Defs, f: Instances, order: seq<string>, r: string, i: nat, y: InstanceId, x: InstanceId)
    requires DefsOk(d) && LinksOk(d, f) && Warned(d, f, order, r, i, x) && Reach(d, f, y, x)
    ensures Warned(d, f, order, r, i, y)
  {
    var u :| u in Cascade(d, f, order, r, i, |order|) && Reach(d, f, x, Inst(u, i));
    ReachTrans(d, f, y, x, Inst(u, i));
  }

  /** Named targets are enough for everything that goes to be named. */
  lemma {:induction false} GoneIsWarned(d: Defs, f: Instances, order: seq<string>, r: string, i: nat, k: nat,
                                        y: InstanceId)
    requires DefsOk(d) && LinksOk(d, f) && k <= |order| && TargetsNamed(d, f, order, r, i)
    requires y in GoneAfter(d, f, order, r, i, k)
    ensures Warned(d, f, order, r, i, y)
  {
    if k == 0 {
      CascadeHasRoot(d, f, order, r, i, |order|);
    } else {
      var prev := GoneAfter(d, f, order, r, i, k - 1);
      if y in prev {
        GoneIsWarned(d, f, order, r, i, k - 1, y);
      } else {
        var t := order[k - 1];
        var j :| j in CutIndices(d, f, t, prev) && Reach(d, f, y, Inst(t, j));
        GoneIsWarned(d, f, order, r, i, k - 1, Inst(SourceOf(d, t), j));
        IdxHas(f, t, j);
        WarnedDown(d, f, order, r, i, y, Inst(t, j));
      }
    }
  }

  /** A task of the cascade above t comes before t in the order. */
  lemma AboveEarlier(d: Defs, f: Instances, order: seq<string>, r: string, i: nat, k: nat, u: string)
    requires DefsOk(d) && OrderOk(d, order) && k < |order| && order[k] in d.tasks
    requires u in Cascade(d, f, order, r, i, |order|) && u != order[k] && BelowTask(d, order[k], u)
    ensures u in Cascade(d, f, order, r, i, k)
  {
    if u != r {
      CascadeMembers(d, f, order, r, i, |order|, u);
      var j :| 0 <= j < |order| && order[j] == u;
      assert j < k || j == k || NotAbove(d, order, k, j);
    }
    CascadeEarly(d, f, order, r, i, k, u);
  }

  /** With named sources every member of the cascade really goes. */
  lemma {:induction false} MemberGoes(d: Defs, f: Instances, order: seq<string>, r: string, i: nat, k: nat, u: string)
    requires DefsOk(d) && LinksOk(d, f) && OrderOk(d, order) && k <= |order| && SourcesNamed(d, f, order, r, i)
    requires u in Cascade(d, f, order, r, i, k) && Inst(r, i) in f
    ensures Inst(u, i) in GoneAfter(d, f, order, r, i, k)
  {
    if k == 0 {
      assert Reach(d, f, Inst(r, i), Inst(r, i));
    } else if u in Cascade(d, f, order, r, i, k - 1) {
      MemberGoes(d, f, order, r, i, k - 1, u);
    } else {
      var v := EarlierMember(d, f, order, r, i, k - 1);
      MemberGoes(d, f, order, r, i, k - 1, v);
      GoesAlong(d, f, order, r, i, k - 1, v);
    }
  }

  /**
    The member that takes the newly found target along: it reaches the target's source instance, or
    the target itself.
   */
  lemma EarlierMember(d: Defs, f: Instances, order: seq<string>, r: string, i: nat, k: nat) returns (v: string)
    requires DefsOk(d) && LinksOk(d, f) && OrderOk(d, order) && k < |order| && SourcesNamed(d, f, order, r, i)
    requires order[k] in Cascade(d, f, order, r, i, k + 1) && order[k] !in Cascade(d, f, order, r, i, k)
    ensures IsTarget(d, order[k]) && Inst(order[k], i) in f && v in Cascade(d, f, order, r, i, k)
    ensures Reach(d, f, Inst(SourceOf(d, order[k]), i), Inst(v, i)) || Reach(d, f, Inst(order[k], i), Inst(v, i))
  {
    var t := order[k];
    CascadeHasRoot(d, f, order, r, i, k);
    CascadeGrows(d, f, order, r, i, k + 1, |order|);
    assert t in order && IsTarget(d, t) && MappingOk(d, t);
    if Warned(d, f, order, r, i, Inst(SourceOf(d, t), i)) {
      v :| v in Cascade(d, f, order, r, i, |order|) && Reach(d, f, Inst(SourceOf(d, t), i), Inst(v, i));
      ReachIn(d, f, Inst(SourceOf(d, t), i), Inst(v, i));
      FeederEarlier(d, f, order, r, i, k, v);
      CascadeEarly(d, f, order, r, i, k, v);
    } else {
      assert BelowOther(d, f, order, r, i, t);
      v :| v in Cascade(d, f, order, r, i, |order|) && v != t && Reach(d, f, Inst(t, i), Inst(v, i));
      ReachIn(d, f, Inst(t, i), Inst(v, i));
      AboveEarlier(d, f, order, r, i, k, v);
    }
  }

  lemma GoesAlong(d: Defs, f: Instances, order: seq<string>, r: string, i: nat, k: nat, v: string)
    requires DefsOk(d) && LinksOk(d, f) && k < |order| && IsTarget(d, order[k]) && Inst(order[k], i) in f
    requires Inst(v, i) in GoneAfter(d, f, order, r, i, k)
    requires Reach(d, f, Inst(SourceOf(d, order[k]), i), Inst(v, i)) || Reach(d, f, Inst(order[k], i), Inst(v, i))
    ensures Inst(order[k], i) in GoneAfter(d, f, order, r, i, k + 1)
  {
    var t, prev := order[k], GoneAfter(d, f, order, r, i, k);
    GoneAfterClosed(d, f, order, r, i, k);
    if Reach(d, f, Inst(SourceOf(d, t), i), Inst(v, i)) {
      assert Inst(SourceOf(d, t), i) in prev;
      IdxHas(f, t, i);
      assert i in CutIndices(d, f, t, prev);
      assert Reach(d, f, Inst(t, i), Inst(t, i));
    }
  }

  /** An instance that goes although no target from position k on lies at or above its task has gone by then. */
  lemma {:induction false} GoneEarly(d: Defs, f: Instances, order: seq<string>, r: string, i: nat, k: nat, n: nat,
                                     y: InstanceId)
    requires DefsOk(d) && LinksOk(d, f) && k <= n <= |order| && y in GoneAfter(d, f, order, r, i, n) &&
               y.taskId in d.tasks
    requires forall m {:trigger order[m]} | k <= m < n && IsTarget(d, order[m]) :: !BelowTask(d, y.taskId, order[m])
    ensures y in GoneAfter(d, f, order, r, i, k)
  {
    if k < n {
      var prev := GoneAfter(d, f, order, r, i, n - 1);
      if y !in prev {
        var j :| j in CutIndices(d, f, order[n - 1], prev) && Reach(d, f, y, Inst(order[n - 1], j));
        ReachIn(d, f, y, Inst(order[n - 1], j));
      }
      GoneEarly(d, f, order, r, i, k, n - 1, y);
    }
  }

  /** Where a source instance goes, its target instance goes. */
  lemma TargetGoes(d: Defs, f: Instances, order: seq<string>, r: string, i: nat, k: nat, j: nat)
    requires DefsOk(d) && LinksOk(d, f) && OrderOk(d, order) && k < |order| && IsTarget(d, order[k]) &&
               MappingOk(d, order[k])
    requires Inst(order[k], j) in f && Inst(SourceOf(d, order[k]), j) in GoneAfter(d, f, order, r, i, |order|)
    ensures Inst(order[k], j) in GoneAfter(d, f, order, r, i, |order|)
  {
    var t := order[k];
    forall m | k <= m < |order| && IsTarget(d, order[m]) ensures !BelowTask(d, SourceOf(d, t), order[m]) {
      assert SourceBefore(d, order, k, m);
    }
    GoneEarly(d, f, order, r, i, k, |order|, Inst(SourceOf(d, t), j));
    IdxHas(f, t, j);
    assert j in CutIndices(d, f, t, GoneAfter(d, f, order, r, i, k));
    assert Reach(d, f, Inst(t, j), Inst(t, j));
    GoneAfterGrows(d, f, order, r, i, k + 1, |order|);
  }

  lemma RightNamesTargets(d: Defs, f: Instances, order: seq<string>, r: string, i: nat, t: string, j: nat)
    requires DefsOk(d) && LinksOk(d, f) && OrderOk(d, order) && RightWarning(d, f, order, r, i)
    requires IsTarget(d, t) && Inst(t, j) in f && Warned(d, f, order, r, i, Inst(SourceOf(d, t), j))
    ensures Warned(d, f, order, r, i, Inst(t, j))
  {
    var s := Inst(SourceOf(d, t), j);
    var u :| u in Cascade(d, f, order, r, i, |order|) && Reach(d, f, s, Inst(u, i));
    ReachIn(d, f, s, Inst(u, i));
    assert MappingOk(d, t) && t in order;
    var k :| 0 <= k < |order| && order[k] == t;
    TargetGoes(d, f, order, r, i, k, j);
  }

  lemma RightNamesSources(d: Defs, f: Instances, order: seq<string>, r: string, i: nat, k: nat)
    requires DefsOk(d) && LinksOk(d, f) && OrderOk(d, order) && RightWarning(d, f, order, r, i) && k < |order|
    requires order[k] in Cascade(d, f, order, r, i, |order|) && order[k] != r && IsTarget(d, order[k])
    ensures Warned(d, f, order, r, i, Inst(SourceOf(d, order[k]), i)) || BelowOther(d, f, order, r, i, order[k])
  {
    var t := order[k];
    CascadeMembers(d, f, order, r, i, |order|, t);
    assert Reach(d, f, Inst(t, i), Inst(t, i));
    assert Warned(d, f, order, r, i, Inst(t, i));
    forall m | k + 1 <= m < |order| && IsTarget(d, order[m]) ensures !BelowTask(d, t, order[m]) {
      assert NotAbove(d, order, k, m);
    }
    GoneEarly(d, f, order, r, i, k + 1, |order|, Inst(t, i));
    if Inst(t, i) in GoneAfter(d, f, order, r, i, k) {
      EarlierIsBelowOther(d, f, order, r, i, k);
    } else {
      var prev := GoneAfter(d, f, order, r, i, k);
      var j :| j in CutIndices(d, f, t, prev) && Reach(d, f, Inst(t, i), Inst(t, j));
      ReachIn(d, f, Inst(t, i), Inst(t, j));
      GoneAfterGrows(d, f, order, r, i, k, |order|);
      GoneAfterClosed(d, f, order, r, i, |order|);
      assert Inst(SourceOf(d, t), i) in f;
    }
  }

  lemma EarlierIsBelowOther(d: Defs, f: Instances, order: seq<string>, r: string, i: nat, k: nat)
    requires DefsOk(d) && LinksOk(d, f) && OrderOk(d, order) && RightWarning(d, f, order, r, i) && k < |order|
    requires order[k] != r && Inst(order[k], i) in GoneAfter(d, f, order, r, i, k)
    ensures BelowOther(d, f, order, r, i, order[k])
  {
    var t := order[k];
    var m, j := GoneOrigin(d, f, order, r, i, k, Inst(t, i));
    if Reach(d, f, Inst(t, i), Inst(r, i)) {
      CascadeHasRoot(d, f, order, r, i, |order|);
    } else {
      var v := Inst(order[m], j);
      GoneAfterGrows(d, f, order, r, i, m + 1, |order|);
      ReachIn(d, f, Inst(t, i), v);
      assert Warned(d, f, order, r, i, v);
      var u :| u in Cascade(d, f, order, r, i, |order|) && Reach(d, f, v, Inst(u, i));
      ReachTrans(d, f, Inst(t, i), v, Inst(u, i));
      ReachIn(d, f, v, Inst(u, i));
      assert order[m] != order[k];
      if u == t {
        BelowTaskDepth(d, t, order[m]);
        BelowTaskDepth(d, order[m], t);
      }
    }
  }

  /** The warning is right if and only if the condition holds. */
  lemma RightIffExact(d: Defs, f: Instances, order: seq<string>, r: string, i: nat)
    requires DefsOk(d) && LinksOk(d, f) && OrderOk(d, order) && Inst(r, i) in f
    ensures RightWarning(d, f, order, r, i) <==> Exact(d, f, order, r, i)
  {
    if Exact(d, f, order, r, i) {
      ExactIsRight(d, f, order, r, i);
    }
    if RightWarning(d, f, order, r, i) {
      forall t, j: nat | IsTarget(d, t) && Inst(t, j) in f && Warned(d, f, order, r, i, Inst(SourceOf(d, t), j))
        ensures Warned(d, f, order, r, i, Inst(t, j)) {
        RightNamesTargets(d, f, order, r, i, t, j);
      }
      forall t | t in Cascade(d, f, order, r, i, |order|) && t != r && IsTarget(d, t)
        ensures Warned(d, f, order, r, i, Inst(SourceOf(d, t), i)) || BelowOther(d, f, order, r, i, t) {
        assert t in order;
        var k :| 0 <= k < |order| && order[k] == t;
        RightNamesSources(d, f, order, r, i, k);
      }
    }
  }

  lemma ExactIsRight(d: Defs, f: Instances, order: seq<string>, r: string, i: nat)
    requires DefsOk(d) && LinksOk(d, f) && OrderOk(d, order) && Inst(r, i) in f && Exact(d, f, order, r, i)
    ensures RightWarning(d, f, order, r, i)
  {
    forall y | y in f ensures Warned(d, f, order, r, i, y) <==> y in GoneAfter(d, f, order, r, i, |order|) {
      if y in GoneAfter(d, f, order, r, i, |order|) {
        GoneIsWarned(d, f, order, r, i, |order|, y);
      }
      if Warned(d, f, order, r, i, y) {
        var u :| u in Cascade(d, f, order, r, i, |order|) && Reach(d, f, y, Inst(u, i));
        MemberGoes(d, f, order, r, i, |order|, u);
        GoneAfterClosed(d, f, order, r, i, |order|);
      }
    }
  }

  /** For every choice of answers the warning names exactly those that are lost, if and only if the condition holds. */
  lemma AllAnswersIffExact(d: Defs, f: Instances, order: seq<string>, r: string, i: nat)
    requires DefsOk(d) && LinksOk(d, f) && OrderOk(d, order) && Inst(r, i) in f
    ensures Exact(d, f, order, r, i) <==>
            forall answers: Answers :: NamesLost(d, f, order, r, i, answers)
  {
    RightIffExact(d, f, order, r, i);
    if forall answers: Answers :: NamesLost(d, f, order, r, i, answers) {
      var every := map y | y in f :: Answer(Text("x"), "");
      assert NamesLost(d, f, order, r, i, every);
      forall y | y in f ensures Warned(d, f, order, r, i, y) <==> y in GoneAfter(d, f, order, r, i, |order|) {
        assert y in every && every[y].value == Text("x");
      }
    }
  }

  ghost predicate NamesLost(d: Defs, f: Instances, order: seq<string>, r: string, i: nat, answers: Answers)
    requires DefsOk(d) && LinksOk(d, f)
  {
    forall y | y in f && y in answers && answers[y].value != Cleared && answers[y].value != Text("") &&
        answers[y].value != Choices([]) ::
      Warned(d, f, order, r, i, y) <==> y in GoneAfter(d, f, order, r, i, |order|)
  }

  lemma ListedIsWarned(d: Defs, f: Instances, order: seq<string>, r: string, i: nat, y: InstanceId)
    requires DefsOk(d) && LinksOk(d, f) && y in f
    ensures ListedInCascade(d, f, order, r, i, y) <==> Warned(d, f, order, r, i, y)
  {
    forall u | u in Cascade(d, f, order, r, i, |order|) ensures Listed(d, f, y, Inst(u, i)) <==>
        Reach(d, f, y, Inst(u, i)) {
      ListedIsReach(d, f, y, Inst(u, i));
    }
  }

  /** The instances that were warned about are exactly those of f that g lacks. */
  ghost predicate WarnedIsLost(d: Defs, f: Instances, g: Instances, order: seq<string>, r: string, i: nat)
    requires DefsOk(d) && LinksOk(d, f)
  {
    forall y {:trigger Warned(d, f, order, r, i, y)} | y in f :: Warned(d, f, order, r, i, y) <==> y !in g
  }

  /** The user's deletion: removing the instance, then reconciling. */
  method RemoveThenSync(store: TaskStore, order: seq<string>, x: InstanceId)
    requires store.Ready() && x.index.Some? && Deletion(store.d, store.instances, order, x.taskId, x.index.value)
    modifies store
    ensures store.Ready() && AllSettled(store.d, store.instances)
    ensures store.instances.Keys ==
            old(store.instances.Keys) - GoneAfter(store.d, old(store.instances), order, x.taskId, x.index.value,
                                                  |order|)
    ensures WarnedIsLost(store.d, old(store.instances), store.instances, order, x.taskId, x.index.value) <==>
            Exact(store.d, old(store.instances), order, x.taskId, x.index.value)
  {
    ghost var d, f, r, i := store.d, store.instances, x.taskId, x.index.value;
    store.RemoveRepeatableTaskInstance(x);
    ghost var run := SyncInstances(store, order);
    TurnsDone(d, f, run, order, r, i, |order|);
    assert store.instances.Keys == f.Keys - GoneAfter(d, f, order, r, i, |order|);
    LostIsGone(d, f, store.instances, order, r, i);
  }

  lemma LostIsGone(d: Defs, f: Instances, g: Instances, order: seq<string>, r: string, i: nat)
    requires DefsOk(d) && LinksOk(d, f) && OrderOk(d, order) && Inst(r, i) in f
    requires g.Keys == f.Keys - GoneAfter(d, f, order, r, i, |order|)
    ensures WarnedIsLost(d, f, g, order, r, i) <==> Exact(d, f, order, r, i)
  {
    RightIffExact(d, f, order, r, i);
    assert WarnedIsLost(d, f, g, order, r, i) <==> RightWarning(d, f, order, r, i);
  }

  /**
    The warning and the deletion together. The warning is about exactly the instances that go if
    and only if the condition held before; of these it names the ones with an answer.
   */
  method PredictThenDelete(store: TaskStore, order: seq<string>, answers: Answers, x: InstanceId)
    returns (impacted: seq<ImpactedAnswer>)
    requires store.Ready() && x.index.Some? && Deletion(store.d, store.instances, order, x.taskId, x.index.value)
    modifies store
    ensures store.Ready() && AllSettled(store.d, store.instances)
    ensures store.instances.Keys ==
            old(store.instances.Keys) - GoneAfter(store.d, old(store.instances), order, x.taskId, x.index.value,
                                                  |order|)
    ensures forall e | e in impacted :: e.id in answers && e.value == answers[e.id].value
    ensures forall y | y in old(store.instances) ::
              y in Ids(impacted) <==>
                  && Warned(store.d, old(store.instances), order, x.taskId, x.index.value, y)
                  && y in answers
                  && answers[y].value != Cleared && answers[y].value != Text("") && answers[y].value != Choices([])
    ensures WarnedIsLost(store.d, old(store.instances), store.instances, order, x.taskId, x.index.value) <==>
            Exact(store.d, old(store.instances), order, x.taskId, x.index.value)
  {
    ghost var d, f, r, i := store.d, store.instances, x.taskId, x.index.value;
    assert NodeLinks(d, f, x);
    impacted := FindImpactedByDelete(d, store.flatTasks, order, store.instances, answers, x);
    forall y | y in f ensures ListedInCascade(d, f, order, r, i, y) <==> Warned(d, f, order, r, i, y) {
      ListedIsWarned(d, f, order, r, i, y);
    }
    RemoveThenSync(store, order, x);
  }

  // ---- Forms and forests for which the warning is right ----

  /** From the source of t every task that may be deleted or goes along is reached by handing the index down. */
  predicate TracksAbove(d: Defs, r: string, t: string)
    requires DefsOk(d) && IsTarget(d, t)
  {
    SourceOf(d, t) in d.tasks &&
    forall u | u in d.tasks && (u == r || IsTarget(d, u)) && BelowTask(d, SourceOf(d, t), u) ::
        Tracks(d, SourceOf(d, t), u)
  }

  lemma {:induction false} ChainIndex(d: Defs, f: Instances, y: InstanceId, a: InstanceId)
    requires DefsOk(d) && Sound(d, f) && NoneAdded(d, f) && Below(d, f, y, a) && y.taskId in d.tasks
    requires Tracks(d, y.taskId, a.taskId)
    ensures y.index == a.index
    decreases Height(d, y)
  {
    if y != a {
      assert NodeOk(d, f, y) && HasParentIndex(d, f, y);
      if y.taskId == a.taskId {
        SameTaskApart(d, f, y, a);
      } else {
        ChainIndex(d, f, f[y].parent.value, a);
      }
    }
  }

  lemma SameTaskApart(d: Defs, f: Instances, y: InstanceId, a: InstanceId)
    requires DefsOk(d) && Sound(d, f) && Below(d, f, y, a) && y.taskId == a.taskId
    ensures y == a
  {
    SoundLinks(d, f);
    BelowIsReach(d, f, y, a);
    ReachIn(d, f, y, a);
  }

  lemma {:induction false} CascadeFed(d: Defs, f: Instances, order: seq<string>, r: string, i: nat, k: nat, t: string)
    returns (u: string)
    requires DefsOk(d) && k <= |order| && t in Cascade(d, f, order, r, i, k) && t != r
    ensures IsTarget(d, t) && Inst(t, i) in f && SourceOf(d, t) in d.tasks
    ensures u in Cascade(d, f, order, r, i, k) && BelowTask(d, SourceOf(d, t), u)
  {
    var c := Cascade(d, f, order, r, i, k - 1);
    if t in c {
      u := CascadeFed(d, f, order, r, i, k - 1, t);
    } else {
      u :| u in c && BelowTask(d, SourceOf(d, t), u);
    }
  }

  /** Where sources track everything above them and no nested instance was added on its own, the warning is right. */
  lemma TrackedIsExact(d: Defs, f: Instances, order: seq<string>, r: string, i: nat)
    requires DefsOk(d) && LinksOk(d, f) && Sound(d, f) && NoneAdded(d, f) && OrderOk(d, order) && AllSettled(d, f)
    requires forall t {:trigger IsTarget(d, t)} | IsTarget(d, t) :: TracksAbove(d, r, t)
    ensures Exact(d, f, order, r, i)
  {
    forall t, j: nat | IsTarget(d, t) && Inst(t, j) in f && Warned(d, f, order, r, i, Inst(SourceOf(d, t), j))
      ensures Warned(d, f, order, r, i, Inst(t, j)) {
      TrackedTarget(d, f, order, r, i, t, j);
    }
    forall t | t in Cascade(d, f, order, r, i, |order|) && t != r && IsTarget(d, t)
      ensures Warned(d, f, order, r, i, Inst(SourceOf(d, t), i)) {
      TrackedSource(d, f, order, r, i, t);
    }
  }

  lemma TrackedTarget(d: Defs, f: Instances, order: seq<string>, r: string, i: nat, t: string, j: nat)
    requires DefsOk(d) && LinksOk(d, f) && Sound(d, f) && NoneAdded(d, f) && OrderOk(d, order)
    requires IsTarget(d, t) && TracksAbove(d, r, t) && Inst(t, j) in f &&
               Warned(d, f, order, r, i, Inst(SourceOf(d, t), j))
    ensures Warned(d, f, order, r, i, Inst(t, j))
  {
    var s := Inst(SourceOf(d, t), j);
    var u :| u in Cascade(d, f, order, r, i, |order|) && Reach(d, f, s, Inst(u, i));
    ReachIn(d, f, s, Inst(u, i));
    if u != r {
      CascadeMembers(d, f, order, r, i, |order|, u);
    }
    ReachIsBelow(d, f, s, Inst(u, i));
    ChainIndex(d, f, s, Inst(u, i));
    assert MappingOk(d, t) && t in order;
    CascadeClosed(d, f, order, r, i, t, u);
    assert Reach(d, f, Inst(t, i), Inst(t, i));
  }

  lemma TrackedSource(d: Defs, f: Instances, order: seq<string>, r: string, i: nat, t: string)
    requires DefsOk(d) && LinksOk(d, f) && Sound(d, f) && NoneAdded(d, f) && OrderOk(d, order) && AllSettled(d, f)
    requires t in Cascade(d, f, order, r, i, |order|) && t != r && IsTarget(d, t) && TracksAbove(d, r, t)
    ensures Warned(d, f, order, r, i, Inst(SourceOf(d, t), i))
  {
    var u := CascadeFed(d, f, order, r, i, |order|, t);
    if u != r {
      CascadeMembers(d, f, order, r, i, |order|, u);
    }
    BelowTaskDepth(d, SourceOf(d, t), u);
    IdxHas(f, t, i);
    IdxHas(f, SourceOf(d, t), i);
    assert Settled(d, f, t, SourceOf(d, t));
    ChainReach(d, f, Inst(SourceOf(d, t), i), u);
  }
}
