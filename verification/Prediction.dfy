/**
  The warning before an instance is deleted, part two: what findImpactedByDelete reports, what
  removing the instance and reconciling the mapped tasks really takes away, and exactly when the
  two agree.
 */
module Prediction {
  import opened Wrappers
  import opened InstanceIds
  import opened States
  import opened Schema
  import opened Forest
  import opened Growth
  import opened Removal
  import opened TaskStore
  import opened Sync
  import opened Impact

  // ---- One instance of the cascade ----

  function Ids(s: seq<ImpactedAnswer>): (r: seq<InstanceId>)
    ensures |r| == |s| && forall k | 0 <= k < |s| :: r[k] == s[k].id
  {
    seq(|s|, k requires 0 <= k < |s| => s[k].id)
  }

  predicate Answered(answers: Answers, y: InstanceId) {
    y in answers && HasValue(answers[y].value)
  }

  predicate ValuesRight(answers: Answers, s: seq<ImpactedAnswer>) {
    forall e | e in s :: Answered(answers, e.id) && e.value == answers[e.id].value
  }

  /** The answers with a value among the affected instances, in that order. */
  method ReportAnswers(affected: seq<InstanceId>, answers: Answers) returns (r: seq<ImpactedAnswer>)
    ensures ValuesRight(answers, r)
    ensures forall y :: y in Ids(r) <==> y in affected && Answered(answers, y)
    ensures NoDuplicates(affected) ==> NoDuplicates(Ids(r))
  {
    r := [];
    for k := 0 to |affected|
      invariant ValuesRight(answers, r)
      invariant forall y :: y in Ids(r) <==> y in affected[..k] && Answered(answers, y)
      invariant NoDuplicates(affected) ==> NoDuplicates(Ids(r))
    {
      var id := affected[k];
      assert affected[..k + 1] == affected[..k] + [id];
      if id in answers && HasValue(answers[id].value) {
        assert Ids(r + [ImpactedAnswer(id, answers[id].value)]) == Ids(r) + [id];
        r := r + [ImpactedAnswer(id, answers[id].value)];
      }
    }
    assert affected[..|affected|] == affected;
  }

  /** The instances of mapped targets that are found to go along with an instance of the tasks in desc. */
  predicate FollowsAt(tasks: FlatTasks, order: seq<string>, desc: set<string>, i: nat, f: Instances, y: InstanceId) {
    && y.taskId in order && y.taskId in tasks && y.index == Some(i) && y in f
    && tasks[y.taskId].mappings != [] && tasks[y.taskId].mappings[0] in desc
  }

  method QueueTargets(tasks: FlatTasks, order: seq<string>, desc: set<string>, i: nat, f: Instances,
                      queue: seq<InstanceId>)
    returns (r: seq<InstanceId>)
    requires forall t | t in order :: t in tasks
    ensures forall y :: y in r <==> y in queue || FollowsAt(tasks, order, desc, i, f, y)
  {
    r := queue;
    for k := 0 to |order|
      invariant forall y :: y in r <==> y in queue || FollowsAt(tasks, order[..k], desc, i, f, y)
    {
      var t := order[k];
      assert order[..k + 1] == order[..k] + [t];
      assert t in order;
      if tasks[t].mappings != [] && tasks[t].mappings[0] in desc && InstanceId(t, Some(i)) in f {
        r := r + [InstanceId(t, Some(i))];
      }
    }
    assert order[..|order|] == order;
  }

  // ---- The loop over the cascade ----

  /** y is the instance with index i of a task of the cascade. */
  predicate InCascade(d: Defs, f: Instances, order: seq<string>, r: string, i: nat, y: InstanceId)
    requires DefsOk(d)
  {
    y.index == Some(i) && y.taskId in Cascade(d, f, order, r, i, |order|)
  }

  predicate ListedOne(d: Defs, f: Instances, seen: set<InstanceId>, y: InstanceId)
    requires DefsOk(d) && LinksOk(d, f)
  {
    exists v :: v in seen && Listed(d, f, y, v)
  }

  /** Whatever the instances seen so far feed is seen or queued. */
  predicate Followed(d: Defs, order: seq<string>, f: Instances, i: nat, seen: set<InstanceId>, queue: seq<InstanceId>)
    requires DefsOk(d)
  {
    forall v, t {:trigger Feeds(d, v.taskId, t), Inst(t, i)} |
      v in seen && t in order && Feeds(d, v.taskId, t) && Inst(t, i) in f ::
      Inst(t, i) in seen || Inst(t, i) in queue
  }

  /** The source of target t lies at or below u. */
  predicate Feeds(d: Defs, u: string, t: string)
    requires DefsOk(d)
  {
    IsTarget(d, t) && SourceOf(d, t) in d.tasks && BelowTask(d, SourceOf(d, t), u)
  }

  /** No task of the cascade lies below another. */
  predicate MembersApart(d: Defs, f: Instances, order: seq<string>, r: string, i: nat)
    requires DefsOk(d)
  {
    forall u, v | u in Cascade(d, f, order, r, i, |order|) && v in Cascade(d, f, order, r, i, |order|) && u != v &&
        u in d.tasks ::
      !BelowTask(d, u, v)
  }

  /** What the loop has reported so far: the answers below the instances seen; each once where subtrees are apart. */
  ghost predicate Reported(d: Defs, f: Instances, order: seq<string>, r: string, i: nat, answers: Answers,
                           seen: set<InstanceId>, s: seq<ImpactedAnswer>)
    requires DefsOk(d) && LinksOk(d, f)
  {
    && ValuesRight(answers, s)
    && (forall y {:trigger ListedOne(d, f, seen, y)} {:trigger y in Ids(s)} ::
          y in Ids(s) <==> Answered(answers, y) && ListedOne(d, f, seen, y))
    && (Sound(d, f) && Inst(r, i) in f && MembersApart(d, f, order, r, i) ==> NoDuplicates(Ids(s)))
  }

  lemma ListedBelowTask(d: Defs, f: Instances, y: InstanceId, x: InstanceId)
    requires DefsOk(d) && LinksOk(d, f) && Sound(d, f) && x in f && Listed(d, f, y, x)
    ensures y.taskId in d.tasks && BelowTask(d, y.taskId, x.taskId)
  {
    ListedExists(d, f, y, x);
    ListedIsReach(d, f, y, x);
    ReachIn(d, f, y, x);
  }

  lemma NothingInCommon(d: Defs, f: Instances, order: seq<string>, r: string, i: nat, x: InstanceId, v: InstanceId,
                        y: InstanceId)
    requires DefsOk(d) && LinksOk(d, f) && Sound(d, f) && MembersApart(d, f, order, r, i)
    requires x in f && v in f && x != v && InCascade(d, f, order, r, i, x) && InCascade(d, f, order, r, i, v)
    ensures !(Listed(d, f, y, x) && Listed(d, f, y, v))
  {
    assert NodeOk(d, f, x) && NodeOk(d, f, v);
    if Listed(d, f, y, x) && Listed(d, f, y, v) {
      ListedBelowTask(d, f, y, x);
      ListedBelowTask(d, f, y, v);
      AboveComparable(d, y.taskId, x.taskId, v.taskId);
    }
  }

  lemma ListedOneMore(d: Defs, f: Instances, seen: set<InstanceId>, x: InstanceId, y: InstanceId)
    requires DefsOk(d) && LinksOk(d, f)
    ensures ListedOne(d, f, seen + {x}, y) <==> ListedOne(d, f, seen, y) || Listed(d, f, y, x)
  {
    if ListedOne(d, f, seen, y) {
      var v :| v in seen && Listed(d, f, y, v);
      assert v in seen + {x};
    }
    assert x in seen + {x};
  }

  lemma ReportMore(d: Defs, f: Instances, order: seq<string>, r: string, i: nat, answers: Answers,
                   seen: set<InstanceId>, impacted: seq<ImpactedAnswer>, x: InstanceId, more: seq<ImpactedAnswer>)
    requires DefsOk(d) && LinksOk(d, f)
    requires forall v | v in seen :: InCascade(d, f, order, r, i, v) && (v in f || v == Inst(r, i))
    requires InCascade(d, f, order, r, i, x) && (x in f || x == Inst(r, i)) && x !in seen
    requires Reported(d, f, order, r, i, answers, seen, impacted)
    requires ValuesRight(answers, more) && (Sound(d, f) ==> NoDuplicates(Ids(more)))
    requires forall y :: y in Ids(more) <==> Listed(d, f, y, x) && Answered(answers, y)
    ensures Reported(d, f, order, r, i, answers, seen + {x}, impacted + more)
  {
    assert Ids(impacted + more) == Ids(impacted) + Ids(more);
    if Sound(d, f) && Inst(r, i) in f && MembersApart(d, f, order, r, i) {
      forall y | y in Ids(impacted) ensures y !in Ids(more) {
        assert ListedOne(d, f, seen, y);
        var v :| v in seen && Listed(d, f, y, v);
        NothingInCommon(d, f, order, r, i, x, v, y);
      }
      NoDuplicatesConcat(Ids(impacted), Ids(more));
    }
    forall y ensures y in Ids(impacted + more) <==> Answered(answers, y) && ListedOne(d, f, seen + {x}, y) {
      ListedOneMore(d, f, seen, x, y);
    }
  }

  /** What is queued for a member of the cascade is a member too. */
  lemma QueuedInCascade(d: Defs, f: Instances, order: seq<string>, r: string, i: nat, x: InstanceId,
                        desc: set<string>, y: InstanceId)
    requires DefsOk(d) && OrderOk(d, order) && InCascade(d, f, order, r, i, x)
    requires forall t :: t in desc <==> t in d.tasks && BelowTask(d, t, x.taskId)
    requires FollowsAt(d.tasks, order, desc, i, f, y)
    ensures InCascade(d, f, order, r, i, y)
  {
    assert IsTarget(d, y.taskId) && MappingOk(d, y.taskId);
    CascadeClosed(d, f, order, r, i, y.taskId, x.taskId);
  }

  lemma FollowedMore(d: Defs, f: Instances, order: seq<string>, i: nat, seen: set<InstanceId>, waiting: seq<InstanceId>,
                     desc: set<string>, queue: seq<InstanceId>)
    requires DefsOk(d) && waiting != [] && Followed(d, order, f, i, seen, waiting)
    requires forall t | t in order :: t in d.tasks
    requires forall t :: t in desc <==> t in d.tasks && BelowTask(d, t, waiting[0].taskId)
    requires forall y :: y in queue <==> y in waiting[1..] || FollowsAt(d.tasks, order, desc, i, f, y)
    ensures Followed(d, order, f, i, seen + {waiting[0]}, queue)
  {
    var x := waiting[0];
    forall v, t | v in seen + {x} && t in order && Feeds(d, v.taskId, t) && Inst(t, i) in f
      ensures Inst(t, i) in seen + {x} || Inst(t, i) in queue {
      if v == x {
        assert FollowsAt(d.tasks, order, desc, i, f, Inst(t, i));
      } else {
        assert Inst(t, i) in seen || Inst(t, i) in waiting;
      }
    }
  }

  lemma FollowedPop(d: Defs, order: seq<string>, f: Instances, i: nat, seen: set<InstanceId>, queue: seq<InstanceId>)
    requires DefsOk(d) && Followed(d, order, f, i, seen, queue) && queue != [] && queue[0] in seen
    ensures Followed(d, order, f, i, seen, queue[1..])
  {
    assert forall y | y in queue :: y == queue[0] || y in queue[1..];
  }

  /** When the queue is empty, every member of the cascade has been seen. */
  lemma {:induction false} AllSeen(d: Defs, f: Instances, order: seq<string>, r: string, i: nat,
                                   seen: set<InstanceId>, k: nat,
                                   u: string)
    requires DefsOk(d) && k <= |order|
    requires Followed(d, order, f, i, seen, []) && Inst(r, i) in seen && u in Cascade(d, f, order, r, i, k)
    ensures Inst(u, i) in seen
  {
    if k > 0 {
      var c := Cascade(d, f, order, r, i, k - 1);
      if u in c {
        AllSeen(d, f, order, r, i, seen, k - 1, u);
      } else {
        var v :| v in c && BelowTask(d, SourceOf(d, u), v);
        AllSeen(d, f, order, r, i, seen, k - 1, v);
        assert Inst(v, i) in seen && Feeds(d, Inst(v, i).taskId, u) && u in order;
      }
    }
  }

  /** y is listed below an instance of the cascade. */
  predicate ListedInCascade(d: Defs, f: Instances, order: seq<string>, r: string, i: nat, y: InstanceId)
    requires DefsOk(d) && LinksOk(d, f)
  {
    exists u :: u in Cascade(d, f, order, r, i, |order|) && Listed(d, f, y, Inst(u, i))
  }

  lemma SeenIsCascade(d: Defs, f: Instances, order: seq<string>, r: string, i: nat, seen: set<InstanceId>,
                      y: InstanceId)
    requires DefsOk(d) && LinksOk(d, f)
    requires Followed(d, order, f, i, seen, []) && Inst(r, i) in seen && forall v | v in seen ::
               InCascade(d, f, order, r, i, v)
    ensures ListedOne(d, f, seen, y) <==> ListedInCascade(d, f, order, r, i, y)
  {
    if ListedOne(d, f, seen, y) {
      var v :| v in seen && Listed(d, f, y, v);
      assert v == Inst(v.taskId, i);
    }
    if ListedInCascade(d, f, order, r, i, y) {
      var u :| u in Cascade(d, f, order, r, i, |order|) && Listed(d, f, y, Inst(u, i));
      AllSeen(d, f, order, r, i, seen, |order|, u);
    }
  }

  /** What the queue and the visited set may hold. */
  predicate Member(d: Defs, f: Instances, order: seq<string>, r: string, i: nat, v: InstanceId)
    requires DefsOk(d)
  {
    InCascade(d, f, order, r, i, v) && v.taskId in d.tasks && (v in f || v == Inst(r, i))
  }

  /** One turn of the loop for an instance that has not been seen. */
  method VisitOne(ghost d: Defs, tasks: FlatTasks, order: seq<string>, f: Instances, answers: Answers,
                  ghost r: string, ghost i: nat, x: InstanceId, rest: seq<InstanceId>,
                  ghost seen: set<InstanceId>, impacted: seq<ImpactedAnswer>)
    returns (queue: seq<InstanceId>, reported: seq<ImpactedAnswer>)
    requires DefsOk(d) && d.tasks == tasks && LinksOk(d, f) && OrderOk(d, order)
    requires x !in seen && Member(d, f, order, r, i, x)
    requires forall v | v in seen :: Member(d, f, order, r, i, v)
    requires forall v | v in rest :: Member(d, f, order, r, i, v)
    requires Followed(d, order, f, i, seen, [x] + rest) && Reported(d, f, order, r, i, answers, seen, impacted)
    ensures forall v | v in queue :: Member(d, f, order, r, i, v)
    ensures forall v | v in rest :: v in queue
    ensures Followed(d, order, f, i, seen + {x}, queue) && Reported(d, f, order, r, i, answers, seen + {x}, reported)
  {
    var affected := CollectDescendantInstances(d, f, x);
    var more := ReportAnswers(affected, answers);
    ReportMore(d, f, order, r, i, answers, seen, impacted, x, more);
    reported := impacted + more;
    var desc := CollectDescendantTaskIds(d, tasks, x.taskId);
    queue := QueueTargets(tasks, order, desc, x.index.value, f, rest);
    forall v | v in queue ensures Member(d, f, order, r, i, v) {
      if v !in rest {
        QueuedInCascade(d, f, order, r, i, x, desc, v);
      }
    }
    FollowedMore(d, f, order, i, seen, [x] + rest, desc, queue);
  }

  /**
    findImpactedByDelete: the answers with a value that are listed below the instance or below an
    instance of the cascade; each once if the forest is sound and no task of the cascade lies
    below another.
   */
  method FindImpactedByDelete(ghost d: Defs, tasks: FlatTasks, order: seq<string>, f: Instances, answers: Answers,
                              x: InstanceId)
    returns (impacted: seq<ImpactedAnswer>)
    requires DefsOk(d) && d.tasks == tasks && LinksOk(d, f) && OrderOk(d, order) && x.taskId in tasks
    ensures x.index.None? ==> impacted == []
    ensures forall e | e in impacted :: e.id in answers && e.value == answers[e.id].value
    ensures x.index.Some? ==> forall y :: y in Ids(impacted) <==>
              && ListedInCascade(d, f, order, x.taskId, x.index.value, y)
              && y in answers
              && answers[y].value != Cleared && answers[y].value != Text("") && answers[y].value != Choices([])
    ensures x.index.Some? && x in f && Sound(d, f) && MembersApart(d, f, order, x.taskId, x.index.value) ==>
              NoDuplicates(Ids(impacted))
  {
    impacted := [];
    if x.index.None? {
      return;
    }
    ghost var r, i := x.taskId, x.index.value;
    CascadeHasRoot(d, f, order, r, i, |order|);
    var queue := [x];
    var visited: set<InstanceId> := {};
    while queue != []
      invariant forall v | v in visited :: Member(d, f, order, r, i, v)
      invariant forall v | v in queue :: Member(d, f, order, r, i, v)
      invariant x in visited || x in queue
      invariant Followed(d, order, f, i, visited, queue) && Reported(d, f, order, r, i, answers, visited, impacted)
      decreases f.Keys + {x} - visited, |queue|
    {
      var current := queue[0];
      assert Member(d, f, order, r, i, current);
      if current in visited {
        FollowedPop(d, order, f, i, visited, queue);
        queue := queue[1..];
      } else {
        assert queue == [current] + queue[1..];
        queue, impacted := VisitOne(d, tasks, order, f, answers, r, i, current, queue[1..], visited, impacted);
        visited := visited + {current};
      }
    }
    forall y ensures y in Ids(impacted) <==> Answered(answers, y) && ListedInCascade(d, f, order, r, i, y) {
      SeenIsCascade(d, f, order, r, i, visited, y);
    }
  }
}
