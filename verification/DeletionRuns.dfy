/**
  Three runs of the store, each from a form that is flattened and initialised: a deletion whose
  warning misses an answer, a mapped field that cannot follow its source, and an added instance
  that is overwritten.
 */
module DeletionRuns {
  import opened Wrappers
  import opened InstanceIds
  import opened States
  import opened Schema
  import opened Forest
  import opened Growth
  import opened Removal
  import opened TaskStore
  import opened TaskTree
  import opened Sync
  import opened Impact
  import opened Prediction
  import opened Exactness

  /** Clean task ids, all different. */
  predicate Names(a: string, b: string, c: string, e: string) {
    && CleanTaskId(a) && CleanTaskId(b) && CleanTaskId(c) && CleanTaskId(e)
    && a != b && a != c && a != e && b != c && b != e && c != e
  }

  /** What the flat definitions say of one task of the form. */
  lemma MirrorOf(flat: FlatTasks, tasks: seq<Task>, parentId: Option<string>, k: nat)
    requires k < |tasks| && Mirrors(flat, tasks, parentId)
    ensures tasks[k].id in flat
    ensures flat[tasks[k].id] == FlatTask(parentId, ChildIds(tasks[k].tasks), tasks[k].repeatable, tasks[k].mappings)
    ensures Mirrors(flat, tasks[k].tasks, Some(tasks[k].id))
  {
    assert MirrorsOne(flat, tasks[k], parentId);
  }

  /** The ids and distinctness of a list of trees, from those of the first and of the rest. */
  lemma FirstAndRest(t: Task, rest: seq<Task>)
    ensures AllIds([t] + rest) == {t.id} + AllIds(t.tasks) + AllIds(rest)
    ensures DistinctIds([t] + rest) <==>
              CleanTaskId(t.id) && t.id !in AllIds(t.tasks) && t.id !in AllIds(rest) &&
                  AllIds(t.tasks) !! AllIds(rest) &&
              DistinctIds(t.tasks) && DistinctIds(rest)
  {
    assert ([t] + rest)[1..] == rest;
  }

  // ---- The warning misses an answer ----

  /** A repeatable task r holds a repeatable task n with a field s; the repeatable task t maps from the field. */
  function NestedForm(r: string, n: string, s: string, t: string): seq<Task> {
    [Task(r, true, [], [Task(n, true, [], [Task(s, false, [], [])])]), Task(t, true, [s], [])]
  }

  predicate IsNestedForm(d: Defs, r: string, n: string, s: string, t: string) {
    && DefsOk(d) && Names(r, n, s, t)
    && d.tasks.Keys == {r, n, s, t}
    && d.tasks[r] == FlatTask(None, [n], true, []) && d.tasks[n] == FlatTask(Some(r), [s], true, [])
    && d.tasks[s] == FlatTask(Some(n), [], false, []) && d.tasks[t] == FlatTask(None, [], true, [s])
  }

  lemma NestedFormDistinct(r: string, n: string, s: string, t: string)
    requires Names(r, n, s, t)
    ensures DistinctIds(NestedForm(r, n, s, t))
    ensures AllIds(NestedForm(r, n, s, t)) == {r, n, s, t}
  {
    var ss := Task(s, false, [], []);
    var ns := Task(n, true, [], [ss]);
    var rs, ts := Task(r, true, [], [ns]), Task(t, true, [s], []);
    assert [ss] + [] == [ss] && [ns] + [] == [ns] && [ts] + [] == [ts] && [rs] + [ts] == NestedForm(r, n, s, t);
    FirstAndRest(ss, []);
    FirstAndRest(ns, []);
    FirstAndRest(ts, []);
    FirstAndRest(rs, [ts]);
  }

  lemma NestedFormFlat(d: Defs, r: string, n: string, s: string, t: string)
    requires DefsOk(d) && Names(r, n, s, t)
    requires Mirrors(d.tasks, NestedForm(r, n, s, t), None) && d.tasks.Keys == {r, n, s, t}
    ensures IsNestedForm(d, r, n, s, t)
  {
    var form := NestedForm(r, n, s, t);
    MirrorOf(d.tasks, form, None, 0);
    MirrorOf(d.tasks, form, None, 1);
    MirrorOf(d.tasks, form[0].tasks, Some(r), 0);
    MirrorOf(d.tasks, form[0].tasks[0].tasks, Some(n), 0);
    assert ChildIds(form[0].tasks) == [n] && ChildIds(form[0].tasks[0].tasks) == [s] && ChildIds([]) == [];
  }

  lemma NestedBelow(d: Defs, r: string, n: string, s: string, t: string, u: string)
    requires IsNestedForm(d, r, n, s, t)
    ensures BelowTask(d, t, u) <==> u == t
    ensures BelowTask(d, r, u) <==> u == r
    ensures BelowTask(d, n, u) <==> u == n || u == r
    ensures BelowTask(d, s, u) <==> u == s || u == n || u == r
    ensures r in d.under && n in d.under && s in d.under && t in d.under
  {
    assert BelowTask(d, n, u) <==> u == n || BelowTask(d, r, u);
    assert BelowTask(d, s, u) <==> u == s || BelowTask(d, n, u);
  }

  lemma NestedNotAbove(d: Defs, r: string, n: string, s: string, t: string, k: nat, j: nat)
    requires IsNestedForm(d, r, n, s, t) && k < j < 4
    ensures NotAbove(d, [r, n, s, t], k, j)
  {
    NestedBelow(d, r, n, s, t, [r, n, s, t][j]);
  }

  lemma NestedSourceBefore(d: Defs, r: string, n: string, s: string, t: string, k: nat, j: nat)
    requires IsNestedForm(d, r, n, s, t) && k <= j < 4
    ensures SourceBefore(d, [r, n, s, t], k, j)
  {
    NestedBelow(d, r, n, s, t, t);
    var order := [r, n, s, t];
    assert IsTarget(d, order[j]) ==> order[j] == t;
    assert IsTarget(d, order[k]) ==> order[k] == t;
  }

  lemma FourDistinct(a: string, b: string, c: string, e: string)
    requires Names(a, b, c, e)
    ensures NoDuplicates([a, b, c, e]) && forall x :: x in [a, b, c, e] <==> x == a || x == b || x == c || x == e
  {
  }

  lemma NestedOrder(d: Defs, r: string, n: string, s: string, t: string)
    requires IsNestedForm(d, r, n, s, t)
    ensures OrderOk(d, [r, n, s, t])
  {
    var order := [r, n, s, t];
    FourDistinct(r, n, s, t);
    forall k, j | 0 <= k < j < |order| ensures NotAbove(d, order, k, j) {
      NestedNotAbove(d, r, n, s, t, k, j);
    }
    forall k, j | 0 <= k <= j < |order| ensures SourceBefore(d, order, k, j) {
      NestedSourceBefore(d, r, n, s, t, k, j);
    }
    NestedBelow(d, r, n, s, t, t);
  }

  /** The user adds a second n under r[0]: it comes with a second field. */
  lemma NestedAdded(d: Defs, f: Instances, g: Instances, r: string, n: string, s: string, t: string, id: InstanceId,
                    made: set<InstanceId>)
    requires IsNestedForm(d, r, n, s, t) && Initial(d, f) && id.taskId == n && id.index.Some?
    requires Planted(d, f, g, id, Some(Inst(r, 0)), made) && IsNextIndex(f, n, id.index.value)
    ensures id == Inst(n, 1)
    ensures Inst(r, 0) in g && Inst(n, 1) in g && Inst(s, 1) in g
    ensures Inst(n, 1) in g[Inst(r, 0)].children && Inst(s, 1) in g[Inst(n, 1)].children
  {
    NestedBelow(d, r, n, s, t, n);
    InitialIdx(d, f, n);
    assert 0 in Idx(f, n) && id == Inst(n, 1);
    ChosenIsMade(d, f, g, id, Some(Inst(r, 0)), made, s);
    assert ChosenId(d, f, id, n) == id && ChosenId(d, f, id, s) == Inst(s, 1);
    assert Inst(r, 0) == DefaultId(d, r) && Inst(r, 0) in f;
    if Inst(r, 0) in made {
      MadeIsChosen(d, f, g, id, Some(Inst(r, 0)), made, Inst(r, 0));
      NestedBelow(d, r, n, s, t, n);
    }
  }

  /** Reconciling t gives it the second index, and the deletion will take it with the field. */
  lemma NestedSynced(d: Defs, g: Instances, h: Instances, r: string, n: string, s: string, t: string)
    requires IsNestedForm(d, r, n, s, t) && LinksOk(d, g) && LinksOk(d, h) && Reconciled(d, g, h, t, s)
    requires Inst(r, 0) in g && Inst(n, 1) in g && Inst(s, 1) in g
    requires Inst(n, 1) in g[Inst(r, 0)].children && Inst(s, 1) in g[Inst(n, 1)].children
    ensures Inst(t, 1) in h && Inst(r, 0) in h && Reach(d, h, Inst(s, 1), Inst(r, 0))
  {
    NestedBelow(d, r, n, s, t, t);
    IdxHas(g, s, 1);
    IdxHas(h, t, 1);
    assert Keeps(d, g, h, t, Inst(r, 0)) && Keeps(d, g, h, t, Inst(n, 1)) && Keeps(d, g, h, t, Inst(s, 1));
    KeepsChild(d, g, h, t, Inst(r, 0), Inst(n, 1));
    KeepsChild(d, g, h, t, Inst(n, 1), Inst(s, 1));
    assert Reach(d, h, Inst(s, 1), Inst(s, 1));
    assert Reach(d, h, Inst(s, 1), Inst(n, 1));
  }

  lemma NestedLost(d: Defs, h: Instances, r: string, n: string, s: string, t: string)
    requires IsNestedForm(d, r, n, s, t) && Deletion(d, h, [r, n, s, t], r, 0)
    requires Inst(t, 1) in h && Reach(d, h, Inst(s, 1), Inst(r, 0))
    ensures Inst(t, 1) in GoneAfter(d, h, [r, n, s, t], r, 0, 4) && !Warned(d, h, [r, n, s, t], r, 0, Inst(t, 1))
  {
    var order := [r, n, s, t];
    ReachIn(d, h, Inst(s, 1), Inst(r, 0));
    assert Inst(s, 1) in GoneAfter(d, h, order, r, 0, 0);
    GoneAfterGrows(d, h, order, r, 0, 0, 4);
    assert IsTarget(d, order[3]) && MappingOk(d, order[3]);
    TargetGoes(d, h, order, r, 0, 3, 1);
    if Warned(d, h, order, r, 0, Inst(t, 1)) {
      var u :| u in Cascade(d, h, order, r, 0, 4) && Reach(d, h, Inst(t, 1), Inst(u, 0));
      ReachIn(d, h, Inst(t, 1), Inst(u, 0));
      NestedBelow(d, r, n, s, t, u);
    }
  }

  lemma NestedTurns(d: Defs, run: seq<Instances>, r: string, n: string, s: string, t: string)
    requires IsNestedForm(d, r, n, s, t) && SyncRun(d, [r, n, s, t], run) && |run| == 5
    ensures LinksOk(d, run[0]) && Reconciled(d, run[0], run[4], t, s)
  {
    var order := [r, n, s, t];
    assert SyncStep(d, order, run, 0) && SyncStep(d, order, run, 1) && SyncStep(d, order, run, 2) &&
        SyncStep(d, order, run, 3);
  }

  /** Init, then an n added below r[0]. */
  method StartNested(r: string, n: string, s: string, t: string) returns (store: TaskStore)
    requires Names(r, n, s, t)
    ensures fresh(store) && store.Ready() && IsNestedForm(store.d, r, n, s, t)
    ensures Inst(r, 0) in store.instances && Inst(n, 1) in store.instances && Inst(s, 1) in store.instances
    ensures Inst(n, 1) in store.instances[Inst(r, 0)].children && Inst(s, 1) in store.instances[Inst(n, 1)].children
  {
    var definitions;
    NestedFormDistinct(r, n, s, t);
    definitions, store := Init(NestedForm(r, n, s, t));
    NestedFormFlat(store.d, r, n, s, t);
    ghost var first := store.instances;
    var added;
    ghost var made;
    added, made := store.AddRepeatableTaskInstance(n, Some(Inst(r, 0)), None);
    NestedAdded(store.d, first, store.instances, r, n, s, t, added.value, made);
  }

  lemma NestedDeletion(d: Defs, h: Instances, r: string, n: string, s: string, t: string)
    requires IsNestedForm(d, r, n, s, t) && OrderOk(d, [r, n, s, t]) && LinksOk(d, h) && AllSettled(d, h) &&
               Inst(r, 0) in h
    ensures Deletion(d, h, [r, n, s, t], r, 0)
  {
    forall u | IsTarget(d, u) && d.tasks[u].repeatable ensures Outermost(d, u) {
      assert u == t;
    }
  }

  /**
    The run: init, add an n below r[0], reconcile, answer the new t[1], delete r[0]. The answer
    goes, and the warning did not name it.
   */
  method MissedAnswer(r: string, n: string, s: string, t: string, answers: Answers)
    returns (store: TaskStore, ghost before: Instances, impacted: seq<ImpactedAnswer>)
    requires Names(r, n, s, t) && Inst(t, 1) in answers
    requires answers[Inst(t, 1)].value != Cleared && answers[Inst(t, 1)].value != Text("")
    requires answers[Inst(t, 1)].value != Choices([])
    ensures DefsOk(store.d) && LinksOk(store.d, before) && Deletion(store.d, before, [r, n, s, t], r, 0)
    ensures Inst(t, 1) in before && Inst(t, 1) !in Ids(impacted) && Inst(t, 1) !in store.instances
  {
    store := StartNested(r, n, s, t);
    NestedOrder(store.d, r, n, s, t);
    ghost var run := SyncInstances(store, [r, n, s, t]);
    NestedTurns(store.d, run, r, n, s, t);
    before := store.instances;
    NestedSynced(store.d, run[0], before, r, n, s, t);
    NestedDeletion(store.d, before, r, n, s, t);
    NestedLost(store.d, before, r, n, s, t);
    impacted := PredictThenDelete(store, [r, n, s, t], answers, Inst(r, 0));
  }

  // ---- A mapped field does not follow its source ----

  /** A repeatable task p, and a repeatable task b whose field t maps from p without being repeatable itself. */
  function FieldForm(p: string, b: string, t: string): seq<Task> {
    [Task(p, true, [], []), Task(b, true, [], [Task(t, false, [p], [])])]
  }

  predicate IsFieldForm(d: Defs, p: string, b: string, t: string) {
    && DefsOk(d) && p != b && p != t && b != t
    && d.tasks.Keys == {p, b, t}
    && d.tasks[p] == FlatTask(None, [], true, []) && d.tasks[b] == FlatTask(None, [t], true, [])
    && d.tasks[t] == FlatTask(Some(b), [], false, [p])
  }

  lemma FieldFormDistinct(p: string, b: string, t: string)
    requires CleanTaskId(p) && CleanTaskId(b) && CleanTaskId(t) && p != b && p != t && b != t
    ensures DistinctIds(FieldForm(p, b, t)) && AllIds(FieldForm(p, b, t)) == {p, b, t}
  {
    var ts := Task(t, false, [p], []);
    var ps, bs := Task(p, true, [], []), Task(b, true, [], [ts]);
    assert [ts] + [] == [ts] && [bs] + [] == [bs] && [ps] + [bs] == FieldForm(p, b, t);
    FirstAndRest(ts, []);
    FirstAndRest(bs, []);
    FirstAndRest(ps, [bs]);
  }

  lemma FieldFormFlat(d: Defs, p: string, b: string, t: string)
    requires DefsOk(d) && p != b && p != t && b != t && Mirrors(d.tasks, FieldForm(p, b, t), None) &&
               d.tasks.Keys == {p, b, t}
    ensures IsFieldForm(d, p, b, t)
  {
    var form := FieldForm(p, b, t);
    MirrorOf(d.tasks, form, None, 0);
    MirrorOf(d.tasks, form, None, 1);
    MirrorOf(d.tasks, form[1].tasks, Some(b), 0);
    assert ChildIds(form[1].tasks) == [t] && ChildIds([]) == [];
  }

  lemma FieldBelow(d: Defs, p: string, b: string, t: string, u: string)
    requires IsFieldForm(d, p, b, t)
    ensures BelowTask(d, p, u) <==> u == p
    ensures BelowTask(d, b, u) <==> u == b
    ensures BelowTask(d, t, u) <==> u == t || u == b
    ensures p in d.under && b in d.under && t in d.under
  {
    assert BelowTask(d, t, u) <==> u == t || BelowTask(d, b, u);
  }

  lemma FieldNotAbove(d: Defs, p: string, b: string, t: string, k: nat, j: nat)
    requires IsFieldForm(d, p, b, t) && k < j < 3
    ensures NotAbove(d, [p, b, t], k, j)
  {
    FieldBelow(d, p, b, t, [p, b, t][j]);
  }

  lemma FieldSourceBefore(d: Defs, p: string, b: string, t: string, k: nat, j: nat)
    requires IsFieldForm(d, p, b, t) && k <= j < 3
    ensures SourceBefore(d, [p, b, t], k, j)
  {
    FieldBelow(d, p, b, t, t);
    var order := [p, b, t];
    assert IsTarget(d, order[j]) ==> order[j] == t;
    assert IsTarget(d, order[k]) ==> order[k] == t;
  }

  lemma ThreeDistinct(a: string, b: string, c: string)
    requires a != b && a != c && b != c
    ensures NoDuplicates([a, b, c]) && forall x :: x in [a, b, c] <==> x == a || x == b || x == c
  {
  }

  lemma FieldOrder(d: Defs, p: string, b: string, t: string)
    requires IsFieldForm(d, p, b, t)
    ensures OrderOk(d, [p, b, t])
  {
    var order := [p, b, t];
    ThreeDistinct(p, b, t);
    forall k, j | 0 <= k < j < |order| ensures NotAbove(d, order, k, j) {
      FieldNotAbove(d, p, b, t, k, j);
    }
    forall k, j | 0 <= k <= j < |order| ensures SourceBefore(d, order, k, j) {
      FieldSourceBefore(d, p, b, t, k, j);
    }
    FieldBelow(d, p, b, t, t);
  }

  lemma FieldTurns(d: Defs, run: seq<Instances>, p: string, b: string, t: string)
    requires IsFieldForm(d, p, b, t) && SyncRun(d, [p, b, t], run) && |run| == 4
    ensures LinksOk(d, run[0]) && Reconciled(d, run[0], run[3], t, p)
    ensures Idx(run[3], t) == Idx(run[0], t) * Idx(run[0], p)
    ensures Idx(run[3], p) == Idx(run[0], p) && Idx(run[3], b) == Idx(run[0], b)
  {
    var order := [p, b, t];
    assert SyncStep(d, order, run, 0) && SyncStep(d, order, run, 1) && SyncStep(d, order, run, 2);
    FieldBelow(d, p, b, t, t);
  }

  /** Adding a b gives it a field; adding a p changes nothing else. */
  lemma FieldAdded(d: Defs, f: Instances, g: Instances, p: string, b: string, t: string, id: InstanceId,
                   made: set<InstanceId>)
    requires IsFieldForm(d, p, b, t) && (id.taskId == p || id.taskId == b) && Idx(f, id.taskId) == {0}
    requires Planted(d, f, g, id, None, made) && id.index.Some? && IsNextIndex(f, id.taskId, id.index.value)
    ensures Idx(g, id.taskId) == {0, 1}
    ensures id.taskId == p ==> Idx(g, b) == Idx(f, b) && Idx(g, t) == Idx(f, t)
    ensures id.taskId == b ==> Idx(g, p) == Idx(f, p) && (0 in Idx(f, t) ==> 0 in Idx(g, t))
  {
    FieldBelow(d, p, b, t, id.taskId);
    assert 0 in Idx(f, id.taskId) && id.index == Some(1);
    PlantedIdx(d, f, g, id, None, made, id.taskId);
    if id.taskId == p {
      PlantedIdx(d, f, g, id, None, made, b);
      PlantedIdx(d, f, g, id, None, made, t);
    } else {
      PlantedIdx(d, f, g, id, None, made, p);
      IdxHas(f, t, 0);
      IdxHas(g, t, 0);
    }
  }

  method StartField(p: string, b: string, t: string) returns (store: TaskStore)
    requires CleanTaskId(p) && CleanTaskId(b) && CleanTaskId(t) && p != b && p != t && b != t
    ensures fresh(store) && store.Ready() && IsFieldForm(store.d, p, b, t)
    ensures Idx(store.instances, p) == {0} && Idx(store.instances, b) == {0} && Idx(store.instances, t) == {0}
  {
    var definitions;
    FieldFormDistinct(p, b, t);
    definitions, store := Init(FieldForm(p, b, t));
    FieldFormFlat(store.d, p, b, t);
    FieldBelow(store.d, p, b, t, t);
    InitialIdx(store.d, store.instances, p);
    InitialIdx(store.d, store.instances, b);
    InitialIdx(store.d, store.instances, t);
  }

  method AddOne(store: TaskStore, u: string, p: string, b: string, t: string)
    requires store.Ready() && IsFieldForm(store.d, p, b, t) && (u == p || u == b) && Idx(store.instances, u) == {0}
    modifies store
    ensures store.Ready() && Idx(store.instances, u) == {0, 1}
    ensures u == p ==>
              Idx(store.instances, b) == old(Idx(store.instances, b)) &&
              Idx(store.instances, t) == old(Idx(store.instances, t))
    ensures u == b ==>
              Idx(store.instances, p) == old(Idx(store.instances, p)) &&
              (0 in old(Idx(store.instances, t)) ==> 0 in Idx(store.instances, t))
  {
    ghost var f := store.instances;
    var added;
    ghost var made;
    added, made := store.AddRepeatableTaskInstance(u, None, None);
    FieldAdded(store.d, f, store.instances, p, b, t, added.value, made);
  }

  method SyncField(store: TaskStore, p: string, b: string, t: string)
    requires store.Ready() && IsFieldForm(store.d, p, b, t)
    modifies store
    ensures store.Ready() && Idx(store.instances, t) == old(Idx(store.instances, t) * Idx(store.instances, p))
    ensures Idx(store.instances, p) == old(Idx(store.instances, p)) &&
              Idx(store.instances, b) == old(Idx(store.instances, b))
  {
    FieldOrder(store.d, p, b, t);
    ghost var run := SyncInstances(store, [p, b, t]);
    FieldTurns(store.d, run, p, b, t);
  }

  /**
    The run: init, add a b, reconcile, add a p, reconcile. The field of b[1] is removed because p[1]
    is missing, and when p[1] comes it is not made again.
   */
  method FieldLeftBehind(p: string, b: string, t: string) returns (store: TaskStore)
    requires CleanTaskId(p) && CleanTaskId(b) && CleanTaskId(t) && p != b && p != t && b != t
    ensures store.Ready() && IsFieldForm(store.d, p, b, t)
    ensures Idx(store.instances, b) == {0, 1} && Idx(store.instances, p) == {0, 1} && Idx(store.instances, t) == {0}
    ensures !InStep(store.instances, t, p)
  {
    store := StartField(p, b, t);
    AddOne(store, b, p, b, t);
    SyncField(store, p, b, t);
    AddOne(store, p, p, b, t);
    SyncField(store, p, b, t);
    assert 1 in Idx(store.instances, p) && 1 !in Idx(store.instances, t);
  }

  // ---- An added instance is overwritten ----

  /** A repeatable task r with a repeatable task c below it. */
  function PairForm(r: string, c: string): seq<Task> {
    [Task(r, true, [], [Task(c, true, [], [])])]
  }

  predicate IsPairForm(d: Defs, r: string, c: string) {
    && DefsOk(d) && r != c
    && d.tasks.Keys == {r, c}
    && d.tasks[r] == FlatTask(None, [c], true, []) && d.tasks[c] == FlatTask(Some(r), [], true, [])
  }

  lemma PairFormDistinct(r: string, c: string)
    requires CleanTaskId(r) && CleanTaskId(c) && r != c
    ensures DistinctIds(PairForm(r, c)) && AllIds(PairForm(r, c)) == {r, c}
  {
    var cs := Task(c, true, [], []);
    var rs := Task(r, true, [], [cs]);
    assert [cs] + [] == [cs] && [rs] + [] == PairForm(r, c);
    FirstAndRest(cs, []);
    FirstAndRest(rs, []);
  }

  lemma PairFormFlat(d: Defs, r: string, c: string)
    requires DefsOk(d) && r != c && Mirrors(d.tasks, PairForm(r, c), None) && d.tasks.Keys == {r, c}
    ensures IsPairForm(d, r, c)
  {
    var form := PairForm(r, c);
    MirrorOf(d.tasks, form, None, 0);
    MirrorOf(d.tasks, form[0].tasks, Some(r), 0);
    assert ChildIds(form[0].tasks) == [c] && ChildIds([]) == [];
  }

  lemma PairBelow(d: Defs, r: string, c: string, u: string)
    requires IsPairForm(d, r, c)
    ensures BelowTask(d, r, u) <==> u == r
    ensures BelowTask(d, c, u) <==> u == c || u == r
    ensures r in d.under && c in d.under
  {
    assert BelowTask(d, c, u) <==> u == c || BelowTask(d, r, u);
  }

  lemma PairAddedInner(d: Defs, f: Instances, g: Instances, r: string, c: string, id: InstanceId, made: set<InstanceId>)
    requires IsPairForm(d, r, c) && Initial(d, f) && id.taskId == c && id.index.Some?
    requires Planted(d, f, g, id, Some(Inst(r, 0)), made) && IsNextIndex(f, c, id.index.value)
    ensures id == Inst(c, 1) && Inst(r, 0) in g && Inst(c, 1) in g
    ensures Inst(c, 1) in g[Inst(r, 0)].children && g[Inst(c, 1)].parent == Some(Inst(r, 0)) && Idx(g, r) == {0}
  {
    PairBelow(d, r, c, c);
    InitialIdx(d, f, c);
    InitialIdx(d, f, r);
    assert 0 in Idx(f, c) && id == Inst(c, 1);
    assert Inst(r, 0) == DefaultId(d, r) && Inst(r, 0) in f;
    if Inst(r, 0) in made {
      MadeIsChosen(d, f, g, id, Some(Inst(r, 0)), made, Inst(r, 0));
    }
    PlantedIdx(d, f, g, id, Some(Inst(r, 0)), made, r);
  }

  lemma PairAddedOuter(d: Defs, f: Instances, g: Instances, r: string, c: string, id: InstanceId, made: set<InstanceId>)
    requires IsPairForm(d, r, c) && id.taskId == r && id.index.Some? && Planted(d, f, g, id, None, made)
    requires IsNextIndex(f, r, id.index.value) && Idx(f, r) == {0}
    requires Inst(r, 0) in f && Inst(c, 1) in f && Inst(c, 1) in f[Inst(r, 0)].children
    ensures !IdsFree(d, f, id) && id == Inst(r, 1) && Inst(r, 0) in g && Inst(c, 1) in g
    ensures Inst(c, 1) in g[Inst(r, 0)].children && g[Inst(c, 1)].parent == Some(Inst(r, 1))
  {
    PairBelow(d, r, c, r);
    assert 0 in Idx(f, r) && id == Inst(r, 1);
    ChosenIsMade(d, f, g, id, None, made, c);
    assert ChosenId(d, f, id, r) == id && ChosenId(d, f, id, c) == Inst(c, 1);
    assert WillBeMade(d, f, id, Inst(c, 1));
    assert MadeNode(d, f, g, id, made, 1, Inst(c, 1));
    ReplacedIff(d, f, g, id, None, made, Inst(r, 0));
    var p := g[Inst(c, 1)].parent.value;
    assert MadeNode(d, f, g, id, made, 1, p);
  }

  /**
    The run: init, add a c below r[0], add an r. The new r[1] brings a c[1] of its own, which
    takes the place of the one just added; r[0] still lists it.
   */
  method AddedInstanceReplaced(r: string, c: string) returns (store: TaskStore)
    requires CleanTaskId(r) && CleanTaskId(c) && r != c
    ensures store.Ready() && Inst(r, 0) in store.instances && Inst(c, 1) in store.instances
    ensures Inst(c, 1) in store.instances[Inst(r, 0)].children
    ensures store.instances[Inst(c, 1)].parent == Some(Inst(r, 1))
    ensures !Sound(store.d, store.instances)
  {
    var definitions;
    PairFormDistinct(r, c);
    definitions, store := Init(PairForm(r, c));
    PairFormFlat(store.d, r, c);
    ghost var first := store.instances;
    var inner, outer;
    ghost var made;
    inner, made := store.AddRepeatableTaskInstance(c, Some(Inst(r, 0)), None);
    PairAddedInner(store.d, first, store.instances, r, c, inner.value, made);
    ghost var second := store.instances;
    outer, made := store.AddRepeatableTaskInstance(r, None, None);
    PairAddedOuter(store.d, second, store.instances, r, c, outer.value, made);
    assert !NodeOk(store.d, store.instances, Inst(r, 0));
  }
}
