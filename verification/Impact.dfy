/**
  The warning before an instance is deleted, part one: what lies below an instance or a task, and
  which tasks lose an instance along with it.
 */
module Impact {
  import opened Wrappers
  import opened InstanceIds
  import opened States
  import opened Schema
  import opened Forest
  import opened Growth
  import opened Removal
  import opened TaskStore
  import opened Sync

  type Answers = map<InstanceId, Answer>

  datatype ImpactedAnswer = ImpactedAnswer(id: InstanceId, value: AnswerValue)

  predicate HasValue(v: AnswerValue) {
    match v
    case Cleared => false
    case Text(text) => text != ""
    case Choices(choices) => choices != []
    case Image(_) => true
  }

  // ---- Descendants ----

  /** y is x or comes up in the lists of children below x, whether it exists or not. */
  predicate Listed(d: Defs, f: Instances, y: InstanceId, x: InstanceId)
    requires DefsOk(d) && LinksOk(d, f)
    decreases Rest(d, x)
  {
    y == x || (x in f && exists c | c in f[x].children :: (ChildIsDeeper(d, f, x, c); Listed(d, f, y, c)))
  }

  /** For existing instances, being listed is being reached. */
  lemma {:induction false} ListedIsReach(d: Defs, f: Instances, y: InstanceId, x: InstanceId)
    requires DefsOk(d) && LinksOk(d, f) && y in f
    ensures Listed(d, f, y, x) <==> Reach(d, f, y, x)
    decreases Rest(d, x)
  {
    if x in f && y != x {
      if Listed(d, f, y, x) {
        var c :| c in f[x].children && Listed(d, f, y, c);
        ChildIsDeeper(d, f, x, c);
        ListedIsReach(d, f, y, c);
      }
      if Reach(d, f, y, x) {
        var c :| c in f[x].children && Reach(d, f, y, c);
        ChildIsDeeper(d, f, x, c);
        ListedIsReach(d, f, y, c);
      }
    }
  }

  /** In a sound forest everything listed exists. */
  lemma {:induction false} ListedExists(d: Defs, f: Instances, y: InstanceId, x: InstanceId)
    requires DefsOk(d) && LinksOk(d, f) && Sound(d, f) && Listed(d, f, y, x) && x in f
    ensures y in f
    decreases Rest(d, x)
  {
    if y != x {
      var c :| c in f[x].children && Listed(d, f, y, c);
      ChildIsDeeper(d, f, x, c);
      assert NodeOk(d, f, x);
      ListedExists(d, f, y, c);
    }
  }

  /** Below two different children of the same instance there is nothing in common. */
  lemma {:induction false} AncestorsApart(d: Defs, f: Instances, x: InstanceId, a: InstanceId, b: InstanceId)
    requires DefsOk(d) && Sound(d, f) && Below(d, f, x, a) && Below(d, f, x, b) && Height(d, a) == Height(d, b)
    ensures a == b
    decreases Height(d, x)
  {
    assert NodeOk(d, f, x);
    if x == a {
      if x != b {
        BelowHeight(d, f, f[x].parent.value, b);
      }
    } else if x == b {
      BelowHeight(d, f, f[x].parent.value, a);
    } else {
      AncestorsApart(d, f, f[x].parent.value, a, b);
    }
  }

  lemma {:induction false} BelowHeight(d: Defs, f: Instances, x: InstanceId, a: InstanceId)
    requires DefsOk(d) && Sound(d, f) && Below(d, f, x, a)
    ensures Height(d, a) <= Height(d, x)
    decreases Height(d, x)
  {
    assert NodeOk(d, f, x);
    if x != a {
      BelowHeight(d, f, f[x].parent.value, a);
    }
  }

  /** r lists x and what is below the first k children of x, each once in a sound forest. */
  ghost predicate Collected(d: Defs, f: Instances, x: InstanceId, k: nat, r: seq<InstanceId>)
    requires DefsOk(d) && LinksOk(d, f) && x in f && k <= |f[x].children|
  {
    && (Sound(d, f) ==> NoDuplicates(r))
    && forall y :: y in r <==> y == x || exists j {:trigger f[x].children[j]} ::
        0 <= j < k && Listed(d, f, y, f[x].children[j])
  }

  lemma SiblingsListApart(d: Defs, f: Instances, x: InstanceId, y: InstanceId, j: nat, k: nat)
    requires DefsOk(d) && LinksOk(d, f) && Sound(d, f) && x in f && j < k < |f[x].children|
    ensures !(Listed(d, f, y, f[x].children[j]) && Listed(d, f, y, f[x].children[k]))
    ensures !Listed(d, f, x, f[x].children[k])
  {
    var cs := f[x].children;
    assert NodeOk(d, f, x);
    assert cs[j] in cs && cs[k] in cs && cs[j] != cs[k];
    ChildIsDeeper(d, f, x, cs[j]);
    ChildIsDeeper(d, f, x, cs[k]);
    if Listed(d, f, y, cs[j]) && Listed(d, f, y, cs[k]) {
      ListedExists(d, f, y, cs[j]);
      ListedIsReach(d, f, y, cs[j]);
      ListedIsReach(d, f, y, cs[k]);
      ReachIsBelow(d, f, y, cs[j]);
      ReachIsBelow(d, f, y, cs[k]);
      AncestorsApart(d, f, y, cs[j], cs[k]);
    }
    NotListedBelowItself(d, f, x, cs[k]);
  }

  lemma NotListedBelowItself(d: Defs, f: Instances, x: InstanceId, c: InstanceId)
    requires DefsOk(d) && LinksOk(d, f) && x in f && c in f[x].children
    ensures !Listed(d, f, x, c)
  {
    ChildIsDeeper(d, f, x, c);
    if Listed(d, f, x, c) {
      ListedIsReach(d, f, x, c);
      ReachIn(d, f, x, c);
      BelowTaskDepth(d, x.taskId, c.taskId);
    }
  }

  lemma CollectedStep(d: Defs, f: Instances, x: InstanceId, k: nat, r: seq<InstanceId>, more: seq<InstanceId>)
    requires DefsOk(d) && LinksOk(d, f) && x in f && k < |f[x].children| && Collected(d, f, x, k, r)
    requires (Sound(d, f) ==> NoDuplicates(more)) && forall y :: y in more <==> Listed(d, f, y, f[x].children[k])
    ensures Collected(d, f, x, k + 1, r + more)
  {
    var cs := f[x].children;
    if Sound(d, f) {
      assert cs[k] in cs;
      forall y | y in r ensures y !in more {
        if y == x {
          NotListedBelowItself(d, f, x, cs[k]);
        } else {
          var j :| 0 <= j < k && Listed(d, f, y, cs[j]);
          SiblingsListApart(d, f, x, y, j, k);
        }
      }
      NoDuplicatesConcat(r, more);
    }
    forall y ensures y in r + more <==> y == x || exists j {:trigger cs[j]} ::
        0 <= j < k + 1 && Listed(d, f, y, cs[j]) {
      if y in more {
        assert Listed(d, f, y, cs[k]);
      }
    }
  }

  lemma CollectedAll(d: Defs, f: Instances, x: InstanceId, r: seq<InstanceId>, y: InstanceId)
    requires DefsOk(d) && LinksOk(d, f) && x in f && Collected(d, f, x, |f[x].children|, r)
    ensures y in r <==> Listed(d, f, y, x)
  {
    var cs := f[x].children;
    if Listed(d, f, y, x) && y != x {
      var c :| c in cs && Listed(d, f, y, c);
      var j :| 0 <= j < |cs| && cs[j] == c;
    }
  }

  /** collectDescendantInstances: the instance and everything listed below it, each once in a sound forest. */
  method CollectDescendantInstances(ghost d: Defs, f: Instances, x: InstanceId) returns (r: seq<InstanceId>)
    requires DefsOk(d) && LinksOk(d, f)
    ensures forall y :: y in r <==> Listed(d, f, y, x)
    ensures Sound(d, f) ==> NoDuplicates(r)
    decreases Rest(d, x)
  {
    r := [x];
    if x !in f {
      return;
    }
    var cs := f[x].children;
    for k := 0 to |cs|
      invariant Collected(d, f, x, k, r)
    {
      assert cs[k] in cs;
      ChildIsDeeper(d, f, x, cs[k]);
      var more := CollectDescendantInstances(d, f, cs[k]);
      CollectedStep(d, f, x, k, r, more);
      r := r + more;
    }
    forall y ensures y in r <==> Listed(d, f, y, x) {
      CollectedAll(d, f, x, r, y);
    }
  }

  predicate ChildrenFound(tasks: FlatTasks, p: string, found: set<string>) {
    p in tasks && forall c | c in tasks[p].childrenIds :: c in found
  }

  lemma {:induction false} ClosedReaches(d: Defs, found: set<string>, root: string, t: string)
    requires DefsOk(d) && t in d.tasks && root in found && BelowTask(d, t, root)
    requires forall p {:trigger ChildrenFound(d.tasks, p, found)} | p in found :: ChildrenFound(d.tasks, p, found)
    ensures t in found
    decreases d.depth[t]
  {
    if t != root {
      var p := d.tasks[t].parentId.value;
      ClosedReaches(d, found, root, p);
      assert ChildrenFound(d.tasks, p, found) && t in d.tasks[p].childrenIds;
    }
  }

  /** The children that are not known yet are found and queued. */
  method QueueChildren(children: seq<string>, found: set<string>, rest: seq<string>)
    returns (result: set<string>, queue: seq<string>)
    ensures forall t :: t in result <==> t in found || t in children
    ensures forall t :: t in queue <==> t in rest || (t in children && t !in found)
    ensures result == found ==> queue == rest
  {
    result, queue := found, rest;
    for k := 0 to |children|
      invariant forall t :: t in result <==> t in found || t in children[..k]
      invariant forall t :: t in queue <==> t in rest || (t in children[..k] && t !in found)
      invariant result == found ==> queue == rest
    {
      var c := children[k];
      assert children[..k + 1] == children[..k] + [c];
      if c !in result {
        result := result + {c};
        queue := queue + [c];
      }
    }
    assert children[..|children|] == children;
  }

  /** Every task found so far lies below the root. */
  predicate AllBelow(d: Defs, found: set<string>, root: string)
    requires DefsOk(d)
  {
    forall t | t in found :: t in d.tasks && BelowTask(d, t, root)
  }

  lemma ChildrenBelow(d: Defs, found: set<string>, root: string, id: string, more: set<string>)
    requires DefsOk(d) && AllBelow(d, found, root) && id in found
    requires forall t | t in more :: t in found || t in d.tasks[id].childrenIds
    ensures AllBelow(d, more, root)
  {
    forall t | t in more ensures t in d.tasks && BelowTask(d, t, root) {
      if t in d.tasks[id].childrenIds {
        assert d.tasks[t].parentId == Some(id);
      }
    }
  }

  /** Breadth-first over the definitions: the task and all tasks below it. */
  method CollectDescendantTaskIds(ghost d: Defs, tasks: FlatTasks, root: string) returns (result: set<string>)
    requires DefsOk(d) && d.tasks == tasks && root in tasks
    ensures forall t :: t in result <==> t in tasks && BelowTask(d, t, root)
  {
    result := {root};
    var queue := [root];
    while queue != []
      invariant AllBelow(d, result, root) && result <= tasks.Keys
      invariant forall t | t in queue :: t in result
      invariant root in result
      invariant forall p {:trigger ChildrenFound(tasks, p, result)} | p in result && p !in queue ::
                  ChildrenFound(tasks, p, result)
      decreases tasks.Keys - result, |queue|
    {
      ghost var found, waiting := result, queue;
      var id := queue[0];
      result, queue := QueueChildren(tasks[id].childrenIds, result, queue[1..]);
      ChildrenBelow(d, found, root, id, result);
      forall p | p in result && p !in queue ensures ChildrenFound(tasks, p, result) {
        if p != id {
          assert p !in waiting && ChildrenFound(tasks, p, found);
        }
      }
    }
    forall t | t in tasks && BelowTask(d, t, root) ensures t in result {
      ClosedReaches(d, result, root, t);
    }
  }

  // ---- The cascade ----

  /** The source of t lies at or below one of the tasks. */
  predicate FedBy(d: Defs, t: string, sources: set<string>)
    requires DefsOk(d)
  {
    IsTarget(d, t) && SourceOf(d, t) in d.tasks && exists u :: u in sources && BelowTask(d, SourceOf(d, t), u)
  }

  /**
    The tasks whose instance with index i is found to go along with r's, counting only the first
    k tasks as targets: a target is found when it has that instance and its source lies at or
    below a task found before.
   */
  function Cascade(d: Defs, f: Instances, order: seq<string>, r: string, i: nat, k: nat): set<string>
    requires DefsOk(d) && k <= |order|
  {
    if k == 0 then {r}
    else
      var c := Cascade(d, f, order, r, i, k - 1);
      if FedBy(d, order[k - 1], c) && Inst(order[k - 1], i) in f then c + {order[k - 1]} else c
  }

  lemma {:induction false} CascadeMembers(d: Defs, f: Instances, order: seq<string>, r: string, i: nat, k: nat,
                                          u: string)
    requires DefsOk(d) && k <= |order| && u in Cascade(d, f, order, r, i, k) && u != r
    ensures Inst(u, i) in f && exists j :: 0 <= j < k && order[j] == u && IsTarget(d, u)
  {
    if u in Cascade(d, f, order, r, i, k - 1) {
      CascadeMembers(d, f, order, r, i, k - 1, u);
    } else {
      assert order[k - 1] == u;
    }
  }

  lemma {:induction false} CascadeGrows(d: Defs, f: Instances, order: seq<string>, r: string, i: nat, j: nat, k: nat)
    requires DefsOk(d) && j <= k <= |order|
    ensures Cascade(d, f, order, r, i, j) <= Cascade(d, f, order, r, i, k)
  {
    if j < k {
      CascadeGrows(d, f, order, r, i, j, k - 1);
    }
  }

  lemma CascadeHasRoot(d: Defs, f: Instances, order: seq<string>, r: string, i: nat, k: nat)
    requires DefsOk(d) && k <= |order|
    ensures r in Cascade(d, f, order, r, i, k)
  {
    CascadeGrows(d, f, order, r, i, 0, k);
    assert Cascade(d, f, order, r, i, 0) == {r};
  }

  /** Every member but r comes in at its own position in the order. */
  lemma {:induction false} CascadeAtPosition(d: Defs, f: Instances, order: seq<string>, r: string, i: nat, k: nat,
                                             j: nat)
    requires DefsOk(d) && NoDuplicates(order) && j < k <= |order| && order[j] != r
    requires order[j] in Cascade(d, f, order, r, i, k)
    ensures order[j] in Cascade(d, f, order, r, i, j + 1)
  {
    if j < k - 1 {
      assert order[k - 1] != order[j];
      CascadeAtPosition(d, f, order, r, i, k - 1, j);
    }
  }

  lemma SourceEarlier(d: Defs, order: seq<string>, k: nat, j: nat)
    requires DefsOk(d) && OrderOk(d, order) && k < |order| && j < |order|
    requires IsTarget(d, order[k]) && IsTarget(d, order[j]) && MappingOk(d, order[k])
    requires BelowTask(d, SourceOf(d, order[k]), order[j])
    ensures j < k
  {
    assert j < k || SourceBefore(d, order, k, j);
  }

  lemma CascadeEarly(d: Defs, f: Instances, order: seq<string>, r: string, i: nat, k: nat, u: string)
    requires DefsOk(d) && NoDuplicates(order) && k <= |order| && u in Cascade(d, f, order, r, i, |order|)
    requires u == r || u in order[..k]
    ensures u in Cascade(d, f, order, r, i, k)
  {
    if u == r {
      CascadeHasRoot(d, f, order, r, i, k);
    } else {
      var j :| 0 <= j < k && order[j] == u;
      CascadeAtPosition(d, f, order, r, i, |order|, j);
      CascadeGrows(d, f, order, r, i, j + 1, k);
    }
  }

  /** What feeds the task at position k comes before position k. */
  lemma FeederEarlier(d: Defs, f: Instances, order: seq<string>, r: string, i: nat, k: nat, u: string)
    requires DefsOk(d) && OrderOk(d, order) && k < |order| && IsTarget(d, order[k]) && MappingOk(d, order[k])
    requires u in Cascade(d, f, order, r, i, |order|) && BelowTask(d, SourceOf(d, order[k]), u)
    ensures u == r || u in order[..k]
  {
    if u != r {
      CascadeMembers(d, f, order, r, i, |order|, u);
      var j :| 0 <= j < |order| && order[j] == u && IsTarget(d, u);
      SourceEarlier(d, order, k, j);
    }
  }

  lemma CascadeTakes(d: Defs, f: Instances, order: seq<string>, r: string, i: nat, k: nat, u: string)
    requires DefsOk(d) && k < |order| && u in Cascade(d, f, order, r, i, k) && Inst(order[k], i) in f
    requires IsTarget(d, order[k]) && SourceOf(d, order[k]) in d.tasks && BelowTask(d, SourceOf(d, order[k]), u)
    ensures order[k] in Cascade(d, f, order, r, i, |order|)
  {
    assert FedBy(d, order[k], Cascade(d, f, order, r, i, k));
    CascadeGrows(d, f, order, r, i, k + 1, |order|);
  }

  /** The cascade is closed: a target with that instance whose source lies below a member is a member. */
  lemma CascadeClosed(d: Defs, f: Instances, order: seq<string>, r: string, i: nat, t: string, u: string)
    requires DefsOk(d) && OrderOk(d, order) && IsTarget(d, t) && MappingOk(d, t) && t in order && Inst(t, i) in f
    requires u in Cascade(d, f, order, r, i, |order|) && BelowTask(d, SourceOf(d, t), u)
    ensures t in Cascade(d, f, order, r, i, |order|)
  {
    var k :| 0 <= k < |order| && order[k] == t;
    FeederEarlier(d, f, order, r, i, k, u);
    CascadeEarly(d, f, order, r, i, k, u);
    CascadeTakes(d, f, order, r, i, k, u);
  }
}
