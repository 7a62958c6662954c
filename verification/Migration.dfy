/**
  Renaming old instance ids (task id, underscore, random part) to task ids with an index: two
  passes over the sorted old ids, then the answers under their new keys.
 */
module Migration {
  import opened Wrappers
  import opened InstanceIds
  import opened States

  /** The task of every old instance id. */
  type OldInstances = map<string, string>

  /** Code unit order, as used by sort(). */
  predicate Before(a: string, b: string) {
    b != [] && (a == [] || a[0] < b[0] || (a[0] == b[0] && Before(a[1..], b[1..])))
  }

  ghost predicate SortedKeys(instances: OldInstances, sorted: seq<string>) {
    && (forall id :: id in sorted <==> id in instances)
    && (forall i, j | 0 <= i < j < |sorted| :: Before(sorted[i], sorted[j]))
  }

  lemma {:induction false} BeforeIsStrict(a: string)
    ensures !Before(a, a)
  {
    if a != [] {
      BeforeIsStrict(a[1..]);
    }
  }

  function Count(instances: OldInstances, ids: seq<string>, taskId: string): nat
    requires forall id | id in ids :: id in instances
  {
    if ids == [] then 0
    else
      var n := Count(instances, ids[..|ids| - 1], taskId);
      if instances[ids[|ids| - 1]] == taskId then n + 1 else n
  }

  /** The new id of the k-th old id. */
  ghost function NewId(instances: OldInstances, sorted: seq<string>, k: nat): string
    requires SortedKeys(instances, sorted) && k < |sorted|
  {
    var t := instances[sorted[k]];
    BuildInstanceId(t, if Count(instances, sorted, t) > 1 then Some(Count(instances, sorted[..k], t)) else None)
  }

  // ---- The two passes ----

  function Tally(counters: map<string, nat>, t: string): nat {
    if t in counters then counters[t] else 0
  }

  /** The counters hold the counts of the first k ids, for all tasks or only those with more than one instance. */
  ghost predicate Counted(instances: OldInstances, sorted: seq<string>, k: nat, all: bool, counters: map<string, nat>)
    requires SortedKeys(instances, sorted) && k <= |sorted|
  {
    forall t :: Tally(counters, t) == if all || Count(instances, sorted, t) > 1 then Count(instances, sorted[..k], t)
        else 0
  }

  lemma CountedStep(instances: OldInstances, sorted: seq<string>, k: nat, all: bool, counters: map<string, nat>)
    requires SortedKeys(instances, sorted) && k < |sorted| && Counted(instances, sorted, k, all, counters)
    ensures var t := instances[sorted[k]];
            Counted(instances, sorted, k + 1, all,
                    if all || Count(instances, sorted, t) > 1 then counters[t := Tally(counters, t) + 1] else counters)
  {
    CountStep(instances, sorted, k);
  }

  method CountInstances(instances: OldInstances, sorted: seq<string>) returns (counters: map<string, nat>)
    requires SortedKeys(instances, sorted)
    ensures forall t :: Tally(counters, t) == Count(instances, sorted, t)
  {
    counters := map[];
    for k := 0 to |sorted|
      invariant Counted(instances, sorted, k, true, counters)
    {
      var t := instances[sorted[k]];
      CountedStep(instances, sorted, k, true, counters);
      counters := counters[t := Tally(counters, t) + 1];
    }
    assert sorted[..|sorted|] == sorted;
  }

  lemma CountStep(instances: OldInstances, sorted: seq<string>, k: nat)
    requires k < |sorted| && forall id | id in sorted :: id in instances
    ensures forall t :: Count(instances, sorted[..k + 1], t)
                     == Count(instances, sorted[..k], t) + if instances[sorted[k]] == t then 1 else 0
  {
    assert sorted[..k + 1][..k] == sorted[..k] && sorted[..k + 1][k] == sorted[k];
  }

  /** The ids assigned to the first k old ids. */
  ghost predicate AssignedUpTo(instances: OldInstances, sorted: seq<string>, k: nat, oldToNew: map<string, string>)
    requires SortedKeys(instances, sorted) && k <= |sorted|
  {
    && (forall id :: id in oldToNew <==> id in sorted[..k])
    && (forall j | 0 <= j < k :: oldToNew[sorted[j]] == NewId(instances, sorted, j))
  }

  lemma AssignedStep(instances: OldInstances, sorted: seq<string>, k: nat, oldToNew: map<string, string>)
    requires SortedKeys(instances, sorted) && k < |sorted| && AssignedUpTo(instances, sorted, k, oldToNew)
    ensures AssignedUpTo(instances, sorted, k + 1, oldToNew[sorted[k] := NewId(instances, sorted, k)])
  {
    DistinctOldIds(instances, sorted, k);
    assert sorted[..k + 1] == sorted[..k] + [sorted[k]];
  }

  /** The tasks with more than one instance. */
  method RepeatedTasks(instances: OldInstances, sorted: seq<string>) returns (repeatable: set<string>)
    requires SortedKeys(instances, sorted)
    ensures forall t :: t in repeatable <==> Count(instances, sorted, t) > 1
  {
    var counters := CountInstances(instances, sorted);
    repeatable := set t | t in counters && counters[t] > 1;
    assert forall t :: t in repeatable <==> Tally(counters, t) > 1;
  }

  /** One turn of the second pass: the k-th old id gets its new one. */
  method AssignOne(instances: OldInstances, sorted: seq<string>, repeatable: set<string>, k: nat,
                   next: map<string, nat>)
    returns (newId: string, counted: map<string, nat>)
    requires SortedKeys(instances, sorted) && k < |sorted| && Counted(instances, sorted, k, false, next)
    requires forall t :: t in repeatable <==> Count(instances, sorted, t) > 1
    ensures newId == NewId(instances, sorted, k) && Counted(instances, sorted, k + 1, false, counted)
  {
    var t := instances[sorted[k]];
    CountedStep(instances, sorted, k, false, next);
    if t in repeatable {
      var idx := Tally(next, t);
      newId := BuildInstanceId(t, Some(idx));
      counted := next[t := idx + 1];
    } else {
      newId := BuildInstanceId(t, None);
      counted := next;
    }
  }

  method AssignIds(instances: OldInstances, sorted: seq<string>) returns (oldToNew: map<string, string>)
    requires SortedKeys(instances, sorted)
    ensures oldToNew.Keys == instances.Keys
    ensures forall k | 0 <= k < |sorted| :: oldToNew[sorted[k]] == NewId(instances, sorted, k)
  {
    var repeatable := RepeatedTasks(instances, sorted);
    var next: map<string, nat> := map[];
    oldToNew := map[];
    for k := 0 to |sorted|
      invariant Counted(instances, sorted, k, false, next)
      invariant AssignedUpTo(instances, sorted, k, oldToNew)
    {
      var newId;
      newId, next := AssignOne(instances, sorted, repeatable, k, next);
      AssignedStep(instances, sorted, k, oldToNew);
      oldToNew := oldToNew[sorted[k] := newId];
    }
    assert sorted[..|sorted|] == sorted;
  }

  lemma DistinctOldIds(instances: OldInstances, sorted: seq<string>, k: nat)
    requires SortedKeys(instances, sorted) && k < |sorted|
    ensures forall j | 0 <= j < k :: sorted[j] != sorted[k]
  {
    BeforeIsStrict(sorted[k]);
  }

  // ---- What the new ids are ----

  lemma {:induction false} CountGrows(instances: OldInstances, sorted: seq<string>, i: nat, j: nat, t: string)
    requires i <= j <= |sorted| && forall id | id in sorted :: id in instances
    ensures Count(instances, sorted[..i], t) <= Count(instances, sorted[..j], t)
    ensures i < j && instances[sorted[i]] == t ==> Count(instances, sorted[..i], t) < Count(instances, sorted[..j], t)
  {
    if i < j {
      CountStep(instances, sorted, j - 1);
      CountGrows(instances, sorted, i, j - 1, t);
      if i == j - 1 {
        assert Count(instances, sorted[..i], t) <= Count(instances, sorted[..i], t);
      }
    }
  }

  /** The indices of one task follow the sorted old ids. */
  lemma IndexOrder(instances: OldInstances, sorted: seq<string>, i: nat, j: nat)
    requires SortedKeys(instances, sorted) && i < j < |sorted| && instances[sorted[i]] == instances[sorted[j]]
    ensures var t := instances[sorted[i]];
            && Count(instances, sorted, t) > 1
            && Count(instances, sorted[..i], t) < Count(instances, sorted[..j], t) < Count(instances, sorted, t)
  {
    var t := instances[sorted[i]];
    CountGrows(instances, sorted, i, j, t);
    CountGrows(instances, sorted, j, |sorted|, t);
    assert sorted[..|sorted|] == sorted;
  }

  // ---- The new ids, from the old ones alone ----

  lemma {:induction false} BeforeOneWay(a: string, b: string)
    ensures !(Before(a, b) && Before(b, a))
  {
    if a != [] && b != [] {
      BeforeOneWay(a[1..], b[1..]);
    }
  }

  /** The old ids of a task. */
  function IdsOf(instances: OldInstances, t: string): set<string> {
    set id | id in instances && instances[id] == t
  }

  /** The ids of task t among the first k. */
  function ListedIds(instances: OldInstances, sorted: seq<string>, k: nat, t: string): set<string>
    requires k <= |sorted| && forall id | id in sorted :: id in instances
  {
    set b | b in sorted[..k] && instances[b] == t
  }

  lemma ListedIdsStep(instances: OldInstances, sorted: seq<string>, k: nat, t: string)
    requires NoDuplicates(sorted) && k < |sorted| && forall id | id in sorted :: id in instances
    ensures |ListedIds(instances, sorted, k + 1, t)|
         == |ListedIds(instances, sorted, k, t)| + if instances[sorted[k]] == t then 1 else 0
  {
    var listed, more := ListedIds(instances, sorted, k, t), ListedIds(instances, sorted, k + 1, t);
    assert sorted[..k + 1] == sorted[..k] + [sorted[k]];
    if instances[sorted[k]] == t {
      assert more == listed + {sorted[k]};
      assert sorted[k] !in listed;
    } else {
      assert more == listed;
    }
  }

  /** Counting among distinct ids is the size of a set. */
  lemma {:induction false} CountIsSize(instances: OldInstances, sorted: seq<string>, k: nat, t: string)
    requires NoDuplicates(sorted) && k <= |sorted| && forall id | id in sorted :: id in instances
    ensures Count(instances, sorted[..k], t) == |ListedIds(instances, sorted, k, t)|
  {
    if k > 0 {
      CountIsSize(instances, sorted, k - 1, t);
      CountStep(instances, sorted, k - 1);
      ListedIdsStep(instances, sorted, k - 1, t);
    }
  }

  lemma SortedIsDistinct(instances: OldInstances, sorted: seq<string>)
    requires SortedKeys(instances, sorted)
    ensures NoDuplicates(sorted)
  {
    forall i, j | 0 <= i < j < |sorted| ensures sorted[i] != sorted[j] {
      DistinctOldIds(instances, sorted, j);
    }
  }

  /** What comes before the k-th id in the order is what was listed before it. */
  lemma EarlierIsBefore(instances: OldInstances, sorted: seq<string>, k: nat, b: string)
    requires SortedKeys(instances, sorted) && k < |sorted|
    ensures b in sorted[..k] <==> b in instances && Before(b, sorted[k])
  {
    if b in instances {
      var j :| 0 <= j < |sorted| && sorted[j] == b;
      BeforeIsStrict(b);
      BeforeOneWay(b, sorted[k]);
    }
  }

  /** The old ids of the same task that come before this one. */
  function EarlierIds(instances: OldInstances, id: string): set<string>
    requires id in instances
  {
    set b | b in IdsOf(instances, instances[id]) && Before(b, id)
  }

  lemma EarlierCount(instances: OldInstances, sorted: seq<string>, k: nat)
    requires SortedKeys(instances, sorted) && k < |sorted|
    ensures Count(instances, sorted[..k], instances[sorted[k]]) == |EarlierIds(instances, sorted[k])|
  {
    var id, t := sorted[k], instances[sorted[k]];
    SortedIsDistinct(instances, sorted);
    CountIsSize(instances, sorted, k, t);
    var listed := ListedIds(instances, sorted, k, t);
    forall b ensures b in listed <==> b in EarlierIds(instances, id) {
      EarlierIsBefore(instances, sorted, k, b);
    }
    assert listed == EarlierIds(instances, id);
  }

  lemma WholeCount(instances: OldInstances, sorted: seq<string>, t: string)
    requires SortedKeys(instances, sorted)
    ensures Count(instances, sorted, t) == |IdsOf(instances, t)|
  {
    SortedIsDistinct(instances, sorted);
    CountIsSize(instances, sorted, |sorted|, t);
    assert sorted[..|sorted|] == sorted;
    assert ListedIds(instances, sorted, |sorted|, t) == IdsOf(instances, t);
  }

  /** The bare task id for a single instance; of several, each has the number of earlier ones as index. */
  predicate IsNewId(instances: OldInstances, id: string, newId: string) {
    && id in instances
    && var t := instances[id];
       if IdsOf(instances, t) == {id} then newId == t
       else newId == t + "[" + Decimal(|EarlierIds(instances, id)|) + "]"
  }

  lemma OnlyOne(s: set<string>, x: string)
    requires x in s
    ensures s == {x} <==> |s| == 1
  {
    if |s| == 1 {
      assert s == {x} + (s - {x});
      assert |s - {x}| == 0;
    }
  }

  /**
    The only instance of a task gets the bare task id; of several, each gets as index the number of old
    ids of the task that come before its own.
   */
  lemma NewIdLaw(instances: OldInstances, sorted: seq<string>, k: nat)
    requires SortedKeys(instances, sorted) && k < |sorted|
    ensures IsNewId(instances, sorted[k], NewId(instances, sorted, k))
  {
    var id, t := sorted[k], instances[sorted[k]];
    EarlierCount(instances, sorted, k);
    WholeCount(instances, sorted, t);
    assert id in IdsOf(instances, t);
    OnlyOne(IdsOf(instances, t), id);
    assert |IdsOf(instances, t)| >= 1;
  }

  /** New ids are pairwise distinct. */
  lemma NewIdsDistinct(instances: OldInstances, sorted: seq<string>, i: nat, j: nat)
    requires SortedKeys(instances, sorted) && i < j < |sorted|
    requires forall id | id in instances :: CleanTaskId(instances[id])
    ensures NewId(instances, sorted, i) != NewId(instances, sorted, j)
  {
    var t, u := instances[sorted[i]], instances[sorted[j]];
    var m := if Count(instances, sorted, t) > 1 then Some(Count(instances, sorted[..i], t)) else None;
    var n := if Count(instances, sorted, u) > 1 then Some(Count(instances, sorted[..j], u)) else None;
    ParseOfBuild(t, m);
    ParseOfBuild(u, n);
    if NewId(instances, sorted, i) == NewId(instances, sorted, j) {
      BuildInjective(t, m, u, n);
      IndexOrder(instances, sorted, i, j);
    }
  }

  /** Somewhere in the sorted ids the count of t reaches n + 1, and there t is met. */
  lemma {:induction false} NthInstance(instances: OldInstances, sorted: seq<string>, end: nat, t: string, n: nat)
    returns (k: nat)
    requires end <= |sorted| && (forall id | id in sorted :: id in instances) && n < Count(instances, sorted[..end], t)
    ensures k < end && instances[sorted[k]] == t && Count(instances, sorted[..k], t) == n
  {
    assert end > 0;
    CountStep(instances, sorted, end - 1);
    if n < Count(instances, sorted[..end - 1], t) {
      k := NthInstance(instances, sorted, end - 1, t, n);
    } else {
      k := end - 1;
    }
  }

  /** A task with n > 1 instances gets exactly the indices 0 to n - 1; a single instance gets the bare task id. */
  lemma IndicesAreGapless(instances: OldInstances, sorted: seq<string>, t: string, idx: nat)
    requires SortedKeys(instances, sorted)
    ensures var n := |IdsOf(instances, t)|;
            n > 1 ==> (idx < n <==> exists k :: 0 <= k < |sorted| && instances[sorted[k]] == t
                                             && NewId(instances, sorted, k) == BuildInstanceId(t, Some(idx))
                                             && Count(instances, sorted[..k], t) == idx)
  {
    var n := Count(instances, sorted, t);
    assert sorted[..|sorted|] == sorted;
    WholeCount(instances, sorted, t);
    if n > 1 && idx < n {
      var k := NthInstance(instances, sorted, |sorted|, t, idx);
      assert NewId(instances, sorted, k) == BuildInstanceId(t, Some(idx));
    }
    forall k | 0 <= k < |sorted| && instances[sorted[k]] == t ensures Count(instances, sorted[..k], t) < n {
      CountGrows(instances, sorted, k, |sorted|, t);
    }
  }

  // ---- The answers under their new keys ----

  function Renamed(oldToNew: map<string, string>, key: string): string {
    if key in oldToNew then oldToNew[key] else key
  }

  /** Every key of the result comes from an old one; which of two old keys wins is left open. */
  predicate IsRenaming(oldToNew: map<string, string>, answers: map<string, Answer>, r: map<string, Answer>) {
    && (forall key | key in answers :: Renamed(oldToNew, key) in r)
    && (forall key | key in r :: exists k :: k in answers && Renamed(oldToNew, k) == key && r[key] == answers[k])
  }

  method MigrateAnswers(oldToNew: map<string, string>, answers: map<string, Answer>) returns (r: map<string, Answer>)
    ensures IsRenaming(oldToNew, answers, r)
  {
    r := map[];
    var todo := answers.Keys;
    while todo != {}
      invariant todo <= answers.Keys
      invariant forall key | key in answers && key !in todo :: Renamed(oldToNew, key) in r
      invariant forall key | key in r :: exists k :: k in answers && Renamed(oldToNew, k) == key && r[key] == answers[k]
      decreases todo
    {
      var key :| key in todo;
      todo := todo - {key};
      r := r[Renamed(oldToNew, key) := answers[key]];
    }
  }

  /** No answer key that stays as it is equals the new id of another answer's key. */
  predicate NoClash(oldToNew: map<string, string>, answers: map<string, Answer>) {
    forall k, u | k in answers && u in answers && k in oldToNew && u !in oldToNew :: oldToNew[k] != u
  }

  predicate Injective(oldToNew: map<string, string>) {
    forall a, b | a in oldToNew && b in oldToNew && a != b :: oldToNew[a] != oldToNew[b]
  }

  function Image(oldToNew: map<string, string>, keys: set<string>): set<string> {
    set k | k in keys :: Renamed(oldToNew, k)
  }

  lemma {:induction false} ImageSize(oldToNew: map<string, string>, keys: set<string>)
    ensures |Image(oldToNew, keys)| <= |keys|
    ensures (forall a, b | a in keys && b in keys && a != b :: Renamed(oldToNew, a) != Renamed(oldToNew, b)) ==>
              |Image(oldToNew, keys)| == |keys|
    decreases |keys|
  {
    if keys != {} {
      var k :| k in keys;
      var rest := keys - {k};
      ImageSize(oldToNew, rest);
      assert Image(oldToNew, keys) == Image(oldToNew, rest) + {Renamed(oldToNew, k)};
    }
  }

  lemma ClashShrinks(oldToNew: map<string, string>, keys: set<string>, k: string, u: string)
    requires k in keys && u in keys && k != u && Renamed(oldToNew, k) == Renamed(oldToNew, u)
    ensures |Image(oldToNew, keys)| < |keys|
  {
    assert Image(oldToNew, keys) == Image(oldToNew, keys - {u});
    ImageSize(oldToNew, keys - {u});
  }

  /** With injective new ids every answer is kept exactly when no kept key clashes with a new one. */
  lemma AnswersConserved(oldToNew: map<string, string>, answers: map<string, Answer>, r: map<string, Answer>)
    requires Injective(oldToNew) && IsRenaming(oldToNew, answers, r)
    ensures |r| == |answers| <==> NoClash(oldToNew, answers)
    ensures NoClash(oldToNew, answers) ==> forall k | k in answers :: r[Renamed(oldToNew, k)] == answers[k]
  {
    assert r.Keys == Image(oldToNew, answers.Keys);
    assert |r| == |r.Keys| && |answers| == |answers.Keys|;
    if NoClash(oldToNew, answers) {
      assert forall a, b | a in answers && b in answers && a != b :: Renamed(oldToNew, a) != Renamed(oldToNew, b);
      ImageSize(oldToNew, answers.Keys);
    } else {
      var k, u :| k in answers && u in answers && k in oldToNew && u !in oldToNew && oldToNew[k] == u;
      ClashShrinks(oldToNew, answers.Keys, k, u);
    }
  }

  lemma AllDistinct(instances: OldInstances, sorted: seq<string>, oldToNew: map<string, string>)
    requires SortedKeys(instances, sorted) && forall id | id in instances :: CleanTaskId(instances[id])
    requires oldToNew.Keys == instances.Keys
    requires forall k | 0 <= k < |sorted| :: oldToNew[sorted[k]] == NewId(instances, sorted, k)
    ensures Injective(oldToNew)
  {
    forall a, b | a in oldToNew && b in oldToNew && a != b ensures oldToNew[a] != oldToNew[b] {
      var i :| 0 <= i < |sorted| && sorted[i] == a;
      var j :| 0 <= j < |sorted| && sorted[j] == b;
      if i < j {
        NewIdsDistinct(instances, sorted, i, j);
      } else {
        NewIdsDistinct(instances, sorted, j, i);
      }
    }
  }

  lemma AllAreNewIds(instances: OldInstances, sorted: seq<string>, oldToNew: map<string, string>)
    requires SortedKeys(instances, sorted) && oldToNew.Keys == instances.Keys
    requires forall k | 0 <= k < |sorted| :: oldToNew[sorted[k]] == NewId(instances, sorted, k)
    ensures forall id | id in instances :: IsNewId(instances, id, oldToNew[id])
  {
    forall id | id in instances ensures IsNewId(instances, id, oldToNew[id]) {
      var k :| 0 <= k < |sorted| && sorted[k] == id;
      NewIdLaw(instances, sorted, k);
    }
  }

  /** The whole renaming of one namespace. */
  method MigrateKeys(instances: OldInstances, sorted: seq<string>, answers: map<string, Answer>)
    returns (oldToNew: map<string, string>, r: map<string, Answer>)
    requires SortedKeys(instances, sorted) && forall id | id in instances :: CleanTaskId(instances[id])
    ensures oldToNew.Keys == instances.Keys && Injective(oldToNew)
    ensures forall id | id in instances :: IsNewId(instances, id, oldToNew[id])
    ensures |r| == |answers| <==> NoClash(oldToNew, answers)
    ensures NoClash(oldToNew, answers) ==>
              && (forall k | k in answers && k in oldToNew :: oldToNew[k] in r && r[oldToNew[k]] == answers[k])
              && (forall k | k in answers && k !in oldToNew :: k in r && r[k] == answers[k])
  {
    oldToNew := AssignIds(instances, sorted);
    AllDistinct(instances, sorted, oldToNew);
    AllAreNewIds(instances, sorted, oldToNew);
    r := MigrateAnswers(oldToNew, answers);
    AnswersConserved(oldToNew, answers, r);
    assert forall k | k in answers :: Renamed(oldToNew, k) in r;
  }
}
