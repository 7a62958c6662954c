/**
  Forests that only outermost repeatables have been added to and removed from: what holds of them
  over every series of such actions.
 */
module OutermostRuns {
  import opened Wrappers
  import opened InstanceIds
  import opened Schema
  import opened Forest
  import opened Growth
  import opened Removal
  import opened TaskStore

  /** Only instances of outermost repeatables start a group of their own. */
  ghost predicate GroupsShared(d: Defs, f: Instances)
    requires DefsOk(d)
  {
    forall x {:trigger StartsGroup(f, x)} | StartsGroup(f, x) :: x.taskId in d.tasks && Outermost(d, x.taskId)
  }

  /**
    Parents and children name each other, nothing is listed twice, every child of a repeatable
    instance has its index, and groups are shared below every outermost repeatable.
   */
  ghost predicate Tidy(d: Defs, f: Instances)
    requires DefsOk(d)
  {
    Sound(d, f) && AllComplete(d, f) && Spine(d, f) && NoneAdded(d, f) && GroupsShared(d, f)
  }

  /** Below t nothing was added on its own. */
  predicate NoneAddedBelow(d: Defs, f: Instances, t: string)
    requires DefsOk(d)
  {
    forall x {:trigger HasParentIndex(d, f, x)} | x in f && x.taskId in d.tasks && BelowTask(d, x.taskId, t) ::
      HasParentIndex(d, f, x)
  }

  /** Nothing that will be made with an unused index of an outermost repeatable is there. */
  lemma {:induction false} FreshIsFree(d: Defs, f: Instances, id: InstanceId, x: InstanceId)
    requires DefsOk(d) && Sound(d, f) && id !in f && x in f
    requires id.taskId in d.tasks && Outermost(d, id.taskId) && NoneAddedBelow(d, f, id.taskId)
    ensures !WillBeMade(d, f, id, x)
    decreases Height(d, x)
  {
    assert NodeOk(d, f, x);
    if WillBeMade(d, f, id, x) && x.taskId != id.taskId {
      assert HasParentIndex(d, f, x);
      if HandedDown(d, x.taskId) {
        FreshIsFree(d, f, id, f[x].parent.value);
      } else {
        BelowTaskDepth(d, x.taskId, id.taskId);
        IdxHas(f, x.taskId, NextIndex(f, x.taskId));
      }
    }
  }

  /** After init. */
  lemma InitialTidy(d: Defs, f: Instances)
    requires DefsOk(d) && Initial(d, f)
    ensures Tidy(d, f)
  {
    forall x | x in f ensures HasParentIndex(d, f, x) {
      assert NodeOk(d, f, x);
    }
    forall t | t in d.tasks && t !in d.under ensures InstanceId(t, None) in f {
      assert InstanceId(t, None) == DefaultId(d, t);
    }
  }

  lemma PlantedNoneAdded(d: Defs, f: Instances, g: Instances, id: InstanceId, parent: Option<InstanceId>,
                         made: set<InstanceId>)
    requires DefsOk(d) && id.taskId in d.tasks && Outermost(d, id.taskId) && NoneAdded(d, f)
    requires Planted(d, f, g, id, parent, made)
    ensures NoneAdded(d, g)
  {
    var n := |d.tasks[id.taskId].childrenIds|;
    forall x | x in g ensures HasParentIndex(d, g, x) {
      if x in made {
        assert MadeNode(d, f, g, id, made, n, x);
      } else {
        assert HasParentIndex(d, f, x);
      }
    }
  }

  lemma PlantedGroups(d: Defs, f: Instances, g: Instances, id: InstanceId, parent: Option<InstanceId>,
                      made: set<InstanceId>)
    requires DefsOk(d) && id.taskId in d.tasks && Outermost(d, id.taskId) && GroupsShared(d, f) && Sound(d, f)
    requires Planted(d, f, g, id, parent, made) && made !! f.Keys
    ensures GroupsShared(d, g)
  {
    forall x | StartsGroup(g, x) ensures x.taskId in d.tasks && Outermost(d, x.taskId) {
      if x in made {
        if x != id {
          MadeInGroup(d, f, g, id, parent, made, x);
        }
      } else {
        assert NodeOk(d, f, x);
        assert StartsGroup(f, x);
      }
    }
  }

  /** Adding an outermost repeatable at an unused index, below the instance of its parent task. */
  lemma AddTidy(d: Defs, f: Instances, g: Instances, id: InstanceId, parent: Option<InstanceId>, made: set<InstanceId>)
    requires DefsOk(d) && Tidy(d, f) && ParentFits(d, id, parent) && Outermost(d, id.taskId) && id !in f
    requires parent.Some? ==> parent.value in f
    requires Planted(d, f, g, id, parent, made)
    ensures Tidy(d, g)
  {
    forall x | x in f ensures !WillBeMade(d, f, id, x) {
      FreshIsFree(d, f, id, x);
    }
    FreeIffDisjoint(d, f, g, id, parent, made);
    AddKeepsValid(d, f, g, id, parent, made);
    PlantedNoneAdded(d, f, g, id, parent, made);
    PlantedGroups(d, f, g, id, parent, made);
  }

  /** Removing an instance of an indexed task that its parent can do without. */
  lemma RemoveTidy(d: Defs, f: Instances, x: InstanceId)
    requires DefsOk(d) && LinksOk(d, f) && Tidy(d, f) && x in f && x.taskId in d.under && !Fixed(d, x.taskId)
    ensures Tidy(d, Prune(f, ReachSet(d, f, x)))
  {
    var g := Prune(f, ReachSet(d, f, x));
    RemoveKeepsValid(d, f, x);
    forall y | y in g ensures HasParentIndex(d, g, y) {
      assert HasParentIndex(d, f, y);
    }
    forall y | StartsGroup(g, y) ensures y.taskId in d.tasks && Outermost(d, y.taskId) {
      assert StartsGroup(f, y);
    }
  }

  /** In a tidy forest everything below an outermost repeatable shares its group. */
  lemma {:induction false} OneGroup(d: Defs, f: Instances, x: InstanceId, a: InstanceId)
    requires DefsOk(d) && Tidy(d, f) && Below(d, f, x, a) && a.taskId in d.tasks && Outermost(d, a.taskId)
    ensures a in f && f[x].groupId == f[a].groupId
    decreases Height(d, x)
  {
    if x != a {
      assert NodeOk(d, f, x);
      var p := f[x].parent.value;
      OneGroup(d, f, p, a);
      SoundLinks(d, f);
      BelowIsReach(d, f, x, a);
      ReachIn(d, f, x, a);
      if StartsGroup(f, x) {
        OutermostApart(d, x.taskId, a.taskId);
      }
    }
  }

  /** An addition of an outermost repeatable at an unused index, or a removal of one. */
  datatype Action = AddAt(id: InstanceId, parent: Option<InstanceId>, made: set<InstanceId>) | RemoveAt(x: InstanceId)

  ghost predicate Acts(d: Defs, f: Instances, a: Action, g: Instances)
    requires DefsOk(d)
  {
    match a
    case AddAt(id, parent, made) =>
      && ParentFits(d, id, parent) && Outermost(d, id.taskId) && id !in f && (parent.Some? ==> parent.value in f)
      && Planted(d, f, g, id, parent, made)
    case RemoveAt(x) =>
      && LinksOk(d, f) && x in f && x.taskId in d.tasks && Outermost(d, x.taskId)
      && g == Prune(f, ReachSet(d, f, x))
  }

  ghost predicate ActsAt(d: Defs, states: seq<Instances>, actions: seq<Action>, k: nat)
    requires DefsOk(d) && k < |actions| && k + 1 < |states|
  {
    Acts(d, states[k], actions[k], states[k + 1])
  }

  ghost predicate ActionRun(d: Defs, states: seq<Instances>, actions: seq<Action>)
    requires DefsOk(d)
  {
    && |states| == |actions| + 1
    && forall k {:trigger ActsAt(d, states, actions, k)} | 0 <= k < |actions| :: ActsAt(d, states, actions, k)
  }

  lemma ActTidy(d: Defs, f: Instances, a: Action, g: Instances)
    requires DefsOk(d) && Tidy(d, f) && Acts(d, f, a, g)
    ensures Tidy(d, g)
  {
    match a
    case AddAt(id, parent, made) => AddTidy(d, f, g, id, parent, made);
    case RemoveAt(x) => RemoveTidy(d, f, x);
  }

  lemma TidyNext(d: Defs, states: seq<Instances>, actions: seq<Action>, k: nat)
    requires DefsOk(d) && ActionRun(d, states, actions) && k < |actions| && Tidy(d, states[k])
    ensures Tidy(d, states[k + 1])
  {
    assert ActsAt(d, states, actions, k);
    ActTidy(d, states[k], actions[k], states[k + 1]);
  }

  /** The forest invariant: a tidy forest, like that of init, stays tidy over every such run. */
  lemma {:induction false} AlwaysTidy(d: Defs, states: seq<Instances>, actions: seq<Action>, k: nat)
    requires DefsOk(d) && ActionRun(d, states, actions) && k < |states| && Tidy(d, states[0])
    ensures Tidy(d, states[k])
  {
    if k > 0 {
      AlwaysTidy(d, states, actions, k - 1);
      TidyNext(d, states, actions, k - 1);
    }
  }
}
