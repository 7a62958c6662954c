/**
  Between the client's flat state and the server's stored one: what is sent, what is read back,
  and what a save that the server finds no change in does to the content.
 */
module Payloads {
  import opened Wrappers
  import opened InstanceIds
  import opened States
  import opened Edits
  import opened Replay
  import opened DiffReplay
  import opened Schema
  import opened Grouping
  import opened Flattening
  import opened FieldMerge
  import opened ApiClient

  /** The client's answers as entries of a state. */
  function Leaves(answers: map<string, Answer>): (r: map<string, Entry>)
    ensures forall k | k in r :: r[k].Leaf?
  {
    map k | k in answers :: Leaf(answers[k])
  }

  /** What a save sends: the answers, grouped with the instances that exist at the client. */
  ghost predicate IsPayload(tasks: FlatTasks, store: Flat, existing: set<InstanceId>, payload: State)
    requires Linked(tasks)
  {
    IsGrouping(tasks, Leaves(store.answers), existing, payload.answers) && payload.completed == store.completed
  }

  /** What a client makes of the stored state. */
  ghost predicate Reads(stored: State, read: Fetched) {
    && IsFlattening(stored.answers, Leaves(read.flat.answers))
    && read.flat.completed == stored.completed
    && read.hasAnswers == (stored.answers != map[])
  }

  /** Grouping and flattening undo each other on this store. */
  ghost predicate ReadsBack(tasks: FlatTasks, store: Flat, existing: set<InstanceId>)
    requires Linked(tasks)
  {
    Canonical(tasks, Leaves(store.answers)) && PlainAvoidsGroups(tasks, Leaves(store.answers), existing)
  }

  /** The stored state is a payload of this content, and reads back as it. */
  ghost predicate Holds(tasks: FlatTasks, stored: State, content: Flat)
    requires Linked(tasks)
  {
    exists existing :: IsPayload(tasks, content, existing, stored) && ReadsBack(tasks, content, existing)
  }

  lemma SameLeaves(a: map<string, Answer>, b: map<string, Answer>)
    requires Leaves(a) == Leaves(b)
    ensures a == b
  {
    assert a.Keys == Leaves(a).Keys && b.Keys == Leaves(b).Keys;
    forall k | k in a ensures a[k] == b[k] {
      assert Leaves(a)[k] == Leaves(b)[k];
    }
  }

  /** Whoever reads the stored state gets the content. */
  lemma ReadIsContent(tasks: FlatTasks, stored: State, content: Flat, read: Fetched)
    requires Linked(tasks) && Holds(tasks, stored, content) && Reads(stored, read)
    ensures read.flat == content && FetchedOk(read)
  {
    var existing :| IsPayload(tasks, content, existing, stored) && ReadsBack(tasks, content, existing);
    FlattenOfGroup(tasks, Leaves(content.answers), existing, stored.answers, Leaves(read.flat.answers));
    SameLeaves(read.flat.answers, content.answers);
    if read.flat.answers != map[] {
      var k :| k in read.flat.answers;
      assert k in Leaves(read.flat.answers) && Source(stored.answers, k, Leaves(read.flat.answers)[k]);
    }
  }

  /** The content is one of the things that can be read, and the only one. */
  lemma ContentIsRead(tasks: FlatTasks, stored: State, content: Flat)
    requires Linked(tasks) && Holds(tasks, stored, content)
    ensures Reads(stored, Fetched(content, stored.answers != map[]))
  {
    var existing :| IsPayload(tasks, content, existing, stored) && ReadsBack(tasks, content, existing);
    FlatIsFlattening(tasks, Leaves(content.answers), existing, stored.answers);
  }

  lemma OneContent(tasks: FlatTasks, stored: State, a: Flat, b: Flat)
    requires Linked(tasks) && Holds(tasks, stored, a) && Holds(tasks, stored, b)
    ensures a == b
  {
    ContentIsRead(tasks, stored, a);
    ReadIsContent(tasks, stored, b, Fetched(a, stored.answers != map[]));
  }

  // ---- A save without changes ----

  /** The server's comparison finds nothing. */
  ghost predicate NoChange(prev: State, next: State) {
    ListsDiff(prev, next, [])
  }

  lemma NoChangeAt(prev: State, next: State, ch: Change)
    requires NoChange(prev, next)
    ensures !InDiff(prev, next, ch)
  {
    assert ch !in [];
  }

  lemma OpenedHasElement(tasks: FlatTasks, flat: map<string, Entry>, existing: set<InstanceId>, g: map<string, Entry>,
                         p: string)
    requires Linked(tasks) && IsGrouping(tasks, flat, existing, g) && forall x | x in flat :: flat[x].Leaf?
    ensures Opened(tasks, flat, existing, p) <==> exists i: nat :: At(g, p, i).Some?
    ensures Opened(tasks, flat, existing, p) && (forall i: nat :: !HasAnswer(tasks, flat, p, i)) ==>
              exists i: nat :: i != 0 && At(g, p, i).Some?
  {
    if Opened(tasks, flat, existing, p) {
      if exists i: nat :: HasAnswer(tasks, flat, p, i) {
        var i: nat :| HasAnswer(tasks, flat, p, i);
        assert At(g, p, i).Some?;
      } else {
        var i := NonZero(IndicesOf(existing, p));
        assert At(g, p, i).Some?;
      }
    } else {
      assert Get(g, p) == if PlaceOf(tasks, p).AsIs? then Get(flat, p) else None;
    }
  }

  lemma NonZero(s: set<nat>) returns (i: nat)
    requires |s| > 1
    ensures i in s && i != 0
  {
    if forall j | j in s :: j == 0 {
      assert s <= {0};
      SubsetSize(s, {0});
    }
    i :| i in s && i != 0;
  }

  lemma {:induction false} SubsetSize<T>(a: set<T>, b: set<T>)
    requires a <= b
    ensures |a| <= |b|
  {
    if a != {} {
      var x :| x in a;
      SubsetSize(a - {x}, b - {x});
    }
  }

  /** Without changes the same indices are there on both sides, if the flat answers are the same. */
  lemma SameIndices(tasks: FlatTasks, flat: map<string, Entry>, e1: set<InstanceId>, e2: set<InstanceId>, prev: State,
                    next: State,
                    p: string, i: nat)
    requires Linked(tasks) && (forall x | x in flat :: flat[x].Leaf?) && NoChange(prev, next)
    requires IsGrouping(tasks, flat, e1, prev.answers) && IsGrouping(tasks, flat, e2, next.answers)
    ensures At(prev.answers, p, i).Some? <==> At(next.answers, p, i).Some?
  {
    OpenedHasElement(tasks, flat, e1, prev.answers, p);
    OpenedHasElement(tasks, flat, e2, next.answers, p);
    if At(prev.answers, p, i).Some? && At(next.answers, p, i).None? {
      NoChangeAt(prev, next, Remove(p, i, At(prev.answers, p, i).value));
    }
    if At(prev.answers, p, i).None? && At(next.answers, p, i).Some? {
      NoChangeAt(prev, next, Add(p, i, At(next.answers, p, i).value));
      NewGroupIsSeen(tasks, flat, e1, e2, prev, next, p);
    }
  }

  /**
    A group that only the second side has shows in the comparison: without an answer it has an element
    besides element 0.
   */
  lemma NewGroupIsSeen(tasks: FlatTasks, flat: map<string, Entry>, e1: set<InstanceId>, e2: set<InstanceId>,
                       prev: State, next: State,
                       p: string)
    requires Linked(tasks) && (forall x | x in flat :: flat[x].Leaf?) && NoChange(prev, next)
    requires IsGrouping(tasks, flat, e1, prev.answers) && IsGrouping(tasks, flat, e2, next.answers)
    ensures Opened(tasks, flat, e2, p) ==> ElementsAt(prev.answers, p) != []
  {
    OpenedHasElement(tasks, flat, e1, prev.answers, p);
    OpenedHasElement(tasks, flat, e2, next.answers, p);
    if ElementsAt(prev.answers, p) == [] {
      assert !Opened(tasks, flat, e1, p);
      forall i: nat | i != 0 ensures At(next.answers, p, i).None? {
        if At(next.answers, p, i).Some? {
          NoChangeAt(prev, next, Add(p, i, At(next.answers, p, i).value));
        }
      }
    }
  }

  lemma SameElements(tasks: FlatTasks, flat: map<string, Entry>, e1: set<InstanceId>, e2: set<InstanceId>,
                     prev: State, next: State,
                     p: string, i: nat)
    requires Linked(tasks) && (forall x | x in flat :: flat[x].Leaf?) && NoChange(prev, next)
    requires IsGrouping(tasks, flat, e1, prev.answers) && IsGrouping(tasks, flat, e2, next.answers)
    ensures At(prev.answers, p, i) == At(next.answers, p, i)
  {
    SameIndices(tasks, flat, e1, e2, prev, next, p, i);
    if At(prev.answers, p, i).Some? {
      var o, n := At(prev.answers, p, i).value, At(next.answers, p, i).value;
      forall c ensures Get(o, c) == Get(n, c) {
        NoChangeAt(prev, next, SetField(p, c, i, Get(o, c), Get(n, c)));
      }
      SameLookups(o, n);
    }
  }

  lemma SameArrays(a: map<string, Entry>, b: map<string, Entry>, p: string)
    requires IsArray(a, p) && IsArray(b, p) && StrictlySorted(a[p].elements) && StrictlySorted(b[p].elements)
    requires forall i: nat :: At(a, p, i) == At(b, p, i)
    ensures a[p] == b[p]
  {
    forall i: nat ensures FieldsAt(a[p].elements, i) == FieldsAt(b[p].elements, i) {
      assert At(a, p, i) == At(b, p, i);
    }
    SortedExtensional(a[p].elements, b[p].elements);
  }

  lemma SameEntry(tasks: FlatTasks, flat: map<string, Entry>, e1: set<InstanceId>, e2: set<InstanceId>, prev: State,
                  next: State, p: string)
    requires Linked(tasks) && (forall x | x in flat :: flat[x].Leaf?) && NoChange(prev, next)
    requires IsGrouping(tasks, flat, e1, prev.answers) && IsGrouping(tasks, flat, e2, next.answers)
    ensures Get(prev.answers, p) == Get(next.answers, p)
  {
    OpenedHasElement(tasks, flat, e1, prev.answers, p);
    OpenedHasElement(tasks, flat, e2, next.answers, p);
    forall i: nat ensures At(prev.answers, p, i) == At(next.answers, p, i) {
      SameElements(tasks, flat, e1, e2, prev, next, p, i);
    }
    if Opened(tasks, flat, e1, p) {
      SameArrays(prev.answers, next.answers, p);
    }
  }

  /** Two payloads of the same flat answers between which the server finds no change are the same. */
  lemma SameFlatSameState(tasks: FlatTasks, store: Flat, e1: set<InstanceId>, e2: set<InstanceId>, prev: State,
                          next: State)
    requires Linked(tasks) && IsPayload(tasks, store, e1, prev) && IsPayload(tasks, store, e2, next) &&
               NoChange(prev, next)
    ensures prev == next
  {
    forall p ensures Get(prev.answers, p) == Get(next.answers, p) {
      SameEntry(tasks, Leaves(store.answers), e1, e2, prev, next, p);
    }
    SameLookups(prev.answers, next.answers);
  }

  /**
    A payload in which the server finds no change leaves the content as it was exactly when the
    comparison took no lossy branch.
   */
  lemma UnnoticedIff(tasks: FlatTasks, stored: State, content: Flat, store: Flat, existing: set<InstanceId>,
                     payload: State)
    requires Linked(tasks) && Holds(tasks, stored, content) && Normal(stored)
    requires IsPayload(tasks, store, existing, payload) && ReadsBack(tasks, store, existing) && Normal(payload)
    requires NoChange(stored, payload)
    ensures store == content <==> Faithful(stored, payload)
    ensures Faithful(stored, payload) ==> payload == stored
  {
    if Faithful(stored, payload) {
      NoChangesSameState(stored, payload);
      assert Holds(tasks, stored, store);
      OneContent(tasks, stored, store, content);
    }
    if store == content {
      var e1 :| IsPayload(tasks, content, e1, stored) && ReadsBack(tasks, content, e1);
      SameFlatSameState(tasks, content, e1, existing, stored, payload);
      SameStateNoChanges(stored);
    }
  }
}
