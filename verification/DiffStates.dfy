/** Comparing two states field by field, in the loops of diffStates and diffGroupedArrays. */
module DiffStates {
  import opened Wrappers
  import opened InstanceIds
  import opened FieldKeys
  import opened States
  import opened Edits

  method ByIndex(els: seq<Element>) returns (m: map<nat, Fields>)
    ensures forall i: nat :: Get(m, i) == FieldsAt(els, i)
  {
    m := map[];
    for k := 0 to |els|
      invariant forall i: nat :: Get(m, i) == FieldsAt(els[..k], i)
    {
      m := m[els[k].index := els[k].fields];
      assert els[..k + 1][..k] == els[..k];
    }
    assert els[..|els|] == els;
  }

  /** The edits of one element present on both sides. The keys may come in any order. */
  method DiffFields(g: string, i: nat, o: Fields, n: Fields, urn: string, editedBy: string)
    returns (edits: seq<EditRecord>, ghost changes: seq<Change>)
    ensures edits == EncodeAll(urn, editedBy, changes)
    ensures NoDuplicates(changes)
    ensures forall ch :: ch in changes <==> InElementDiff(g, i, Some(o), Some(n), false, ch)
  {
    edits, changes := [], [];
    var todo := o.Keys + n.Keys;
    while todo != {}
      invariant edits == EncodeAll(urn, editedBy, changes)
      invariant NoDuplicates(changes)
      invariant forall ch :: ch in changes <==>
                             InElementDiff(g, i, Some(o), Some(n), false, ch) && ch.child !in todo
      decreases todo
    {
      var c :| c in todo;
      todo := todo - {c};
      var oldVal, newVal := Get(o, c), Get(n, c);
      if oldVal != newVal {
        edits := edits + [EditRecord(FieldId(urn, BuildInstanceId(c, Some(i))), AnswerChange(oldVal, newVal),
                                     editedBy)];
        changes := changes + [SetField(g, c, i, oldVal, newVal)];
      }
    }
  }

  /** The edits of one index of a group: an instance added, an instance removed, or changed fields. */
  method DiffElement(g: string, i: nat, oldEl: Option<Fields>, newEl: Option<Fields>, groupIsNew: bool,
                     urn: string, editedBy: string)
    returns (edits: seq<EditRecord>, ghost changes: seq<Change>)
    ensures edits == EncodeAll(urn, editedBy, changes)
    ensures NoDuplicates(changes)
    ensures forall ch :: ch in changes <==> InElementDiff(g, i, oldEl, newEl, groupIsNew, ch)
  {
    edits, changes := [], [];
    var fieldId := FieldId(urn, BuildInstanceId(g, Some(i)));
    match (oldEl, newEl) {
      case (None, None) =>
      case (None, Some(fields)) =>
        var skipDefault := i == 0 && groupIsNew;
        if !skipDefault {
          edits := [EditRecord(fieldId, InstanceAdded(Bundle(fields)), editedBy)];
          changes := [Add(g, i, fields)];
        }
      case (Some(fields), None) =>
        edits := [EditRecord(fieldId, InstanceRemoved(Bundle(fields)), editedBy)];
        changes := [Remove(g, i, fields)];
      case (Some(o), Some(n)) =>
        edits, changes := DiffFields(g, i, o, n, urn, editedBy);
    }
  }

  lemma AppendListing(urn: string, editedBy: string, a: seq<Change>, b: seq<Change>)
    requires NoDuplicates(a) && NoDuplicates(b)
    requires forall ch | ch in a :: ch !in b
    ensures NoDuplicates(a + b)
    ensures EncodeAll(urn, editedBy, a + b) == EncodeAll(urn, editedBy, a) + EncodeAll(urn, editedBy, b)
  {
    NoDuplicatesConcat(a, b);
  }

  lemma GroupDiffAtIndex(g: string, oldEls: seq<Element>, newEls: seq<Element>, i: nat, chs: seq<Change>)
    requires forall ch :: ch in chs <==>
                          InElementDiff(g, i, FieldsAt(oldEls, i), FieldsAt(newEls, i), oldEls == [], ch)
    ensures forall ch | ch in chs :: InGroupDiff(g, oldEls, newEls, ch) && ch.index == i
    ensures forall ch | InGroupDiff(g, oldEls, newEls, ch) && ch.index == i :: ch in chs
  {
  }

  method DiffGroupedArrays(oldEls: seq<Element>, newEls: seq<Element>, parentKey: string,
                           urn: string, editedBy: string)
    returns (edits: seq<EditRecord>, ghost changes: seq<Change>)
    ensures RecordsGroupDiff(parentKey, oldEls, newEls, urn, editedBy, edits)
    ensures edits == EncodeAll(urn, editedBy, changes) && ListsGroupDiff(parentKey, oldEls, newEls, changes)
  {
    var oldByIndex := ByIndex(oldEls);
    var newByIndex := ByIndex(newEls);
    edits, changes := [], [];
    var todo := oldByIndex.Keys + newByIndex.Keys;
    while todo != {}
      invariant edits == EncodeAll(urn, editedBy, changes)
      invariant NoDuplicates(changes)
      invariant forall ch | ch in changes :: InGroupDiff(parentKey, oldEls, newEls, ch) && ch.index !in todo
      invariant forall ch | InGroupDiff(parentKey, oldEls, newEls, ch) && ch.index !in todo :: ch in changes
      decreases todo
    {
      var idx: nat :| idx in todo;
      todo := todo - {idx};
      var es, chs := DiffElement(parentKey, idx, Get(oldByIndex, idx), Get(newByIndex, idx), oldEls == [], urn,
                                 editedBy);
      GroupDiffAtIndex(parentKey, oldEls, newEls, idx, chs);
      AppendListing(urn, editedBy, changes, chs);
      edits := edits + es;
      changes := changes + chs;
    }
  }

  /** The edits of one answer key: child by child when either side is a group, else the value itself. */
  method DiffKey(prev: map<string, Entry>, next: map<string, Entry>, key: string, urn: string, editedBy: string)
    returns (edits: seq<EditRecord>, ghost changes: seq<Change>)
    ensures edits == EncodeAll(urn, editedBy, changes)
    ensures NoDuplicates(changes)
    ensures forall ch :: ch in changes <==> InAnswerDiff(prev, next, ch) && KeyOf(ch) == key
  {
    edits, changes := [], [];
    if Grouped(prev, key) || Grouped(next, key) {
      edits, changes := DiffGroupedArrays(ElementsAt(prev, key), ElementsAt(next, key), key, urn, editedBy);
    } else if Get(prev, key) != Get(next, key) {
      var before, after := Get(prev, key), Get(next, key);
      edits := [EditRecord(FieldId(urn, key), AnswerChange(before, after), editedBy)];
      changes := [SetPlain(key, before, after)];
    }
  }

  method DiffStates(prev: State, next: State, urn: string, editedBy: string)
    returns (edits: seq<EditRecord>, ghost changes: seq<Change>)
    ensures forall e :: e in edits <==> RecordOf(prev, next, urn, editedBy, e)
    ensures RecordsDiff(prev, next, urn, editedBy, edits)
    ensures edits == EncodeAll(urn, editedBy, changes) && ListsDiff(prev, next, changes)
  {
    edits, changes := [], [];
    var todo := prev.answers.Keys + next.answers.Keys;
    while todo != {}
      invariant edits == EncodeAll(urn, editedBy, changes)
      invariant NoDuplicates(changes)
      invariant forall ch | ch in changes :: InAnswerDiff(prev.answers, next.answers, ch) && KeyOf(ch) !in todo
      invariant forall ch | InAnswerDiff(prev.answers, next.answers, ch) && KeyOf(ch) !in todo :: ch in changes
      decreases todo
    {
      var key :| key in todo;
      todo := todo - {key};
      var es, chs := DiffKey(prev.answers, next.answers, key, urn, editedBy);
      AppendListing(urn, editedBy, changes, chs);
      edits := edits + es;
      changes := changes + chs;
    }
    var es, chs := DiffCompleted(prev.completed, next.completed, true, urn, editedBy);
    AppendListing(urn, editedBy, changes, chs);
    edits := edits + es;
    changes := changes + chs;
    es, chs := DiffCompleted(next.completed, prev.completed, false, urn, editedBy);
    AppendListing(urn, editedBy, changes, chs);
    edits := edits + es;
    changes := changes + chs;
    RecordsAreExact(prev, next, urn, editedBy, changes);
  }

  /** The tasks in `to` and not in `from`, recorded as marked `done`. */
  method DiffCompleted(from: set<string>, to: set<string>, done: bool, urn: string, editedBy: string)
    returns (edits: seq<EditRecord>, ghost changes: seq<Change>)
    ensures edits == EncodeAll(urn, editedBy, changes)
    ensures NoDuplicates(changes)
    ensures forall ch :: ch in changes <==> ch.Mark? && ch.done == done && ch.task in to && ch.task !in from
  {
    edits, changes := [], [];
    var todo := to;
    while todo != {}
      invariant todo <= to
      invariant edits == EncodeAll(urn, editedBy, changes)
      invariant NoDuplicates(changes)
      invariant forall ch :: ch in changes <==>
                             ch.Mark? && ch.done == done && ch.task in to && ch.task !in from && ch.task !in todo
      decreases todo
    {
      var id :| id in todo;
      todo := todo - {id};
      if id !in from {
        edits := edits + [EditRecord(FieldId(urn, COMPLETED + id), SectionComplete(!done, done), editedBy)];
        changes := changes + [Mark(id, done)];
      }
    }
  }
}
