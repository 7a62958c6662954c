/** The rows of the edit log and the changes they encode. */
module Edits {
  import opened Wrappers
  import opened InstanceIds
  import opened FieldKeys
  import opened States

  datatype EditKind =
    | InitialState(state: State)
    | AnswerChange(oldValue: Option<Entry>, newValue: Option<Entry>)
    | SectionComplete(wasDone: bool, isDone: bool)
    | InstanceAdded(added: Option<Fields>)
    | InstanceRemoved(removed: Option<Fields>)
    | LegacyInstanceEdit

  datatype EditRecord = EditRecord(fieldId: string, kind: EditKind, editedBy: string)

  /** A change of a state, before it is written as an edit record. */
  datatype Change =
    | SetPlain(key: string, before: Option<Entry>, after: Option<Entry>)
    | SetField(group: string, child: string, index: nat, before: Option<Entry>, after: Option<Entry>)
    | Add(group: string, index: nat, fields: Fields)
    | Remove(group: string, index: nat, fields: Fields)
    | Mark(task: string, done: bool)

  /** Child values of an added or removed instance; an instance without any is recorded as null. */
  function Bundle(fields: Fields): Option<Fields> {
    if |fields| > 0 then Some(fields) else None
  }

  const COMPLETED := "completed."

  /** The instance id a change is recorded under. */
  function Target(ch: Change): string {
    match ch
    case SetPlain(k, _, _) => k
    case SetField(_, c, i, _, _) => BuildInstanceId(c, Some(i))
    case Add(g, i, _) => BuildInstanceId(g, Some(i))
    case Remove(g, i, _) => BuildInstanceId(g, Some(i))
    case Mark(t, _) => COMPLETED + t
  }

  function Kind(ch: Change): EditKind {
    match ch
    case SetPlain(_, b, a) => AnswerChange(b, a)
    case SetField(_, _, _, b, a) => AnswerChange(b, a)
    case Add(_, _, f) => InstanceAdded(Bundle(f))
    case Remove(_, _, f) => InstanceRemoved(Bundle(f))
    case Mark(_, d) => SectionComplete(!d, d)
  }

  function Encode(urn: string, editedBy: string, ch: Change): EditRecord {
    EditRecord(FieldId(urn, Target(ch)), Kind(ch), editedBy)
  }

  function EncodeAll(urn: string, editedBy: string, chs: seq<Change>): (r: seq<EditRecord>)
    ensures |r| == |chs|
    ensures forall i | 0 <= i < |chs| :: r[i] == Encode(urn, editedBy, chs[i])
  {
    seq(|chs|, i requires 0 <= i < |chs| => Encode(urn, editedBy, chs[i]))
  }

  // ---- What two states differ in ----

  /** The change of one index of a group, from the elements before (o) and after (n). */
  predicate InElementDiff(g: string, i: nat, o: Option<Fields>, n: Option<Fields>, groupIsNew: bool, ch: Change) {
    match (o, n)
    case (None, None) => false
    case (None, Some(f)) => ch == Add(g, i, f) && !(i == 0 && groupIsNew)
    case (Some(f), None) => ch == Remove(g, i, f)
    case (Some(f), Some(h)) =>
      && ch.SetField?
      && ch == SetField(g, ch.child, i, Get(f, ch.child), Get(h, ch.child))
      && Get(f, ch.child) != Get(h, ch.child)
  }

  predicate InGroupDiff(g: string, oldEls: seq<Element>, newEls: seq<Element>, ch: Change) {
    && (ch.SetField? || ch.Add? || ch.Remove?)
    && ch.group == g
    && InElementDiff(g, ch.index, FieldsAt(oldEls, ch.index), FieldsAt(newEls, ch.index), oldEls == [], ch)
  }

  predicate InPlainDiff(prev: map<string, Entry>, next: map<string, Entry>, ch: Change) {
    && ch.SetPlain?
    && !Grouped(prev, ch.key) && !Grouped(next, ch.key)
    && ch.before == Get(prev, ch.key) && ch.after == Get(next, ch.key)
    && ch.before != ch.after
  }

  predicate InMarkDiff(prev: set<string>, next: set<string>, ch: Change) {
    && ch.Mark?
    && (ch.task in next <==> ch.done)
    && (ch.task in prev <==> !ch.done)
  }

  predicate InAnswerDiff(prev: map<string, Entry>, next: map<string, Entry>, ch: Change) {
    || InPlainDiff(prev, next, ch)
    || ((ch.SetField? || ch.Add? || ch.Remove?) &&
        InGroupDiff(ch.group, ElementsAt(prev, ch.group), ElementsAt(next, ch.group), ch))
  }

  /** The same without the exception for element 0 of a new group. */
  predicate InWholeAnswerDiff(prev: map<string, Entry>, next: map<string, Entry>, ch: Change) {
    || InPlainDiff(prev, next, ch)
    || ((ch.SetField? || ch.Add? || ch.Remove?) &&
        InElementDiff(ch.group, ch.index, FieldsAt(ElementsAt(prev, ch.group), ch.index),
                      FieldsAt(ElementsAt(next, ch.group), ch.index), false, ch))
  }

  predicate InWholeDiff(prev: State, next: State, ch: Change) {
    InWholeAnswerDiff(prev.answers, next.answers, ch) || InMarkDiff(prev.completed, next.completed, ch)
  }

  /** The answer key a change belongs to. */
  function KeyOf(ch: Change): string {
    match ch
    case SetPlain(k, _, _) => k
    case SetField(g, _, _, _, _) => g
    case Add(g, _, _) => g
    case Remove(g, _, _) => g
    case Mark(t, _) => t
  }

  /** The changes from one state to the next, one per differing location. */
  predicate InDiff(prev: State, next: State, ch: Change) {
    InAnswerDiff(prev.answers, next.answers, ch) || InMarkDiff(prev.completed, next.completed, ch)
  }

  /** A listing, in some order, of all changes between two states. */
  ghost predicate ListsDiff(prev: State, next: State, chs: seq<Change>) {
    NoDuplicates(chs) && forall ch :: ch in chs <==> InDiff(prev, next, ch)
  }

  /** The records encode exactly the changes between the states, each once, in some order. */
  ghost predicate RecordsDiff(prev: State, next: State, urn: string, editedBy: string, edits: seq<EditRecord>) {
    exists chs :: ListsDiff(prev, next, chs) && edits == EncodeAll(urn, editedBy, chs)
  }

  /** The same for the arrays of one group. */
  ghost predicate RecordsGroupDiff(g: string, oldEls: seq<Element>, newEls: seq<Element>, urn: string, editedBy: string,
                                   edits: seq<EditRecord>) {
    exists chs :: ListsGroupDiff(g, oldEls, newEls, chs) && edits == EncodeAll(urn, editedBy, chs)
  }

  ghost predicate ListsGroupDiff(g: string, oldEls: seq<Element>, newEls: seq<Element>, chs: seq<Change>) {
    NoDuplicates(chs) && forall ch :: ch in chs <==> InGroupDiff(g, oldEls, newEls, ch)
  }

  // ---- What each record says of the two states ----

  /** The record of a plain answer that differs. */
  predicate PlainRecord(prev: State, next: State, urn: string, editedBy: string, k: string, e: EditRecord) {
    && !Grouped(prev.answers, k) && !Grouped(next.answers, k)
    && Get(prev.answers, k) != Get(next.answers, k)
    && e == EditRecord(FieldId(urn, k), AnswerChange(Get(prev.answers, k), Get(next.answers, k)), editedBy)
  }

  /** The record of a field that differs in an element that both states have. */
  predicate FieldRecord(prev: State, next: State, urn: string, editedBy: string, g: string, i: nat, c: string,
                        e: EditRecord) {
    var o, n := FieldsAt(ElementsAt(prev.answers, g), i), FieldsAt(ElementsAt(next.answers, g), i);
    && o.Some? && n.Some?
    && Get(o.value, c) != Get(n.value, c)
    && e == EditRecord(FieldId(urn, BuildInstanceId(c, Some(i))), AnswerChange(Get(o.value, c), Get(n.value, c)),
                       editedBy)
  }

  /** The record of an element that only one state has; element 0 of a group that was not there has none. */
  predicate InstanceRecord(prev: State, next: State, urn: string, editedBy: string, g: string, i: nat, e: EditRecord) {
    && e.fieldId == FieldId(urn, BuildInstanceId(g, Some(i))) && e.editedBy == editedBy
    && match (FieldsAt(ElementsAt(prev.answers, g), i), FieldsAt(ElementsAt(next.answers, g), i))
       case (None, Some(f)) =>
         && (i != 0 || Grouped(prev.answers, g))
         && e.kind == InstanceAdded(if f == map[] then None else Some(f))
       case (Some(f), None) => e.kind == InstanceRemoved(if f == map[] then None else Some(f))
       case _ => false
  }

  /** The record of a task that is marked in one of the states only. */
  predicate MarkRecord(prev: State, next: State, urn: string, editedBy: string, t: string, e: EditRecord) {
    && (t in prev.completed) != (t in next.completed)
    && e == EditRecord(FieldId(urn, "completed." + t), SectionComplete(t in prev.completed, t in next.completed),
                       editedBy)
  }

  /** A record of some place in which the states differ, with what each of them holds there. */
  ghost predicate RecordOf(prev: State, next: State, urn: string, editedBy: string, e: EditRecord) {
    || (exists k :: PlainRecord(prev, next, urn, editedBy, k, e))
    || (exists g, i: nat, c :: FieldRecord(prev, next, urn, editedBy, g, i, c, e))
    || (exists g, i: nat :: InstanceRecord(prev, next, urn, editedBy, g, i, e))
    || (exists t :: MarkRecord(prev, next, urn, editedBy, t, e))
  }

  /** Which place the record of a change is about. */
  lemma ChangeIsRecorded(prev: State, next: State, urn: string, editedBy: string, ch: Change)
    requires InDiff(prev, next, ch)
    ensures RecordOf(prev, next, urn, editedBy, Encode(urn, editedBy, ch))
  {
    var e := Encode(urn, editedBy, ch);
    match ch
    case SetPlain(k, _, _) => assert PlainRecord(prev, next, urn, editedBy, k, e);
    case SetField(g, c, i, _, _) => assert FieldRecord(prev, next, urn, editedBy, g, i, c, e);
    case Add(g, i, _) => assert InstanceRecord(prev, next, urn, editedBy, g, i, e);
    case Remove(g, i, _) => assert InstanceRecord(prev, next, urn, editedBy, g, i, e);
    case Mark(t, _) => assert MarkRecord(prev, next, urn, editedBy, t, e);
  }

  lemma PlainIsChange(prev: State, next: State, urn: string, editedBy: string, k: string, e: EditRecord)
    returns (ch: Change)
    requires PlainRecord(prev, next, urn, editedBy, k, e)
    ensures InDiff(prev, next, ch) && e == Encode(urn, editedBy, ch)
  {
    ch := SetPlain(k, Get(prev.answers, k), Get(next.answers, k));
  }

  lemma FieldIsChange(prev: State, next: State, urn: string, editedBy: string, g: string, i: nat, c: string,
                      e: EditRecord) returns (ch: Change)
    requires FieldRecord(prev, next, urn, editedBy, g, i, c, e)
    ensures InDiff(prev, next, ch) && e == Encode(urn, editedBy, ch)
  {
    var o, n := FieldsAt(ElementsAt(prev.answers, g), i), FieldsAt(ElementsAt(next.answers, g), i);
    ch := SetField(g, c, i, Get(o.value, c), Get(n.value, c));
  }

  lemma InstanceIsChange(prev: State, next: State, urn: string, editedBy: string, g: string, i: nat, e: EditRecord)
    returns (ch: Change)
    requires InstanceRecord(prev, next, urn, editedBy, g, i, e)
    ensures InDiff(prev, next, ch) && e == Encode(urn, editedBy, ch)
  {
    var o, n := FieldsAt(ElementsAt(prev.answers, g), i), FieldsAt(ElementsAt(next.answers, g), i);
    ch := if o.None? then Add(g, i, n.value) else Remove(g, i, o.value);
  }

  lemma MarkIsChange(prev: State, next: State, urn: string, editedBy: string, t: string, e: EditRecord)
    returns (ch: Change)
    requires MarkRecord(prev, next, urn, editedBy, t, e)
    ensures InDiff(prev, next, ch) && e == Encode(urn, editedBy, ch)
  {
    ch := Mark(t, t in next.completed);
  }

  lemma RecordIsOfChange(prev: State, next: State, urn: string, editedBy: string, e: EditRecord) returns (ch: Change)
    requires RecordOf(prev, next, urn, editedBy, e)
    ensures InDiff(prev, next, ch) && e == Encode(urn, editedBy, ch)
  {
    if k :| PlainRecord(prev, next, urn, editedBy, k, e) {
      ch := PlainIsChange(prev, next, urn, editedBy, k, e);
    } else if g, i: nat, c :| FieldRecord(prev, next, urn, editedBy, g, i, c, e) {
      ch := FieldIsChange(prev, next, urn, editedBy, g, i, c, e);
    } else if g, i: nat :| InstanceRecord(prev, next, urn, editedBy, g, i, e) {
      ch := InstanceIsChange(prev, next, urn, editedBy, g, i, e);
    } else {
      var t :| MarkRecord(prev, next, urn, editedBy, t, e);
      ch := MarkIsChange(prev, next, urn, editedBy, t, e);
    }
  }

  /** The encoded diff has a record for each place in which the states differ, and no other. */
  lemma RecordsAreExact(prev: State, next: State, urn: string, editedBy: string, chs: seq<Change>)
    requires ListsDiff(prev, next, chs)
    ensures forall e :: e in EncodeAll(urn, editedBy, chs) <==> RecordOf(prev, next, urn, editedBy, e)
  {
    var edits := EncodeAll(urn, editedBy, chs);
    forall e ensures e in edits <==> RecordOf(prev, next, urn, editedBy, e) {
      if e in edits {
        var i :| 0 <= i < |edits| && edits[i] == e;
        assert chs[i] in chs;
        ChangeIsRecorded(prev, next, urn, editedBy, chs[i]);
      }
      if RecordOf(prev, next, urn, editedBy, e) {
        var ch := RecordIsOfChange(prev, next, urn, editedBy, e);
        assert ch in chs;
        var i :| 0 <= i < |chs| && chs[i] == ch;
        assert edits[i] == e;
      }
    }
  }
}
