/**
  What the records of one save say of the state before it. Read through its field id, a record tells
  the old and the new value of its place; and replaying the records with old and new exchanged takes
  the new state back to the old one, up to two losses.
 */
module Undo {
  import opened Wrappers
  import opened InstanceIds
  import opened FieldKeys
  import opened States
  import opened Edits
  import opened Replay
  import opened ElementViews
  import opened DiffReplay
  import DiffStates

  // ---- Reading a record ----

  /** The value of field c in element i of the group that c is a direct child of. */
  function FieldValue(s: State, g: string, i: nat, c: string): Option<Entry> {
    match FieldsAt(ElementsAt(s.answers, g), i)
    case None => None
    case Some(f) => Get(f, c)
  }

  /** What a record under answer key `key` says of the two states, kind by kind. */
  ghost predicate Tells(prev: State, next: State, key: string, kind: EditKind) {
    var id := ParseInstanceId(key);
    match kind
    case AnswerChange(before, after) =>
      && before != after
      && (id.index.None? ==> before == Get(prev.answers, key) && after == Get(next.answers, key))
      && (id.index.Some? ==>
            exists g | DirectChild(id.taskId, g) ::
              && before == FieldValue(prev, g, id.index.value, id.taskId)
              && after == FieldValue(next, g, id.index.value, id.taskId))
    case InstanceAdded(after) =>
      && id.index.Some?
      && FieldsAt(ElementsAt(prev.answers, id.taskId), id.index.value) == None
      && FieldsAt(ElementsAt(next.answers, id.taskId), id.index.value) == Some(after.GetOr(map[]))
    case InstanceRemoved(before) =>
      && id.index.Some?
      && FieldsAt(ElementsAt(prev.answers, id.taskId), id.index.value) == Some(before.GetOr(map[]))
      && FieldsAt(ElementsAt(next.answers, id.taskId), id.index.value) == None
    case SectionComplete(before, after) =>
      && before != after
      && exists t | key == "completed." + t ::
           before == (t in prev.completed) && after == (t in next.completed)
    case InitialState(_) => false
    case LegacyInstanceEdit => false
  }

  lemma PlainTells(prev: State, next: State, ch: Change)
    requires ch.SetPlain? && CleanTaskId(ch.key) && InPlainDiff(prev.answers, next.answers, ch)
    ensures Tells(prev, next, ch.key, AnswerChange(ch.before, ch.after))
  {
    ParseOfBuild(ch.key, None);
  }

  lemma FieldTells(prev: State, next: State, g: string, i: nat, c: string, o: Fields, n: Fields)
    requires FieldsAt(ElementsAt(prev.answers, g), i) == Some(o) && FieldsAt(ElementsAt(next.answers, g), i) == Some(n)
    requires CleanTaskId(c) && DirectChild(c, g) && Get(o, c) != Get(n, c)
    ensures Tells(prev, next, BuildInstanceId(c, Some(i)), AnswerChange(Get(o, c), Get(n, c)))
  {
    ParseOfBuild(c, Some(i));
    assert Get(o, c) == FieldValue(prev, g, i, c) && Get(n, c) == FieldValue(next, g, i, c);
  }

  lemma InstanceTells(prev: State, next: State, ch: Change)
    requires (ch.Add? || ch.Remove?) && CleanTaskId(ch.group)
    requires InElementDiff(ch.group, ch.index, FieldsAt(ElementsAt(prev.answers, ch.group), ch.index),
                           FieldsAt(ElementsAt(next.answers, ch.group), ch.index), false, ch)
    ensures Tells(prev, next, BuildInstanceId(ch.group, Some(ch.index)), Kind(ch))
  {
    ParseOfBuild(ch.group, Some(ch.index));
  }

  lemma MarkTells(prev: State, next: State, ch: Change)
    requires InMarkDiff(prev.completed, next.completed, ch)
    ensures Tells(prev, next, COMPLETED + ch.task, Kind(ch))
  {
    assert COMPLETED + ch.task == "completed." + ch.task;
  }

  lemma ChangeTells(prev: State, next: State, ch: Change)
    requires Normal(prev) && Normal(next) && InDiff(prev, next, ch)
    ensures Tells(prev, next, Edits.Target(ch), Kind(ch))
  {
    DiffIsClean(prev, next, ch);
    match ch {
      case SetPlain(_, _, _) => PlainTells(prev, next, ch);
      case SetField(g, c, i, _, _) =>
        ChangedFieldIsChild(prev, next, ch);
        FieldTells(prev, next, g, i, c, FieldsAt(ElementsAt(prev.answers, g), i).value,
                   FieldsAt(ElementsAt(next.answers, g), i).value);
      case Add(_, _, _) => InstanceTells(prev, next, ch);
      case Remove(_, _, _) => InstanceTells(prev, next, ch);
      case Mark(_, _) => MarkTells(prev, next, ch);
    }
  }

  /** Every record of a save names its editor, has a field id that reads back, and tells both values of its place. */
  lemma RecordsTell(prev: State, next: State, urn: string, editedBy: string, edits: seq<EditRecord>)
    requires Normal(prev) && Normal(next) && VersionedUrn(urn) && RecordsDiff(prev, next, urn, editedBy, edits)
    ensures forall e | e in edits ::
              && e.editedBy == editedBy
              && EditKey(e.fieldId).Some?
              && Tells(prev, next, EditKey(e.fieldId).value, e.kind)
  {
    var chs :| ListsDiff(prev, next, chs) && edits == EncodeAll(urn, editedBy, chs);
    forall e | e in edits
      ensures e.editedBy == editedBy && EditKey(e.fieldId).Some?
      ensures Tells(prev, next, EditKey(e.fieldId).value, e.kind) {
      var i :| 0 <= i < |edits| && edits[i] == e;
      assert chs[i] in chs;
      DiffIsClean(prev, next, chs[i]);
      DecodeTarget(urn, chs[i]);
      ChangeTells(prev, next, chs[i]);
    }
  }

  // ---- Exchanging old and new ----

  function ExchangedKind(kind: EditKind): EditKind {
    match kind
    case AnswerChange(before, after) => AnswerChange(after, before)
    case SectionComplete(before, after) => SectionComplete(after, before)
    case InstanceAdded(fields) => InstanceRemoved(fields)
    case InstanceRemoved(fields) => InstanceAdded(fields)
    case InitialState(_) => kind
    case LegacyInstanceEdit => kind
  }

  function Exchanged(e: EditRecord): EditRecord {
    e.(kind := ExchangedKind(e.kind))
  }

  function AllExchanged(edits: seq<EditRecord>): (r: seq<EditRecord>)
    ensures |r| == |edits|
    ensures forall i | 0 <= i < |edits| :: r[i] == Exchanged(edits[i])
  {
    seq(|edits|, i requires 0 <= i < |edits| => Exchanged(edits[i]))
  }

  /** The same on changes. */
  function Back(ch: Change): (r: Change)
    ensures Edits.Target(r) == Edits.Target(ch)
  {
    match ch
    case SetPlain(k, b, a) => SetPlain(k, a, b)
    case SetField(g, c, i, b, a) => SetField(g, c, i, a, b)
    case Add(g, i, f) => Remove(g, i, f)
    case Remove(g, i, f) => Add(g, i, f)
    case Mark(t, d) => Mark(t, !d)
  }

  function AllBack(chs: seq<Change>): (r: seq<Change>)
    ensures |r| == |chs|
    ensures forall i | 0 <= i < |chs| :: r[i] == Back(chs[i])
  {
    seq(|chs|, i requires 0 <= i < |chs| => Back(chs[i]))
  }

  lemma ExchangeOne(urn: string, editedBy: string, ch: Change)
    ensures Exchanged(Encode(urn, editedBy, ch)) == Encode(urn, editedBy, Back(ch))
  {
    assert ExchangedKind(Kind(ch)) == Kind(Back(ch));
  }

  lemma ExchangeEncoded(urn: string, editedBy: string, chs: seq<Change>)
    ensures AllExchanged(EncodeAll(urn, editedBy, chs)) == EncodeAll(urn, editedBy, AllBack(chs))
  {
    var there, back := AllExchanged(EncodeAll(urn, editedBy, chs)), EncodeAll(urn, editedBy, AllBack(chs));
    forall i | 0 <= i < |chs| ensures there[i] == back[i] {
      ExchangeOne(urn, editedBy, chs[i]);
    }
  }

  lemma BackTwice(ch: Change)
    ensures Back(Back(ch)) == ch
  {
  }

  lemma BackIsWhole(prev: State, next: State, ch: Change)
    requires InDiff(prev, next, ch)
    ensures InWholeDiff(next, prev, Back(ch))
  {
  }

  /** The exchanged changes are distinct, and are the backs of the diff. */
  lemma BackOfListing(prev: State, next: State, chs: seq<Change>)
    requires ListsDiff(prev, next, chs)
    ensures NoDuplicates(AllBack(chs))
    ensures forall ch :: ch in AllBack(chs) <==> InDiff(prev, next, Back(ch))
  {
    var backs := AllBack(chs);
    forall i, j | 0 <= i < j < |backs| ensures backs[i] != backs[j] {
      BackTwice(chs[i]);
      BackTwice(chs[j]);
    }
    forall ch ensures ch in backs <==> InDiff(prev, next, Back(ch)) {
      BackTwice(ch);
      if ch in backs {
        var i :| 0 <= i < |backs| && backs[i] == ch;
        BackTwice(chs[i]);
        assert chs[i] in chs;
      }
      if InDiff(prev, next, Back(ch)) {
        assert Back(ch) in chs;
        var i :| 0 <= i < |chs| && chs[i] == Back(ch);
        assert backs[i] == ch;
      }
    }
  }

  // ---- What undoing gives ----

  /**
    The entry at k after undoing on `next`: the old one, except that a group that was not there before
    keeps its element 0, which no record mentions, and that it does not give way to a plain answer.
   */
  function UndoneAt(prev: map<string, Entry>, next: map<string, Entry>, k: string): Option<Entry> {
    if IsArray(next, k) && !IsArray(prev, k) then
      match FieldsAt(next[k].elements, 0)
      case None => None
      case Some(f) => Some(Group([Element(0, f)]))
    else
      Get(prev, k)
  }

  function Undone(prev: State, next: State): State {
    State(map k | k in prev.answers.Keys + next.answers.Keys && UndoneAt(prev.answers, next.answers, k).Some?
              :: UndoneAt(prev.answers, next.answers, k).value,
          prev.completed)
  }

  /** The guard of the two losses: a group that appears has no element 0, and replaces no plain answer. */
  predicate Undoable(prev: State, next: State) {
    forall k | k in next.answers && IsArray(next.answers, k) && !IsArray(prev.answers, k) ::
      FieldsAt(next.answers[k].elements, 0).None? && k !in prev.answers
  }

  lemma UndoneLookup(prev: State, next: State, k: string)
    ensures Get(Undone(prev, next).answers, k) == UndoneAt(prev.answers, next.answers, k)
  {
  }

  lemma UndoneIsShaped(prev: State, next: State)
    requires Normal(prev) && Normal(next)
    ensures Shaped(Undone(prev, next).answers)
  {
    var r := Undone(prev, next).answers;
    forall k | k in r && r[k].Group? ensures r[k].elements != [] && StrictlySorted(r[k].elements) {
      UndoneLookup(prev, next, k);
    }
  }

  /** A group that disappeared comes back: all of its elements were recorded as removed. */
  lemma GroupComesBack(prev: State, next: State, done: set<Change>, k: string)
    requires Normal(prev) && !Grouped(next.answers, k)
    requires forall ch :: ch in done <==> InDiff(prev, next, Back(ch))
    ensures AnyAdded(done, k) <==> Grouped(prev.answers, k)
  {
    if Grouped(prev.answers, k) {
      var els := prev.answers[k].elements;
      NonEmptyHasIndex(els);
      var i := els[|els| - 1].index;
      var ch := Add(k, i, FieldsAt(els, i).value);
      assert ch in done <==> InDiff(prev, next, Back(ch));
      assert ch in done;
    }
    if AnyAdded(done, k) {
      var i, f :| Add(k, i, f) in done;
      assert InDiff(prev, next, Back(Add(k, i, f)));
    }
  }

  lemma UndonePlain(prev: State, next: State, done: set<Change>, k: string)
    requires Normal(prev) && Normal(next)
    requires forall ch :: ch in done <==> InDiff(prev, next, Back(ch))
    ensures MixPlain(next, prev, done, k) == PlainAt(Undone(prev, next).answers, k)
  {
    NormalIsShaped(prev);
    NormalIsShaped(next);
    UndoneLookup(prev, next, k);
    if !Grouped(next.answers, k) {
      if Grouped(prev.answers, k) {
        GroupComesBack(prev, next, done, k);
      } else {
        var ch := SetPlain(k, PlainAt(next.answers, k), PlainAt(prev.answers, k));
        assert ch in done <==> InDiff(prev, next, Back(ch));
      }
    }
  }

  lemma UndoneElementAt(prev: State, next: State, g: string, i: nat)
    requires Normal(prev) && Normal(next)
    ensures At(Undone(prev, next).answers, g, i)
         == if Grouped(next.answers, g) && !Grouped(prev.answers, g)
            then if i == 0 then At(next.answers, g, 0) else None
            else At(prev.answers, g, i)
  {
    NormalIsShaped(prev);
    NormalIsShaped(next);
    UndoneLookup(prev, next, g);
    if IsArray(next.answers, g) && !IsArray(prev.answers, g) && FieldsAt(next.answers[g].elements, 0).Some? {
      var one := [Element(0, FieldsAt(next.answers[g].elements, 0).value)];
      assert ElementsAt(Undone(prev, next).answers, g) == one;
      assert one[..|one| - 1] == [];
      assert FieldsAt(one, i) == if i == 0 then FieldsAt(next.answers[g].elements, 0) else None;
    }
  }

  lemma AllFieldsBack(prev: State, next: State, done: set<Change>, g: string, i: nat, actual: Fields)
    requires At(prev.answers, g, i).Some? && At(next.answers, g, i).Some?
    requires forall ch :: ch in done <==> InDiff(prev, next, Back(ch))
    requires MixesAt(next, prev, done, g, i, Some(actual))
    ensures actual == At(prev.answers, g, i).value
  {
    var o, n := At(prev.answers, g, i).value, At(next.answers, g, i).value;
    forall c ensures Get(actual, c) == Get(o, c) {
      var ch := SetField(g, c, i, Get(n, c), Get(o, c));
      assert ch in done <==> InDiff(prev, next, Back(ch));
    }
    SameLookups(actual, o);
  }

  /** An element that appeared was recorded, and goes again, unless it is element 0 of a new group. */
  lemma AddedGoes(prev: State, next: State, done: set<Change>, g: string, i: nat, f: Fields)
    requires At(prev.answers, g, i).None? && At(next.answers, g, i) == Some(f)
    requires forall ch :: ch in done <==> InDiff(prev, next, Back(ch))
    ensures Remove(g, i, f) in done <==> i != 0 || Grouped(prev.answers, g)
  {
    var ch := Remove(g, i, f);
    assert Back(ch) == Add(g, i, f);
    assert ch in done <==> InDiff(prev, next, Back(ch));
  }

  lemma RemovedComesBack(prev: State, next: State, done: set<Change>, g: string, i: nat, f: Fields)
    requires At(prev.answers, g, i) == Some(f) && At(next.answers, g, i).None?
    requires forall ch :: ch in done <==> InDiff(prev, next, Back(ch))
    ensures Add(g, i, f) in done
  {
    var ch := Add(g, i, f);
    assert Back(ch) == Remove(g, i, f);
    assert ch in done <==> InDiff(prev, next, Back(ch));
  }

  lemma UndoneElement(prev: State, next: State, done: set<Change>, g: string, i: nat, actual: Option<Fields>)
    requires Normal(prev) && Normal(next)
    requires forall ch :: ch in done <==> InDiff(prev, next, Back(ch))
    requires MixesAt(next, prev, done, g, i, actual)
    ensures actual == At(Undone(prev, next).answers, g, i)
  {
    UndoneElementAt(prev, next, g, i);
    match (At(prev.answers, g, i), At(next.answers, g, i))
    case (None, None) =>
    case (None, Some(f)) =>
      AddedGoes(prev, next, done, g, i, f);
    case (Some(f), None) =>
      RemovedComesBack(prev, next, done, g, i, f);
    case (Some(o), Some(n)) =>
      AllFieldsBack(prev, next, done, g, i, actual.value);
  }

  lemma MarksBack(prev: State, next: State, done: set<Change>, completed: set<string>)
    requires forall ch :: ch in done <==> InDiff(prev, next, Back(ch))
    requires MixedMarks(next, prev, done, completed)
    ensures completed == prev.completed
  {
    forall t ensures t in completed <==> t in prev.completed {
      assert Mark(t, true) in done <==> InDiff(prev, next, Back(Mark(t, true)));
      assert Mark(t, false) in done <==> InDiff(prev, next, Back(Mark(t, false)));
    }
  }

  lemma BacksGiveUndone(prev: State, next: State, chs: seq<Change>)
    requires Normal(prev) && Normal(next) && NoDuplicates(chs)
    requires forall ch :: ch in chs <==> InDiff(prev, next, Back(ch))
    ensures ApplyAll(next, chs) == Undone(prev, next)
  {
    forall ch | ch in chs ensures InWholeDiff(next, prev, ch) {
      BackTwice(ch);
      BackIsWhole(prev, next, Back(ch));
    }
    RunIsMixed(next, prev, chs);
    var done, s, r := Elems(chs), ApplyAll(next, chs), Undone(prev, next);
    MarksBack(prev, next, done, s.completed);
    UndoneIsShaped(prev, next);
    forall k ensures PlainAt(s.answers, k) == PlainAt(r.answers, k) {
      UndonePlain(prev, next, done, k);
    }
    forall g, i: nat ensures At(s.answers, g, i) == At(r.answers, g, i) {
      UndoneElement(prev, next, done, g, i, At(s.answers, g, i));
    }
    SameViews(s.answers, r.answers);
  }

  lemma UndoneIsOldIff(prev: State, next: State)
    requires Normal(prev) && Normal(next)
    ensures Undone(prev, next) == prev <==> Undoable(prev, next)
  {
    var r := Undone(prev, next);
    if Undoable(prev, next) {
      forall k ensures Get(r.answers, k) == Get(prev.answers, k) {
        UndoneLookup(prev, next, k);
      }
      SameLookups(r.answers, prev.answers);
    }
    if r == prev {
      forall k | k in next.answers && IsArray(next.answers, k) && !IsArray(prev.answers, k)
        ensures FieldsAt(next.answers[k].elements, 0).None? && k !in prev.answers {
        UndoneLookup(prev, next, k);
      }
    }
  }

  /** A listing of the exchanged records, in any order, is the encoding of a listing of the changes back. */
  lemma UndoneRecords(prev: State, next: State, urn: string, editedBy: string, edits: seq<EditRecord>,
                      back: seq<EditRecord>) returns (chs: seq<Change>)
    requires RecordsDiff(prev, next, urn, editedBy, edits)
    requires multiset(back) == multiset(AllExchanged(edits))
    ensures back == EncodeAll(urn, editedBy, chs) && NoDuplicates(chs)
    ensures forall ch :: ch in chs <==> InDiff(prev, next, Back(ch))
  {
    var forth :| ListsDiff(prev, next, forth) && edits == EncodeAll(urn, editedBy, forth);
    ExchangeEncoded(urn, editedBy, forth);
    BackOfListing(prev, next, forth);
    chs := ReorderImages(back, EncodeAll(urn, editedBy, AllBack(forth)), AllBack(forth));
    ReorderedDistinct(AllBack(forth), chs);
  }

  /**
    The undo law. Replaying the records of a save with old and new exchanged, in any order, takes the
    new state back to the old one if and only if no group appears with an element 0 or over a plain
    answer; otherwise it loses exactly that.
   */
  lemma UndoLaw(prev: State, next: State, urn: string, editedBy: string, edits: seq<EditRecord>,
                back: seq<EditRecord>)
    requires Normal(prev) && Normal(next) && VersionedUrn(urn) && RecordsDiff(prev, next, urn, editedBy, edits)
    requires multiset(back) == multiset(AllExchanged(edits))
    ensures ReplayAll(next, back) == Undone(prev, next)
    ensures ReplayAll(next, back) == prev <==> Undoable(prev, next)
  {
    var chs := UndoneRecords(prev, next, urn, editedBy, edits, back);
    forall ch | ch in chs ensures CleanChange(ch) {
      DiffIsClean(prev, next, Back(ch));
    }
    ReplayEncoded(next, urn, editedBy, chs);
    BacksGiveUndone(prev, next, chs);
    UndoneIsOldIff(prev, next);
  }

  /** A save and its undoing: what is recorded, and exactly when taking it back gives the old state. */
  method SaveAndUndo(prev: State, next: State, urn: string, editedBy: string)
    returns (edits: seq<EditRecord>, undone: State)
    requires Normal(prev) && Normal(next) && VersionedUrn(urn)
    ensures forall e :: e in edits <==> RecordOf(prev, next, urn, editedBy, e)
    ensures undone == prev <==> Undoable(prev, next)
  {
    ghost var chs;
    edits, chs := DiffStates.DiffStates(prev, next, urn, editedBy);
    var start := [EditRecord("__initial__", InitialState(next), editedBy)];
    undone := RebuildState(start + AllExchanged(edits));
    ReplayConcat(State(map[], {}), start, AllExchanged(edits));
    assert start[..0] == [] && ReplayAll(State(map[], {}), start) == next;
    UndoLaw(prev, next, urn, editedBy, edits, AllExchanged(edits));
  }
}
