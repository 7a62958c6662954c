/**
  Replaying the edits of a diff. After any part of the edits has been applied, in any order,
  the state is the mix of the two states in which exactly the applied locations are new.
 */
module DiffReplay {
  import opened Wrappers
  import opened InstanceIds
  import opened FieldKeys
  import opened States
  import opened Edits
  import opened Replay
  import opened ElementViews
  import DiffStates

  // ---- Changes as operations on states ----

  function Apply(s: State, ch: Change): State {
    match ch
    case SetPlain(k, _, a) => s.(answers := SetAnswer(s.answers, k, a))
    case SetField(_, c, i, _, a) => s.(answers := SetAnswer(s.answers, BuildInstanceId(c, Some(i)), a))
    case Add(g, i, f) => s.(answers := AddElement(s.answers, g, i, Bundle(f)))
    case Remove(g, i, _) => s.(answers := RemoveElement(s.answers, g, i))
    case Mark(t, d) => s.(completed := if d then s.completed + {t} else s.completed - {t})
  }

  function ApplyAll(s: State, chs: seq<Change>): State {
    if chs == [] then s else Apply(ApplyAll(s, chs[..|chs| - 1]), chs[|chs| - 1])
  }

  predicate CleanChange(ch: Change) {
    match ch
    case SetPlain(k, _, _) => CleanTaskId(k)
    case SetField(g, c, _, _, _) => CleanTaskId(c)
    case Add(g, _, _) => CleanTaskId(g)
    case Remove(g, _, _) => CleanTaskId(g)
    case Mark(t, _) => CleanTaskId(t)
  }

  lemma CompletedIsClean(t: string)
    requires CleanTaskId(t)
    ensures CleanTaskId(COMPLETED + t)
    ensures (COMPLETED + t)[|COMPLETED|..] == t && COMPLETED <= COMPLETED + t
  {
  }

  lemma DecodeTarget(urn: string, ch: Change)
    requires VersionedUrn(urn) && CleanChange(ch)
    ensures EditKey(FieldId(urn, Target(ch))) == Some(Target(ch))
  {
    match ch
    case SetPlain(k, _, _) => FieldIdOfInstance(urn, k, None);
    case SetField(_, c, i, _, _) => FieldIdOfInstance(urn, c, Some(i));
    case Add(g, i, _) => FieldIdOfInstance(urn, g, Some(i));
    case Remove(g, i, _) => FieldIdOfInstance(urn, g, Some(i));
    case Mark(t, _) => CompletedIsClean(t); FieldIdOfInstance(urn, COMPLETED + t, None);
  }

  lemma ApplyAnswerDecoded(s: State, e: EditRecord, ch: Change)
    requires CleanChange(ch) && (ch.SetPlain? || ch.SetField?)
    requires EditKey(e.fieldId) == Some(Target(ch)) && e.kind == Kind(ch)
    ensures ApplyEdit(s, e) == Apply(s, ch)
  {
  }

  lemma ApplyInstanceDecoded(s: State, e: EditRecord, ch: Change)
    requires CleanChange(ch) && (ch.Add? || ch.Remove?)
    requires EditKey(e.fieldId) == Some(Target(ch)) && e.kind == Kind(ch)
    ensures ApplyEdit(s, e) == Apply(s, ch)
  {
    ParseOfBuild(ch.group, Some(ch.index));
  }

  lemma ApplyMarkDecoded(s: State, e: EditRecord, ch: Change)
    requires CleanChange(ch) && ch.Mark?
    requires EditKey(e.fieldId) == Some(Target(ch)) && e.kind == Kind(ch)
    ensures ApplyEdit(s, e) == Apply(s, ch)
  {
    CompletedIsClean(ch.task);
  }

  lemma ApplyDecoded(s: State, e: EditRecord, ch: Change)
    requires CleanChange(ch)
    requires EditKey(e.fieldId) == Some(Target(ch)) && e.kind == Kind(ch)
    ensures ApplyEdit(s, e) == Apply(s, ch)
  {
    if ch.Mark? {
      ApplyMarkDecoded(s, e, ch);
    } else if ch.Add? || ch.Remove? {
      ApplyInstanceDecoded(s, e, ch);
    } else {
      ApplyAnswerDecoded(s, e, ch);
    }
  }

  /** Replaying the record of a change is the change itself. */
  lemma ApplyEncoded(s: State, urn: string, editedBy: string, ch: Change)
    requires VersionedUrn(urn) && CleanChange(ch)
    ensures ApplyEdit(s, Encode(urn, editedBy, ch)) == Apply(s, ch)
  {
    DecodeTarget(urn, ch);
    ApplyDecoded(s, Encode(urn, editedBy, ch), ch);
  }

  lemma {:induction false} ReplayEncoded(s: State, urn: string, editedBy: string, chs: seq<Change>)
    requires VersionedUrn(urn) && forall ch | ch in chs :: CleanChange(ch)
    ensures ReplayAll(s, EncodeAll(urn, editedBy, chs)) == ApplyAll(s, chs)
  {
    if chs != [] {
      var front := chs[..|chs| - 1];
      ReplayEncoded(s, urn, editedBy, front);
      var es := EncodeAll(urn, editedBy, chs);
      assert es[..|es| - 1] == EncodeAll(urn, editedBy, front);
      ApplyEncoded(ApplyAll(s, front), urn, editedBy, chs[|chs| - 1]);
    }
  }

  // ---- The mix of two states ----

  function PlainAt(answers: map<string, Entry>, k: string): Option<Entry> {
    if k in answers && answers[k].Leaf? then Some(answers[k]) else None
  }

  function At(answers: map<string, Entry>, g: string, i: nat): Option<Fields> {
    FieldsAt(ElementsAt(answers, g), i)
  }

  ghost predicate AnyAdded(done: set<Change>, g: string) {
    exists i, f :: Add(g, i, f) in done
  }

  /** The plain value at k once the changes in `done` have been applied. */
  ghost function MixPlain(prev: State, next: State, done: set<Change>, k: string): Option<Entry> {
    var p, n := PlainAt(prev.answers, k), PlainAt(next.answers, k);
    if Grouped(prev.answers, k) then None
    else if Grouped(next.answers, k) then if AnyAdded(done, k) then None else p
    else if SetPlain(k, p, n) in done then n else p
  }

  function MixField(o: Fields, n: Fields, done: set<Change>, g: string, i: nat, c: string): Option<Entry> {
    if SetField(g, c, i, Get(o, c), Get(n, c)) in done then Get(n, c) else Get(o, c)
  }

  /** The element with index i of group g once the changes in `done` have been applied. */
  ghost predicate MixesAt(prev: State, next: State, done: set<Change>, g: string, i: nat, actual: Option<Fields>) {
    match (At(prev.answers, g, i), At(next.answers, g, i))
    case (None, None) => actual == None
    case (None, Some(f)) => actual == if Add(g, i, f) in done then Some(f) else None
    case (Some(f), None) => actual == if Remove(g, i, f) in done then None else Some(f)
    case (Some(o), Some(n)) =>
      actual.Some? && forall c :: Get(actual.value, c) == MixField(o, n, done, g, i, c)
  }

  predicate Shaped(answers: map<string, Entry>) {
    forall k | k in answers && answers[k].Group? :: answers[k].elements != [] && StrictlySorted(answers[k].elements)
  }

  ghost predicate MixedAnswers(prev: State, next: State, done: set<Change>, answers: map<string, Entry>) {
    && Shaped(answers)
    && (forall k :: PlainAt(answers, k) == MixPlain(prev, next, done, k))
    && (forall g, i: nat :: MixesAt(prev, next, done, g, i, At(answers, g, i)))
  }

  ghost predicate MixedMarks(prev: State, next: State, done: set<Change>, completed: set<string>) {
    forall t :: t in completed <==> Mark(t, true) in done || (t in prev.completed && Mark(t, false) !in done)
  }

  ghost predicate Mixed(prev: State, next: State, done: set<Change>, s: State) {
    MixedAnswers(prev, next, done, s.answers) && MixedMarks(prev, next, done, s.completed)
  }

  lemma MixedInitially(prev: State, next: State)
    requires Normal(prev) && Normal(next)
    ensures Mixed(prev, next, {}, prev)
  {
    forall k ensures PlainAt(prev.answers, k) == MixPlain(prev, next, {}, k) {
    }
    forall g, i: nat ensures MixesAt(prev, next, {}, g, i, At(prev.answers, g, i)) {
    }
  }

  lemma ArrayHasElement(answers: map<string, Entry>, g: string)
    requires Shaped(answers)
    ensures IsArray(answers, g) <==> exists i: nat :: At(answers, g, i).Some?
  {
    if IsArray(answers, g) {
      NonEmptyHasIndex(answers[g].elements);
      assert At(answers, g, answers[g].elements[|answers[g].elements| - 1].index).Some?;
    }
  }

  lemma NotGroupedNoElement(answers: map<string, Entry>, g: string)
    requires !Grouped(answers, g)
    ensures forall i: nat :: At(answers, g, i).None?
  {
  }

  lemma {:induction false} NormalFieldsAt(g: string, els: seq<Element>, i: nat)
    requires forall k | 0 <= k < |els| :: NormalFields(g, els[k].fields)
    ensures FieldsAt(els, i).Some? ==> NormalFields(g, FieldsAt(els, i).value)
  {
    if els != [] {
      NormalFieldsAt(g, els[..|els| - 1], i);
    }
  }

  // ---- One step, by kind of change ----

  lemma StepPlainTo(prev: State, next: State, done: set<Change>, answers: map<string, Entry>, ch: Change,
                    r: map<string, Entry>)
    requires MixedAnswers(prev, next, done, answers)
    requires InPlainDiff(prev.answers, next.answers, ch)
    requires ch.before == PlainAt(prev.answers, ch.key) && ch.after == PlainAt(next.answers, ch.key)
    requires !IsArray(answers, ch.key)
    requires forall j :: Get(r, j) == if j == ch.key then ch.after else Get(answers, j)
    ensures MixedAnswers(prev, next, done + {ch}, r)
  {
    forall j ensures PlainAt(r, j) == MixPlain(prev, next, done + {ch}, j) {
      assert PlainAt(answers, j) == MixPlain(prev, next, done, j);
      assert AnyAdded(done, j) == AnyAdded(done + {ch}, j);
      assert Get(r, j) == if j == ch.key then ch.after else Get(answers, j);
    }
    forall k | k in r && r[k].Group? ensures r[k].elements != [] && StrictlySorted(r[k].elements) {
      assert Get(r, k) == if k == ch.key then Get(next.answers, k) else Get(answers, k);
    }
    forall g, i: nat ensures MixesAt(prev, next, done + {ch}, g, i, At(r, g, i)) {
      assert MixesAt(prev, next, done, g, i, At(answers, g, i));
      assert Get(r, g) == if g == ch.key then ch.after else Get(answers, g);
    }
  }

  lemma StepPlain(prev: State, next: State, done: set<Change>, answers: map<string, Entry>, ch: Change)
    requires Normal(prev) && Normal(next)
    requires MixedAnswers(prev, next, done, answers)
    requires InPlainDiff(prev.answers, next.answers, ch)
    ensures MixedAnswers(prev, next, done + {ch}, SetAnswer(answers, ch.key, ch.after))
  {
    NotGroupedNoElement(prev.answers, ch.key);
    NotGroupedNoElement(next.answers, ch.key);
    assert forall i: nat :: MixesAt(prev, next, done, ch.key, i, At(answers, ch.key, i));
    ArrayHasElement(answers, ch.key);
    CleanHasNoBracket(ch.key);
    StepPlainTo(prev, next, done, answers, ch, Put(answers, ch.key, ch.after));
  }

  /** What a change of one group leaves alone. */
  lemma OtherKeysKept(prev: State, next: State, done: set<Change>, answers: map<string, Entry>, ch: Change,
                      g: string, r: map<string, Entry>)
    requires MixedAnswers(prev, next, done, answers)
    requires (ch.SetField? || ch.Add? || ch.Remove?) && ch.group == g
    requires forall k | k != g :: Get(r, k) == Get(answers, k)
    ensures forall k | k != g && k in r && r[k].Group? :: r[k].elements != [] && StrictlySorted(r[k].elements)
    ensures forall k | k != g :: PlainAt(r, k) == MixPlain(prev, next, done + {ch}, k)
    ensures forall k, i: nat | k != g :: MixesAt(prev, next, done + {ch}, k, i, At(r, k, i))
  {
    forall k | k != g ensures PlainAt(r, k) == MixPlain(prev, next, done + {ch}, k) {
      assert PlainAt(answers, k) == MixPlain(prev, next, done, k);
      assert AnyAdded(done, k) == AnyAdded(done + {ch}, k);
      assert Get(r, k) == Get(answers, k);
    }
    forall k, i: nat | k != g ensures MixesAt(prev, next, done + {ch}, k, i, At(r, k, i)) {
      assert Get(r, k) == Get(answers, k);
      assert MixesAt(prev, next, done, k, i, At(answers, k, i));
    }
    forall k | k != g && k in r && r[k].Group? ensures r[k].elements != [] && StrictlySorted(r[k].elements) {
      assert Get(r, k) == Get(answers, k);
    }
  }

  lemma OtherIndexKept(prev: State, next: State, done: set<Change>, ch: Change, i: nat, actual: Option<Fields>)
    requires (ch.SetField? || ch.Add? || ch.Remove?) && ch.index != i
    requires MixesAt(prev, next, done, ch.group, i, actual)
    ensures MixesAt(prev, next, done + {ch}, ch.group, i, actual)
  {
  }

  /** Where an answer change of a child of a group ends up. */
  lemma SetAnswerOfChild(answers: map<string, Entry>, g: string, c: string, i: nat, v: Option<Entry>)
    requires CleanTaskId(c) && DirectChild(c, g) && IsArray(answers, g)
    ensures SetAnswer(answers, BuildInstanceId(c, Some(i)), v)
         == answers[g := Group(SetInElements(answers[g].elements, i, c, v))]
  {
    ParseOfBuild(c, Some(i));
    NearestGroupOfChild(answers, c, g, |c|);
  }

  lemma ChangedFieldIsChild(prev: State, next: State, ch: Change)
    requires Normal(prev) && Normal(next)
    requires ch.SetField? && InWholeAnswerDiff(prev.answers, next.answers, ch)
    ensures CleanTaskId(ch.child) && DirectChild(ch.child, ch.group)
  {
    NormalFieldsAt(ch.group, ElementsAt(prev.answers, ch.group), ch.index);
    NormalFieldsAt(ch.group, ElementsAt(next.answers, ch.group), ch.index);
  }

  lemma StepField(prev: State, next: State, done: set<Change>, answers: map<string, Entry>, ch: Change)
    requires Normal(prev) && Normal(next)
    requires MixedAnswers(prev, next, done, answers)
    requires ch.SetField? && InWholeAnswerDiff(prev.answers, next.answers, ch)
    ensures MixedAnswers(prev, next, done + {ch},
                         SetAnswer(answers, BuildInstanceId(ch.child, Some(ch.index)), ch.after))
  {
    ChangedFieldIsChild(prev, next, ch);
    assert MixesAt(prev, next, done, ch.group, ch.index, At(answers, ch.group, ch.index));
    SetAnswerOfChild(answers, ch.group, ch.child, ch.index, ch.after);
    StepFieldInGroup(prev, next, done, answers, ch);
  }

  /** A change of one element of one group, from what it does at that element. */
  lemma GroupStep(prev: State, next: State, done: set<Change>, answers: map<string, Entry>, ch: Change,
                  r: map<string, Entry>)
    requires MixedAnswers(prev, next, done, answers)
    requires (ch.SetField? || ch.Add? || ch.Remove?)
    requires forall k | k != ch.group :: Get(r, k) == Get(answers, k)
    requires IsArray(r, ch.group) ==> r[ch.group].elements != [] && StrictlySorted(r[ch.group].elements)
    requires PlainAt(r, ch.group) == MixPlain(prev, next, done + {ch}, ch.group)
    requires forall j: nat | j != ch.index :: At(r, ch.group, j) == At(answers, ch.group, j)
    requires MixesAt(prev, next, done + {ch}, ch.group, ch.index, At(r, ch.group, ch.index))
    ensures MixedAnswers(prev, next, done + {ch}, r)
  {
    OtherKeysKept(prev, next, done, answers, ch, ch.group, r);
    forall j: nat ensures MixesAt(prev, next, done + {ch}, ch.group, j, At(r, ch.group, j)) {
      if j != ch.index {
        assert MixesAt(prev, next, done, ch.group, j, At(answers, ch.group, j));
        OtherIndexKept(prev, next, done, ch, j, At(answers, ch.group, j));
      }
    }
  }

  lemma StepFieldInGroup(prev: State, next: State, done: set<Change>, answers: map<string, Entry>, ch: Change)
    requires MixedAnswers(prev, next, done, answers)
    requires ch.SetField? && InWholeAnswerDiff(prev.answers, next.answers, ch)
    requires IsArray(answers, ch.group)
    ensures MixedAnswers(prev, next, done + {ch},
                         answers[ch.group := Group(SetInElements(answers[ch.group].elements, ch.index, ch.child,
                                                                 ch.after))])
  {
    var g, i := ch.group, ch.index;
    var els := answers[g].elements;
    assert MixesAt(prev, next, done, g, i, At(answers, g, i));
    SetInElementsView(els, i, ch.child, ch.after);
    FieldStep(At(prev.answers, g, i).value, At(next.answers, g, i).value, done, ch, At(answers, g, i).value);
    assert Grouped(prev.answers, g);
    GroupStep(prev, next, done, answers, ch, answers[g := Group(SetInElements(els, i, ch.child, ch.after))]);
  }

  lemma FieldStep(o: Fields, n: Fields, done: set<Change>, ch: Change, f: Fields)
    requires ch.SetField? && ch == SetField(ch.group, ch.child, ch.index, Get(o, ch.child), Get(n, ch.child))
    requires forall c :: Get(f, c) == MixField(o, n, done, ch.group, ch.index, c)
    ensures forall c :: Get(Put(f, ch.child, ch.after), c) == MixField(o, n, done + {ch}, ch.group, ch.index, c)
  {
  }

  /** r is `answers` with an element put into group g. */
  ghost predicate WithElement(answers: map<string, Entry>, g: string, i: nat, f: Fields, r: map<string, Entry>) {
    && IsArray(r, g) && r[g].elements != [] && StrictlySorted(r[g].elements)
    && (forall k | k != g :: Get(r, k) == Get(answers, k))
    && (forall j: nat :: At(r, g, j) == if j == i then Some(f) else At(answers, g, j))
  }

  lemma WithElements(answers: map<string, Entry>, g: string, i: nat, f: Fields, els: seq<Element>)
    requires StrictlySorted(els) && els != []
    requires forall j: nat :: FieldsAt(els, j) == if j == i then Some(f) else At(answers, g, j)
    ensures WithElement(answers, g, i, f, answers[g := Group(els)])
  {
  }

  lemma AddElementView(answers: map<string, Entry>, g: string, i: nat, f: Fields)
    requires At(answers, g, i).None? && StrictlySorted(ElementsAt(answers, g))
    ensures WithElement(answers, g, i, f, AddElement(answers, g, i, Bundle(f)))
  {
    var els := ElementsAt(answers, g);
    FieldsAtNone(els, i);
    assert Bundle(f).GetOr(map[]) == f;
    PushSortView(els, Element(i, f));
    WithElements(answers, g, i, f, SortByIndex(els + [Element(i, f)]));
  }

  lemma StepAddTo(prev: State, next: State, done: set<Change>, answers: map<string, Entry>, ch: Change,
                  r: map<string, Entry>)
    requires MixedAnswers(prev, next, done, answers)
    requires ch.Add? && InWholeAnswerDiff(prev.answers, next.answers, ch)
    requires WithElement(answers, ch.group, ch.index, ch.fields, r)
    ensures MixedAnswers(prev, next, done + {ch}, r)
  {
    assert Grouped(next.answers, ch.group);
    assert ch in done + {ch};
    assert Add(ch.group, ch.index, ch.fields) == ch;
    GroupStep(prev, next, done, answers, ch, r);
  }

  lemma StepAdd(prev: State, next: State, done: set<Change>, answers: map<string, Entry>, ch: Change)
    requires MixedAnswers(prev, next, done, answers)
    requires ch.Add? && InWholeAnswerDiff(prev.answers, next.answers, ch) && ch !in done
    ensures MixedAnswers(prev, next, done + {ch}, AddElement(answers, ch.group, ch.index, Bundle(ch.fields)))
  {
    assert MixesAt(prev, next, done, ch.group, ch.index, At(answers, ch.group, ch.index));
    AddElementView(answers, ch.group, ch.index, ch.fields);
    StepAddTo(prev, next, done, answers, ch, AddElement(answers, ch.group, ch.index, Bundle(ch.fields)));
  }

  lemma StepRemove(prev: State, next: State, done: set<Change>, answers: map<string, Entry>, ch: Change)
    requires MixedAnswers(prev, next, done, answers)
    requires ch.Remove? && InWholeAnswerDiff(prev.answers, next.answers, ch) && ch !in done
    ensures MixedAnswers(prev, next, done + {ch}, RemoveElement(answers, ch.group, ch.index))
  {
    var g, i := ch.group, ch.index;
    assert MixesAt(prev, next, done, g, i, At(answers, g, i));
    var els := answers[g].elements;
    WithoutView(els, i);
    var r := RemoveElement(answers, g, i);
    assert ElementsAt(r, g) == Without(els, i);
    assert Grouped(prev.answers, g);
    GroupStep(prev, next, done, answers, ch, r);
  }

  lemma StepMark(prev: State, next: State, done: set<Change>, completed: set<string>, ch: Change)
    requires MixedMarks(prev, next, done, completed)
    requires InMarkDiff(prev.completed, next.completed, ch)
    requires forall c | c in done :: InWholeDiff(prev, next, c)
    ensures MixedMarks(prev, next, done + {ch},
                       if ch.done then completed + {ch.task} else completed - {ch.task})
  {
  }

  /** Applying one more change of the diff, whichever it is, applies its location and nothing else. */
  lemma Step(prev: State, next: State, done: set<Change>, s: State, ch: Change)
    requires Normal(prev) && Normal(next)
    requires Mixed(prev, next, done, s)
    requires InWholeDiff(prev, next, ch) && ch !in done
    requires forall c | c in done :: InWholeDiff(prev, next, c)
    ensures Mixed(prev, next, done + {ch}, Apply(s, ch))
  {
    if ch.Mark? {
      StepMark(prev, next, done, s.completed, ch);
      MarkKeepsAnswers(prev, next, done, s.answers, ch);
    } else {
      MixedMarksKept(prev, next, done, s.completed, ch);
      match ch
      case SetPlain(_, _, _) => StepPlain(prev, next, done, s.answers, ch);
      case SetField(_, _, _, _, _) => StepField(prev, next, done, s.answers, ch);
      case Add(_, _, _) => StepAdd(prev, next, done, s.answers, ch);
      case Remove(_, _, _) => StepRemove(prev, next, done, s.answers, ch);
    }
  }

  lemma MixedMarksKept(prev: State, next: State, done: set<Change>, completed: set<string>, ch: Change)
    requires !ch.Mark? && MixedMarks(prev, next, done, completed)
    ensures MixedMarks(prev, next, done + {ch}, completed)
  {
  }

  lemma MarkKeepsAnswers(prev: State, next: State, done: set<Change>, answers: map<string, Entry>, ch: Change)
    requires ch.Mark? && MixedAnswers(prev, next, done, answers)
    ensures MixedAnswers(prev, next, done + {ch}, answers)
  {
    forall k ensures PlainAt(answers, k) == MixPlain(prev, next, done + {ch}, k) {
      assert AnyAdded(done, k) == AnyAdded(done + {ch}, k);
    }
    forall g, i: nat ensures MixesAt(prev, next, done + {ch}, g, i, At(answers, g, i)) {
      assert MixesAt(prev, next, done, g, i, At(answers, g, i));
    }
  }

  function Elems(chs: seq<Change>): set<Change> {
    set ch | ch in chs
  }

  /** Any run of distinct changes between the states, in any order, ends in the mix of exactly those changes. */
  lemma {:induction false} RunIsMixed(prev: State, next: State, chs: seq<Change>)
    requires Normal(prev) && Normal(next)
    requires NoDuplicates(chs) && forall ch | ch in chs :: InWholeDiff(prev, next, ch)
    ensures Mixed(prev, next, Elems(chs), ApplyAll(prev, chs))
  {
    var done := Elems(chs);
    if chs == [] {
      assert done == {};
      MixedInitially(prev, next);
    } else {
      var front, ch := chs[..|chs| - 1], chs[|chs| - 1];
      RunIsMixed(prev, next, front);
      var before := Elems(front);
      assert done == before + {ch};
      assert chs == front + [ch];
      assert ch !in before;
      Step(prev, next, before, ApplyAll(prev, front), ch);
    }
  }

  // ---- The whole diff ----

  /**
    What replaying a whole diff on `prev` gives at key k: the new entry, except that a group that
    was not there before comes without its element 0 (and not at all when it has no other), and
    a group that turns into a plain value disappears.
   */
  function ReplayedAt(prev: map<string, Entry>, next: map<string, Entry>, k: string): Option<Entry> {
    if IsArray(next, k) then
      if IsArray(prev, k) then Get(next, k)
      else
        var rest := Without(next[k].elements, 0);
        if rest == [] then Get(prev, k) else Some(Group(rest))
    else if IsArray(prev, k) then None
    else Get(next, k)
  }

  function Replayed(prev: State, next: State): State {
    State(map k | k in prev.answers.Keys + next.answers.Keys && ReplayedAt(prev.answers, next.answers, k).Some?
              :: ReplayedAt(prev.answers, next.answers, k).value,
          next.completed)
  }

  /** The guard of the two lossy branches, as a caller could test it before saving. */
  predicate Faithful(prev: State, next: State) {
    && (forall k | k in next.answers && IsArray(next.answers, k) && !IsArray(prev.answers, k) ::
          FieldsAt(next.answers[k].elements, 0).None?)
    && (forall k | k in prev.answers && IsArray(prev.answers, k) && k in next.answers :: IsArray(next.answers, k))
  }

  /** Two well-shaped answer maps with the same plain values and the same elements are equal. */
  lemma SameViews(a: map<string, Entry>, b: map<string, Entry>)
    requires Shaped(a) && Shaped(b)
    requires forall k :: PlainAt(a, k) == PlainAt(b, k)
    requires forall g, i: nat :: At(a, g, i) == At(b, g, i)
    ensures a == b
  {
    forall k ensures Get(a, k) == Get(b, k) {
      assert PlainAt(a, k) == PlainAt(b, k);
      ArrayHasElement(a, k);
      ArrayHasElement(b, k);
      assert forall i: nat :: At(a, k, i) == At(b, k, i);
      if IsArray(a, k) {
        assert IsArray(b, k);
        forall i: nat ensures FieldsAt(a[k].elements, i) == FieldsAt(b[k].elements, i) {
          assert At(a, k, i) == At(b, k, i);
        }
        SortedExtensional(a[k].elements, b[k].elements);
      }
    }
    SameLookups(a, b);
  }

  lemma NormalIsShaped(s: State)
    requires Normal(s)
    ensures Shaped(s.answers)
    ensures forall k :: Grouped(s.answers, k) <==> IsArray(s.answers, k)
  {
  }

  lemma ReplayedLookup(prev: State, next: State, k: string)
    ensures Get(Replayed(prev, next).answers, k) == ReplayedAt(prev.answers, next.answers, k)
  {
  }

  lemma ReplayedIsShaped(prev: State, next: State)
    requires Normal(prev) && Normal(next)
    ensures Shaped(Replayed(prev, next).answers)
  {
    var r := Replayed(prev, next).answers;
    forall k | k in r && r[k].Group? ensures r[k].elements != [] && StrictlySorted(r[k].elements) {
      ReplayedLookup(prev, next, k);
      if IsArray(next.answers, k) {
        WithoutView(next.answers[k].elements, 0);
      }
    }
  }

  /** Some element has an index other than 0. */
  ghost predicate HasLaterElement(els: seq<Element>) {
    exists i: nat :: i != 0 && FieldsAt(els, i).Some?
  }

  /** A group is left without its element 0 exactly when it has an element with another index. */
  lemma RestHasElement(els: seq<Element>)
    requires StrictlySorted(els)
    ensures Without(els, 0) != [] <==> HasLaterElement(els)
  {
    var rest := Without(els, 0);
    WithoutView(els, 0);
    if rest != [] {
      NonEmptyHasIndex(rest);
      var i := rest[|rest| - 1].index;
      assert FieldsAt(rest, i) == if i == 0 then None else FieldsAt(els, i);
      assert i != 0 && FieldsAt(els, i).Some?;
    } else {
      forall i: nat | i != 0 ensures FieldsAt(els, i).None? {
        assert FieldsAt(rest, i) == FieldsAt(els, i);
      }
    }
  }

  /** A new group takes the place of a plain value when it has an element other than 0. */
  lemma NewGroupAdded(prev: State, next: State, done: set<Change>, k: string)
    requires Normal(next) && !Grouped(prev.answers, k) && IsArray(next.answers, k)
    requires forall ch :: ch in done <==> InDiff(prev, next, ch)
    ensures AnyAdded(done, k) <==> Without(next.answers[k].elements, 0) != []
  {
    var els := next.answers[k].elements;
    RestHasElement(els);
    forall i: nat, f ensures Add(k, i, f) in done <==> i != 0 && FieldsAt(els, i) == Some(f) {
      assert Add(k, i, f) in done <==> InDiff(prev, next, Add(k, i, f));
    }
    if i: nat :| i != 0 && FieldsAt(els, i).Some? {
      assert Add(k, i, FieldsAt(els, i).value) in done;
    }
  }

  /** The completed mix at a plain key. */
  lemma ReplayedPlain(prev: State, next: State, done: set<Change>, k: string)
    requires Normal(prev) && Normal(next)
    requires forall ch :: ch in done <==> InDiff(prev, next, ch)
    ensures MixPlain(prev, next, done, k) == PlainAt(Replayed(prev, next).answers, k)
  {
    NormalIsShaped(prev);
    NormalIsShaped(next);
    ReplayedLookup(prev, next, k);
    if !Grouped(prev.answers, k) {
      if Grouped(next.answers, k) {
        NewGroupAdded(prev, next, done, k);
      } else {
        var ch := SetPlain(k, PlainAt(prev.answers, k), PlainAt(next.answers, k));
        assert ch in done <==> InDiff(prev, next, ch);
      }
    }
  }

  lemma AllFieldsNew(prev: State, next: State, done: set<Change>, g: string, i: nat, actual: Fields)
    requires At(prev.answers, g, i).Some? && At(next.answers, g, i).Some?
    requires forall ch :: ch in done <==> InDiff(prev, next, ch)
    requires MixesAt(prev, next, done, g, i, Some(actual))
    ensures actual == At(next.answers, g, i).value
  {
    var o, n := At(prev.answers, g, i).value, At(next.answers, g, i).value;
    forall c ensures Get(actual, c) == Get(n, c) {
      var ch := SetField(g, c, i, Get(o, c), Get(n, c));
      assert ch in done <==> InDiff(prev, next, ch);
    }
    SameLookups(actual, n);
  }

  /** What `Replayed` holds at an element. */
  lemma ReplayedElementAt(prev: State, next: State, g: string, i: nat)
    requires Normal(prev) && Normal(next)
    ensures At(Replayed(prev, next).answers, g, i)
         == if i == 0 && !Grouped(prev.answers, g) then None else At(next.answers, g, i)
  {
    NormalIsShaped(prev);
    NormalIsShaped(next);
    ReplayedLookup(prev, next, g);
    if IsArray(next.answers, g) {
      WithoutView(next.answers[g].elements, 0);
    }
  }

  /** The completed mix at an element. */
  lemma ReplayedElement(prev: State, next: State, done: set<Change>, g: string, i: nat, actual: Option<Fields>)
    requires Normal(prev) && Normal(next)
    requires forall ch :: ch in done <==> InDiff(prev, next, ch)
    requires MixesAt(prev, next, done, g, i, actual)
    ensures actual == At(Replayed(prev, next).answers, g, i)
  {
    ReplayedElementAt(prev, next, g, i);
    match (At(prev.answers, g, i), At(next.answers, g, i))
    case (None, None) =>
    case (None, Some(f)) =>
      assert Add(g, i, f) in done <==> InDiff(prev, next, Add(g, i, f));
    case (Some(f), None) =>
      assert Remove(g, i, f) in done <==> InDiff(prev, next, Remove(g, i, f));
    case (Some(o), Some(n)) =>
      AllFieldsNew(prev, next, done, g, i, actual.value);
  }

  lemma AllMarks(prev: State, next: State, done: set<Change>, completed: set<string>)
    requires forall ch :: ch in done <==> InDiff(prev, next, ch)
    requires MixedMarks(prev, next, done, completed)
    ensures completed == next.completed
  {
    forall t ensures t in completed <==> t in next.completed {
      assert Mark(t, true) in done <==> InDiff(prev, next, Mark(t, true));
      assert Mark(t, false) in done <==> InDiff(prev, next, Mark(t, false));
    }
  }

  lemma CompleteMixIsReplayed(prev: State, next: State, done: set<Change>, s: State)
    requires Normal(prev) && Normal(next)
    requires forall ch :: ch in done <==> InDiff(prev, next, ch)
    requires Mixed(prev, next, done, s)
    ensures s == Replayed(prev, next)
  {
    var r := Replayed(prev, next);
    AllMarks(prev, next, done, s.completed);
    ReplayedIsShaped(prev, next);
    forall k ensures PlainAt(s.answers, k) == PlainAt(r.answers, k) {
      ReplayedPlain(prev, next, done, k);
    }
    forall g, i: nat ensures At(s.answers, g, i) == At(r.answers, g, i) {
      ReplayedElement(prev, next, done, g, i, At(s.answers, g, i));
    }
    SameViews(s.answers, r.answers);
  }

  /**
    Diff, then replay. Whatever order the edits of one diff come back in, replaying them on the
    old state gives the same state, and that state is `Replayed(prev, next)`.
   */
  lemma DiffThenReplay(prev: State, next: State, chs: seq<Change>)
    requires Normal(prev) && Normal(next) && ListsDiff(prev, next, chs)
    ensures ApplyAll(prev, chs) == Replayed(prev, next)
  {
    RunIsMixed(prev, next, chs);
    CompleteMixIsReplayed(prev, next, Elems(chs), ApplyAll(prev, chs));
  }

  /** The replayed state is the new state exactly when no lossy branch is taken. */
  lemma ReplayedIsNewIff(prev: State, next: State)
    requires Normal(prev) && Normal(next)
    ensures Replayed(prev, next) == next <==> Faithful(prev, next)
  {
    var r := Replayed(prev, next);
    NormalIsShaped(prev);
    NormalIsShaped(next);
    if Faithful(prev, next) {
      forall k ensures Get(r.answers, k) == Get(next.answers, k) {
        ReplayedLookup(prev, next, k);
        if IsArray(next.answers, k) && !IsArray(prev.answers, k) {
          var els := next.answers[k].elements;
          WithoutView(els, 0);
          SortedExtensional(Without(els, 0), els);
        }
      }
      SameLookups(r.answers, next.answers);
    }
    if r == next {
      forall k | k in next.answers && IsArray(next.answers, k) && !IsArray(prev.answers, k)
        ensures FieldsAt(next.answers[k].elements, 0).None? {
        ReplayedLookup(prev, next, k);
        WithoutView(next.answers[k].elements, 0);
      }
      forall k | k in prev.answers && IsArray(prev.answers, k) && k in next.answers ensures IsArray(next.answers, k) {
        ReplayedLookup(prev, next, k);
      }
    }
  }

  lemma DiffIsClean(prev: State, next: State, ch: Change)
    requires Normal(prev) && Normal(next) && InDiff(prev, next, ch)
    ensures CleanChange(ch)
  {
    if ch.SetField? {
      ChangedFieldIsChild(prev, next, ch);
    }
  }

  /** The same for the rows themselves, under the versioned URNs that the save validation lets through. */
  lemma RowsThenReplay(prev: State, next: State, urn: string, editedBy: string, chs: seq<Change>)
    requires Normal(prev) && Normal(next) && ListsDiff(prev, next, chs) && VersionedUrn(urn)
    ensures ReplayAll(prev, EncodeAll(urn, editedBy, chs)) == Replayed(prev, next)
  {
    forall ch | ch in chs ensures CleanChange(ch) {
      DiffIsClean(prev, next, ch);
    }
    ReplayEncoded(prev, urn, editedBy, chs);
    DiffThenReplay(prev, next, chs);
  }

  /**
    A save and the rebuild that follows it: the diff recorded after the old state rebuilds to the
    new one, minus what the lossy branches drop.
   */
  method DiffThenRebuild(prev: State, next: State, urn: string, editedBy: string)
    returns (edits: seq<EditRecord>, rebuilt: State)
    requires Normal(prev) && Normal(next) && VersionedUrn(urn)
    ensures RecordsDiff(prev, next, urn, editedBy, edits)
    ensures rebuilt == Replayed(prev, next)
    ensures rebuilt == next <==> Faithful(prev, next)
  {
    ghost var chs;
    edits, chs := DiffStates.DiffStates(prev, next, urn, editedBy);
    var start := [EditRecord("__initial__", InitialState(prev), editedBy)];
    rebuilt := RebuildState(start + edits);
    ReplayConcat(State(map[], {}), start, edits);
    assert start[..0] == [] && ReplayAll(State(map[], {}), start) == prev;
    RowsThenReplay(prev, next, urn, editedBy, chs);
    ReplayedIsNewIff(prev, next);
  }

  /** Two normal states without changes between them, and without a lossy branch, are the same. */
  lemma NoChangesSameState(prev: State, next: State)
    requires Normal(prev) && Normal(next) && ListsDiff(prev, next, []) && Faithful(prev, next)
    ensures prev == next
  {
    DiffThenReplay(prev, next, []);
    ReplayedIsNewIff(prev, next);
  }

  lemma SameStateNoChanges(state: State)
    ensures ListsDiff(state, state, []) && Faithful(state, state)
  {
  }
}
