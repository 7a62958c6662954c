/**
  The client's view of an assessment, field by field, and the three-way merge that it performs:
  baseline, local store and server. States are flat here; a field is an answer or the completed
  mark of a root task.
 */
module FieldMerge {
  import opened Wrappers
  import opened States

  datatype Flat = Flat(answers: map<string, Answer>, completed: set<string>)

  const NOTHING := Flat(map[], {})

  datatype Field = AnswerField(key: string) | CompletedField(taskId: string)

  /** The value of a field; a missing answer is null. */
  datatype FieldValue = Null | Has(answer: Answer) | Done(done: bool)

  function Value(s: Flat, f: Field): FieldValue {
    match f
    case AnswerField(k) => if k in s.answers then Has(s.answers[k]) else Null
    case CompletedField(t) => Done(t in s.completed)
  }

  predicate Changed(a: Flat, b: Flat, f: Field) {
    Value(a, f) != Value(b, f)
  }

  // ---- computeFieldDiff ----

  type Changes = map<Field, FieldValue>

  /** The fields that have something in s. */
  function FieldsIn(s: Flat): set<Field> {
    (set k | k in s.answers :: AnswerField(k)) + (set t | t in s.completed :: CompletedField(t))
  }

  /** The changed fields with their new values. */
  function DiffOf(a: Flat, b: Flat): Changes {
    map f | f in FieldsIn(a) + FieldsIn(b) && Changed(a, b, f) :: Value(b, f)
  }

  lemma DiffIsExact(a: Flat, b: Flat, f: Field)
    ensures f in DiffOf(a, b) <==> Changed(a, b, f)
    ensures f in DiffOf(a, b) ==> DiffOf(a, b)[f] == Value(b, f)
  {
    match f
    case AnswerField(k) =>
    case CompletedField(t) =>
  }

  /** The same, as the loops of computeFieldDiff build it up. */
  ghost predicate ListsChanges(a: Flat, b: Flat, changes: Changes) {
    && (forall f | f in changes :: Changed(a, b, f) && changes[f] == Value(b, f))
    && (forall k | (k in a.answers || k in b.answers) && Changed(a, b, AnswerField(k)) :: AnswerField(k) in changes)
    && (forall t | t in b.completed && t !in a.completed :: CompletedField(t) in changes)
    && (forall t | t in a.completed && t !in b.completed :: CompletedField(t) in changes)
  }

  lemma ListedIsDiff(a: Flat, b: Flat, changes: Changes)
    requires ListsChanges(a, b, changes)
    ensures changes == DiffOf(a, b)
  {
    forall f ensures Get(changes, f) == Get(DiffOf(a, b), f) {
      DiffIsExact(a, b, f);
    }
    SameLookups(changes, DiffOf(a, b));
  }

  /** Missing states are compared as empty ones. */
  method ComputeFieldDiff(oldState: Option<Flat>, newState: Option<Flat>) returns (changes: Changes)
    ensures changes == DiffOf(oldState.GetOr(NOTHING), newState.GetOr(NOTHING))
  {
    var prev, next := oldState.GetOr(NOTHING), newState.GetOr(NOTHING);
    changes := map[];
    var todo := prev.answers.Keys + next.answers.Keys;
    while todo != {}
      invariant forall f | f in changes :: f.AnswerField? && Changed(prev, next, f) && changes[f] == Value(next, f)
      invariant forall k | (k in prev.answers || k in next.answers) && k !in todo &&
                  Changed(prev, next, AnswerField(k)) ::
                  AnswerField(k) in changes
      decreases todo
    {
      var key :| key in todo;
      todo := todo - {key};
      var field := AnswerField(key);
      if Value(prev, field) != Value(next, field) {
        changes := changes[field := Value(next, field)];
      }
    }
    ghost var answers := changes;
    var added := next.completed;
    while added != {}
      invariant added <= next.completed
      invariant forall f | f in changes :: Changed(prev, next, f) && changes[f] == Value(next, f)
      invariant forall f | f in answers :: f in changes
      invariant forall t | t in next.completed && t !in prev.completed && t !in added :: CompletedField(t) in changes
      decreases added
    {
      var id :| id in added;
      added := added - {id};
      if id !in prev.completed {
        changes := changes[CompletedField(id) := Done(true)];
      }
    }
    ghost var more := changes;
    var removed := prev.completed;
    while removed != {}
      invariant removed <= prev.completed
      invariant forall f | f in changes :: Changed(prev, next, f) && changes[f] == Value(next, f)
      invariant forall f | f in more :: f in changes
      invariant forall t | t in prev.completed && t !in next.completed && t !in removed :: CompletedField(t) in changes
      decreases removed
    {
      var id :| id in removed;
      removed := removed - {id};
      if id !in next.completed {
        changes := changes[CompletedField(id) := Done(false)];
      }
    }
    ListedIsDiff(prev, next, changes);
  }

  // ---- Applying field changes ----

  /** The value fits the field: answers for answer fields, marks for completed fields. */
  predicate Fits(f: Field, v: FieldValue) {
    f.CompletedField? <==> v.Done?
  }

  predicate AllFit(changes: Changes) {
    forall f | f in changes :: Fits(f, changes[f])
  }

  /** applyFieldChange. */
  function WithField(s: Flat, f: Field, v: FieldValue): Flat {
    match f
    case CompletedField(t) => s.(completed := if v == Done(true) then s.completed + {t} else s.completed - {t})
    case AnswerField(k) =>
      match v
      case Has(a) => s.(answers := s.answers[k := a])
      case _ => s.(answers := s.answers - {k})
  }

  lemma WithFieldValue(s: Flat, f: Field, v: FieldValue, g: Field)
    requires Fits(f, v)
    ensures Value(WithField(s, f, v), g) == if g == f then v else Value(s, g)
  {
  }

  /** Every field has its value from the changes if they mention it, and from s otherwise. */
  ghost predicate Overlaid(s: Flat, changes: Changes, r: Flat) {
    forall f :: Value(r, f) == if f in changes then changes[f] else Value(s, f)
  }

  /** A loop over applyFieldChange. */
  method ApplyChanges(s: Flat, changes: Changes) returns (r: Flat)
    requires AllFit(changes)
    ensures Overlaid(s, changes, r)
  {
    r := s;
    var todo := changes.Keys;
    while todo != {}
      invariant todo <= changes.Keys
      invariant forall f :: Value(r, f) == if f in changes && f !in todo then changes[f] else Value(s, f)
      decreases todo
    {
      var f :| f in todo;
      todo := todo - {f};
      ghost var before := r;
      r := WithField(r, f, changes[f]);
      forall g ensures Value(r, g) == if g == f then changes[f] else Value(before, g) {
        WithFieldValue(before, f, changes[f], g);
      }
    }
  }

  lemma DiffFits(a: Flat, b: Flat)
    ensures AllFit(DiffOf(a, b))
  {
  }

  // ---- Conflicts ----

  /** What the conflict test compares: the value inside an answer; who edited it and when does not count. */
  datatype Shown = NoValue | Plain(value: AnswerValue) | Mark(done: bool)

  function Extract(v: FieldValue): Shown {
    match v
    case Null => NoValue
    case Has(a) => if a.value.Cleared? then NoValue else Plain(a.value)
    case Done(b) => Mark(b)
  }

  /**
    Both sides changed the field, to answers with different values, to an answer that is not cleared
    and none, or to different marks.
   */
  predicate Conflicts(mine: Changes, theirs: Changes, f: Field) {
    && f in mine && f in theirs
    && match (mine[f], theirs[f])
       case (Has(a), Has(b)) => a.value != b.value
       case (Has(a), Null) => a.value != Cleared
       case (Null, Has(b)) => b.value != Cleared
       case (a, b) => a != b
  }

  /** Two states show different values for the field; a cleared answer shows as none, and stamps do not show. */
  predicate Contradict(a: Flat, b: Flat, f: Field) {
    match f
    case CompletedField(t) => (t in a.completed) != (t in b.completed)
    case AnswerField(k) =>
      if k in a.answers && a.answers[k].value != Cleared then
        k in b.answers ==> b.answers[k].value != a.answers[k].value
      else
        k in b.answers && b.answers[k].value != Cleared
  }

  method FindConflicts(mine: Changes, theirs: Changes) returns (r: set<Field>)
    ensures forall f :: f in r <==> Conflicts(mine, theirs, f)
  {
    r := {};
    var todo := mine.Keys;
    while todo != {}
      invariant todo <= mine.Keys
      invariant forall f :: f in r <==> f !in todo && Conflicts(mine, theirs, f)
      decreases todo
    {
      var f :| f in todo;
      todo := todo - {f};
      if f in theirs && Extract(mine[f]) != Extract(theirs[f]) {
        r := r + {f};
      }
    }
  }
}
