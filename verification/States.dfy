/**
  Assessment states as the backend stores them: answers by task id, where a repeatable task
  holds an array of indexed elements, and the set of completed root tasks.
 */
module States {
  import opened Wrappers
  import opened InstanceIds

  /** Values are only ever compared, so the kinds of value matter and their contents do not. */
  datatype AnswerValue = Text(text: string) | Choices(choices: seq<string>) | Image(data: string) | Cleared

  /** `stamp` stands for who edited the answer last, and when. */
  datatype Answer = Answer(value: AnswerValue, stamp: string)

  datatype Entry = Leaf(answer: Answer) | Group(elements: seq<Element>)

  datatype Element = Element(index: nat, fields: map<string, Entry>)

  type Fields = map<string, Entry>

  datatype State = State(answers: map<string, Entry>, completed: set<string>)

  /** The elements of the array stored under key k; none when k holds something else. */
  function ElementsAt(answers: map<string, Entry>, k: string): seq<Element> {
    if k in answers && answers[k].Group? then answers[k].elements else []
  }

  /** isGroupedArray: an array that is not empty. */
  predicate Grouped(answers: map<string, Entry>, k: string) {
    ElementsAt(answers, k) != []
  }

  /** The fields of the element with index i, as a Map filled from the array reads them: the last one wins. */
  function FieldsAt(els: seq<Element>, i: nat): Option<Fields> {
    if els == [] then None
    else if els[|els| - 1].index == i then Some(els[|els| - 1].fields)
    else FieldsAt(els[..|els| - 1], i)
  }

  predicate StrictlySorted(els: seq<Element>) {
    forall i, j | 0 <= i < j < |els| :: els[i].index < els[j].index
  }

  lemma {:induction false} FieldsAtHas(els: seq<Element>, i: nat)
    ensures FieldsAt(els, i).Some? <==> exists k :: 0 <= k < |els| && els[k].index == i
  {
    if els != [] {
      FieldsAtHas(els[..|els| - 1], i);
    }
  }

  lemma {:induction false} FieldsAtSorted(els: seq<Element>, k: nat)
    requires StrictlySorted(els) && k < |els|
    ensures FieldsAt(els, els[k].index) == Some(els[k].fields)
  {
    if k < |els| - 1 {
      FieldsAtSorted(els[..|els| - 1], k);
    }
  }

  /** Sorted arrays with the same element at every index are equal. */
  lemma {:induction false} SortedExtensional(a: seq<Element>, b: seq<Element>)
    requires StrictlySorted(a) && StrictlySorted(b)
    requires forall i: nat :: FieldsAt(a, i) == FieldsAt(b, i)
    ensures a == b
  {
    if a == [] || b == [] {
      if a != [] { FieldsAtSorted(a, 0); }
      if b != [] { FieldsAtSorted(b, 0); }
    } else {
      var x, y := a[|a| - 1], b[|b| - 1];
      FieldsAtSorted(a, |a| - 1);
      FieldsAtSorted(b, |b| - 1);
      FieldsAtHas(a, y.index);
      FieldsAtHas(b, x.index);
      assert x.index == y.index;
      var a', b' := a[..|a| - 1], b[..|b| - 1];
      forall i: nat ensures FieldsAt(a', i) == FieldsAt(b', i) {
        assert FieldsAt(a, i) == FieldsAt(b, i);
        FieldsAtHas(a', x.index);
        FieldsAtHas(b', x.index);
      }
      SortedExtensional(a', b');
      assert a == a' + [x] && b == b' + [y];
    }
  }

  /** c is g, a dot, and one more segment. */
  predicate DirectChild(c: string, g: string) {
    |g| < |c| && c[..|g|] == g && c[|g|] == '.' && '.' !in c[|g| + 1..]
  }

  predicate NormalFields(g: string, fields: Fields) {
    forall c | c in fields :: CleanTaskId(c) && DirectChild(c, g) && fields[c].Leaf?
  }

  predicate NormalGroup(g: string, els: seq<Element>) {
    && els != []
    && StrictlySorted(els)
    && forall k | 0 <= k < |els| :: NormalFields(g, els[k].fields)
  }

  /**
    The normal form that saving produces: keys are task ids without an index, every group is a
    non-empty array sorted by unique index, and its fields are direct children of the group.
   */
  predicate Normal(s: State) {
    && (forall k | k in s.answers :: CleanTaskId(k))
    && (forall k | k in s.answers && s.answers[k].Group? :: NormalGroup(k, s.answers[k].elements))
    && (forall t | t in s.completed :: CleanTaskId(t))
  }
}
