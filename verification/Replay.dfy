/** Replaying edit records on a state, branch by branch as rebuildState does. */
module Replay {
  import opened Wrappers
  import opened InstanceIds
  import opened FieldKeys
  import opened States
  import opened Edits

  predicate IsArray(answers: map<string, Entry>, k: string) {
    k in answers && answers[k].Group?
  }

  /** The longest prefix of c that ends before a dot at a position below n and holds an array. */
  function NearestGroup(answers: map<string, Entry>, c: string, n: nat): (r: Option<string>)
    requires n <= |c|
    ensures r.Some? ==> |r.value| < n && r.value == c[..|r.value|] && c[|r.value|] == '.' && IsArray(answers, r.value)
    ensures forall j | (if r.Some? then |r.value| + 1 else 0) <= j < n && c[j] == '.' :: !IsArray(answers, c[..j])
  {
    if n == 0 then None
    else if c[n - 1] == '.' && IsArray(answers, c[..n - 1]) then Some(c[..n - 1])
    else NearestGroup(answers, c, n - 1)
  }

  /** Array.prototype.find on the index: the first position that matches. */
  function FindElement(els: seq<Element>, i: nat): (r: Option<nat>)
    ensures r.Some? ==> r.value < |els| && els[r.value].index == i
    ensures r.Some? ==> forall k | 0 <= k < r.value :: els[k].index != i
    ensures r.None? ==> forall k | 0 <= k < |els| :: els[k].index != i
  {
    if els == [] then None
    else
      var r := FindElement(els[..|els| - 1], i);
      if r.Some? then r
      else if els[|els| - 1].index == i then Some(|els| - 1)
      else None
  }

  function InsertStable(s: seq<Element>, e: Element): seq<Element> {
    if s == [] || s[|s| - 1].index <= e.index then s + [e]
    else InsertStable(s[..|s| - 1], e) + [s[|s| - 1]]
  }

  /** The stable sort by index. */
  function SortByIndex(s: seq<Element>): seq<Element> {
    if s == [] then [] else InsertStable(SortByIndex(s[..|s| - 1]), s[|s| - 1])
  }

  function SetInElements(els: seq<Element>, i: nat, c: string, v: Option<Entry>): seq<Element> {
    var present := if FindElement(els, i).Some? then els else SortByIndex(els + [Element(i, map[])]);
    match FindElement(present, i)
    case Some(p) => present[p := Element(i, Put(present[p].fields, c, v))]
    case None => present
  }

  function Without(els: seq<Element>, i: nat): seq<Element> {
    if els == [] then []
    else if els[|els| - 1].index == i then Without(els[..|els| - 1], i)
    else Without(els[..|els| - 1], i) + [els[|els| - 1]]
  }

  function SetAnswer(answers: map<string, Entry>, key: string, v: Option<Entry>): map<string, Entry> {
    var id := ParseInstanceId(key);
    var parent := if id.index.Some? then NearestGroup(answers, id.taskId, |id.taskId|) else None;
    match parent
    case Some(g) => answers[g := Group(SetInElements(answers[g].elements, id.index.value, id.taskId, v))]
    case None => Put(answers, key, v)
  }

  function AddElement(answers: map<string, Entry>, g: string, i: nat, fields: Option<Fields>): map<string, Entry> {
    var els := ElementsAt(answers, g);
    if FindElement(els, i).Some? then answers
    else answers[g := Group(SortByIndex(els + [Element(i, fields.GetOr(map[]))]))]
  }

  function RemoveElement(answers: map<string, Entry>, g: string, i: nat): map<string, Entry> {
    if !IsArray(answers, g) then answers
    else
      var els := Without(answers[g].elements, i);
      if els == [] then answers - {g} else answers[g := Group(els)]
  }

  function AddInstance(answers: map<string, Entry>, key: string, fields: Option<Fields>): map<string, Entry> {
    var id := ParseInstanceId(key);
    if id.index.None? then answers else AddElement(answers, id.taskId, id.index.value, fields)
  }

  function RemoveInstance(answers: map<string, Entry>, key: string): map<string, Entry> {
    var id := ParseInstanceId(key);
    if id.index.None? then answers else RemoveElement(answers, id.taskId, id.index.value)
  }

  function MarkSection(completed: set<string>, key: string, done: bool): set<string> {
    var task := if COMPLETED <= key then key[|COMPLETED|..] else key;
    if done then completed + {task} else completed - {task}
  }

  /** The key that a field id leads to; an empty one leads nowhere. */
  function EditKey(fieldId: string): Option<string> {
    match ParseFieldKey(fieldId)
    case None => None
    case Some(key) => if key == "" then None else Some(key)
  }

  function ApplyEdit(s: State, e: EditRecord): State {
    if e.kind.InitialState? then e.kind.state
    else
      match EditKey(e.fieldId)
      case None => s
      case Some(key) =>
        match e.kind
        case InitialState(state) => state
        case AnswerChange(_, v) => s.(answers := SetAnswer(s.answers, key, v))
        case SectionComplete(_, done) => s.(completed := MarkSection(s.completed, key, done))
        case InstanceAdded(fields) => s.(answers := AddInstance(s.answers, key, fields))
        case InstanceRemoved(_) => s.(answers := RemoveInstance(s.answers, key))
        case LegacyInstanceEdit => s
  }

  function ReplayAll(s: State, edits: seq<EditRecord>): State {
    if edits == [] then s else ApplyEdit(ReplayAll(s, edits[..|edits| - 1]), edits[|edits| - 1])
  }

  lemma {:induction false} ReplayConcat(s: State, a: seq<EditRecord>, b: seq<EditRecord>)
    ensures ReplayAll(s, a + b) == ReplayAll(ReplayAll(s, a), b)
  {
    if b == [] {
      assert a + b == a;
    } else {
      ReplayConcat(s, a, b[..|b| - 1]);
      assert (a + b)[..|a + b| - 1] == a + b[..|b| - 1];
    }
  }

  // ---- The same, as the loops and in-place updates of the source ----

  method FindGroupedParent(answers: map<string, Entry>, childTaskId: string) returns (parent: Option<string>)
    ensures parent == NearestGroup(answers, childTaskId, |childTaskId|)
  {
    var i := |childTaskId|;
    while i > 0
      invariant 0 <= i <= |childTaskId|
      invariant NearestGroup(answers, childTaskId, |childTaskId|) == NearestGroup(answers, childTaskId, i)
    {
      i := i - 1;
      if childTaskId[i] == '.' && IsArray(answers, childTaskId[..i]) {
        return Some(childTaskId[..i]);
      }
    }
    return None;
  }

  method SetElementField(arr: seq<Element>, index: nat, childTaskId: string, newValue: Option<Entry>)
    returns (result: seq<Element>)
    ensures result == SetInElements(arr, index, childTaskId, newValue)
  {
    result := arr;
    var found := FindElement(arr, index);
    if found.None? {
      result := SortByIndex(arr + [Element(index, map[])]);
      found := FindElement(result, index);
    }
    if found.Some? {
      result := result[found.value := Element(index, Put(result[found.value].fields, childTaskId, newValue))];
    }
  }

  method ApplyAnswerChange(answers: map<string, Entry>, key: string, newValue: Option<Entry>)
    returns (result: map<string, Entry>)
    ensures result == SetAnswer(answers, key, newValue)
  {
    var instance := ParseInstanceId(key);
    if instance.index.Some? {
      var parentKey := FindGroupedParent(answers, instance.taskId);
      if parentKey.Some? {
        var arr := SetElementField(answers[parentKey.value].elements, instance.index.value, instance.taskId, newValue);
        return answers[parentKey.value := Group(arr)];
      }
    }
    result := Put(answers, key, newValue);
  }

  method RebuildState(rows: seq<EditRecord>) returns (state: State)
    ensures state == ReplayAll(State(map[], {}), rows)
  {
    state := State(map[], {});
    for n := 0 to |rows|
      invariant state == ReplayAll(State(map[], {}), rows[..n])
    {
      var row := rows[n];
      assert rows[..n + 1][..n] == rows[..n];
      if row.kind.InitialState? {
        state := row.kind.state;
      } else {
        var key := ParseFieldKey(row.fieldId);
        if key.Some? && key.value != "" {
          match row.kind {
            case AnswerChange(_, newValue) =>
              var answers := ApplyAnswerChange(state.answers, key.value, newValue);
              state := state.(answers := answers);
            case SectionComplete(_, done) =>
              state := state.(completed := MarkSection(state.completed, key.value, done));
            case InstanceAdded(fields) =>
              state := state.(answers := AddInstance(state.answers, key.value, fields));
            case InstanceRemoved(_) =>
              state := state.(answers := RemoveInstance(state.answers, key.value));
            case LegacyInstanceEdit =>
            case InitialState(s) =>
          }
        }
      }
    }
    assert rows[..|rows|] == rows;
  }
}
