/**
  The edits of one save come back in any order. On the state that the save was compared with the
  order does not matter; on another base it may. This is exactly when.
 */
module TieOrder {
  import opened Wrappers
  import opened InstanceIds
  import opened FieldKeys
  import opened States
  import opened Edits
  import opened Replay
  import opened ElementViews
  import opened DiffReplay

  // ---- The changes of one diff touch different places ----

  predicate Leafy(v: Option<Entry>) {
    v.Some? ==> v.value.Leaf?
  }

  predicate CleanEdit(ch: Change) {
    match ch
    case SetPlain(k, _, a) => CleanTaskId(k) && Leafy(a)
    case SetField(g, c, _, _, a) => CleanTaskId(g) && CleanTaskId(c) && DirectChild(c, g) && Leafy(a)
    case Add(g, _, _) => CleanTaskId(g)
    case Remove(g, _, _) => CleanTaskId(g)
    case Mark(_, _) => true
  }

  predicate InGroupOf(ch: Change, g: string) {
    (ch.SetField? || ch.Add? || ch.Remove?) && ch.group == g
  }

  /** The two changes touch the same place. */
  predicate Clash(a: Change, b: Change) {
    match a
    case SetPlain(k, _, _) => (b.SetPlain? && b.key == k) || InGroupOf(b, k)
    case SetField(g, c, i, _, _) =>
      (b.SetPlain? && b.key == g) || (b.SetField? && b.child == c && b.index == i) ||
      ((b.Add? || b.Remove?) && b.group == g && b.index == i)
    case Add(g, i, _) => (b.SetPlain? && b.key == g) || (InGroupOf(b, g) && b.index == i)
    case Remove(g, i, _) => (b.SetPlain? && b.key == g) || (InGroupOf(b, g) && b.index == i)
    case Mark(t, _) => b.Mark? && b.task == t
  }

  /** A batch: clean changes of different places, each once. */
  ghost predicate IsBatch(chs: seq<Change>) {
    && NoDuplicates(chs)
    && (forall ch | ch in chs :: CleanEdit(ch))
    && forall a, b {:trigger Clash(a, b)} | a in chs && b in chs && a != b :: !Clash(a, b)
  }

  lemma GroupIsNormal(s: State, g: string)
    requires Normal(s) && ElementsAt(s.answers, g) != []
    ensures CleanTaskId(g)
  {
    assert g in s.answers;
  }

  lemma DiffIsCleanEdit(prev: State, next: State, ch: Change)
    requires Normal(prev) && Normal(next) && InDiff(prev, next, ch)
    ensures CleanEdit(ch)
  {
    if ch.SetPlain? {
      NormalIsShaped(prev);
      NormalIsShaped(next);
    } else if !ch.Mark? {
      GroupOfDiff(prev, next, ch);
      if ch.SetField? {
        FieldOfDiff(prev, next, ch);
      }
    }
  }

  lemma GroupOfDiff(prev: State, next: State, ch: Change)
    requires Normal(prev) && Normal(next) && InDiff(prev, next, ch) && (ch.SetField? || ch.Add? || ch.Remove?)
    ensures CleanTaskId(ch.group)
  {
    if ElementsAt(prev.answers, ch.group) != [] {
      GroupIsNormal(prev, ch.group);
    } else {
      GroupIsNormal(next, ch.group);
    }
  }

  lemma FieldOfDiff(prev: State, next: State, ch: Change)
    requires Normal(prev) && Normal(next) && InDiff(prev, next, ch) && ch.SetField?
    ensures CleanTaskId(ch.child) && DirectChild(ch.child, ch.group) && Leafy(ch.after)
  {
    ChangedFieldIsChild(prev, next, ch);
    NormalFieldsAt(ch.group, ElementsAt(next.answers, ch.group), ch.index);
  }

  lemma LastDot(c: string, g: string)
    requires DirectChild(c, g)
    ensures c[|g|] == '.' && forall j | |g| < j < |c| :: c[j] != '.'
  {
    forall j | |g| < j < |c| ensures c[j] != '.' {
      assert c[|g| + 1..][j - |g| - 1] == c[j];
    }
  }

  lemma ParentIsUnique(c: string, g: string, h: string)
    requires DirectChild(c, g) && DirectChild(c, h)
    ensures g == h
  {
    LastDot(c, g);
    LastDot(c, h);
  }

  lemma DiffApart(prev: State, next: State, a: Change, b: Change)
    requires Normal(prev) && Normal(next) && InDiff(prev, next, a) && InDiff(prev, next, b) && a != b
    ensures !Clash(a, b)
  {
    if a.SetField? && b.SetField? && a.child == b.child {
      FieldOfDiff(prev, next, a);
      FieldOfDiff(prev, next, b);
      ParentIsUnique(a.child, a.group, b.group);
    }
  }

  lemma DiffIsBatch(prev: State, next: State, chs: seq<Change>)
    requires Normal(prev) && Normal(next) && ListsDiff(prev, next, chs)
    ensures IsBatch(chs)
  {
    forall ch | ch in chs ensures CleanEdit(ch) {
      DiffIsCleanEdit(prev, next, ch);
    }
    forall a, b | a in chs && b in chs && a != b ensures !Clash(a, b) {
      DiffApart(prev, next, a, b);
    }
  }

  // ---- What one change does to the views ----

  /** The key that an answer of a child gets outside of any group. */
  function OutsideKey(ch: Change): string
    requires ch.SetField?
  {
    BuildInstanceId(ch.child, Some(ch.index))
  }

  /** The plain value at k after the change, from the one before. */
  function NewPlain(plain: Option<Entry>, ch: Change, inside: bool, k: string): Option<Entry> {
    match ch
    case SetPlain(key, _, a) => if k == key then a else plain
    case SetField(_, _, _, _, a) => if !inside && k == OutsideKey(ch) then a else plain
    case Add(g, _, _) => if k == g then None else plain
    case _ => plain
  }

  /** The element j of group h after the change, from the one before. */
  function NewCell(cell: Option<Fields>, ch: Change, inside: bool, h: string, j: nat): Option<Fields> {
    match ch
    case SetPlain(key, _, _) => if h == key then None else cell
    case SetField(g, c, i, _, a) =>
      if inside && h == g && j == i then Some(Put(cell.GetOr(map[]), c, a))
      else if !inside && h == OutsideKey(ch) then None
      else cell
    case Add(g, i, f) => if h == g && j == i && cell.None? then Some(f) else cell
    case Remove(g, i, _) => if h == g && j == i then None else cell
    case Mark(_, _) => cell
  }

  ghost predicate Effect(answers: map<string, Entry>, ch: Change, inside: bool, r: map<string, Entry>) {
    && Shaped(r)
    && (forall k :: PlainAt(r, k) == NewPlain(PlainAt(answers, k), ch, inside, k))
    && (forall h, j: nat :: At(r, h, j) == NewCell(At(answers, h, j), ch, inside, h, j))
  }

  lemma PutEffect(answers: map<string, Entry>, key: string, v: Option<Entry>, r: map<string, Entry>)
    requires Shaped(answers) && Leafy(v) && r == Put(answers, key, v)
    ensures Shaped(r)
    ensures forall k :: PlainAt(r, k) == if k == key then v else PlainAt(answers, k)
    ensures forall h, j: nat :: At(r, h, j) == if h == key then None else At(answers, h, j)
  {
    forall k ensures PlainAt(r, k) == if k == key then v else PlainAt(answers, k) {
      assert Get(r, k) == if k == key then v else Get(answers, k);
    }
    forall h, j: nat ensures At(r, h, j) == if h == key then None else At(answers, h, j) {
      assert Get(r, h) == if h == key then v else Get(answers, h);
    }
    forall k | k in r && r[k].Group? ensures r[k].elements != [] && StrictlySorted(r[k].elements) {
      assert Get(r, k) == if k == key then v else Get(answers, k);
    }
  }

  /** No array under a dotted prefix of c. */
  predicate NoGroupAbove(answers: map<string, Entry>, c: string) {
    forall j | 0 <= j < |c| && c[j] == '.' :: !IsArray(answers, c[..j])
  }

  lemma {:induction false} NothingNearest(answers: map<string, Entry>, c: string, n: nat)
    requires NoGroupAbove(answers, c) && n <= |c|
    ensures NearestGroup(answers, c, n) == None
  {
    if n > 0 {
      NothingNearest(answers, c, n - 1);
    }
  }

  lemma PlainEffect(answers: map<string, Entry>, ch: Change)
    requires Shaped(answers) && ch.SetPlain? && CleanEdit(ch)
    ensures Effect(answers, ch, false, SetAnswer(answers, ch.key, ch.after))
  {
    CleanHasNoBracket(ch.key);
    PutEffect(answers, ch.key, ch.after, Put(answers, ch.key, ch.after));
  }

  lemma OutsideEffect(answers: map<string, Entry>, ch: Change)
    requires Shaped(answers) && ch.SetField? && CleanEdit(ch) && NoGroupAbove(answers, ch.child)
    ensures Effect(answers, ch, false, SetAnswer(answers, OutsideKey(ch), ch.after))
  {
    ParseOfBuild(ch.child, Some(ch.index));
    NothingNearest(answers, ch.child, |ch.child|);
    PutEffect(answers, OutsideKey(ch), ch.after, Put(answers, OutsideKey(ch), ch.after));
  }

  /** Setting a field makes the element if it is missing. */
  lemma SetFieldView(els: seq<Element>, i: nat, c: string, v: Option<Entry>)
    requires StrictlySorted(els)
    ensures var r := SetInElements(els, i, c, v);
            && r != [] && StrictlySorted(r)
            && forall j: nat :: FieldsAt(r, j) ==
                                if j == i then Some(Put(FieldsAt(els, i).GetOr(map[]), c, v)) else FieldsAt(els, j)
  {
    FieldsAtNone(els, i);
    var present := if FindElement(els, i).Some? then els else SortByIndex(els + [Element(i, map[])]);
    if FindElement(els, i).None? {
      PushSortView(els, Element(i, map[]));
    }
    FieldsAtNone(present, i);
    SetInElementsView(present, i, c, v);
  }

  lemma GroupSet(answers: map<string, Entry>, g: string, els: seq<Element>)
    requires Shaped(answers) && els != [] && StrictlySorted(els)
    ensures var r := answers[g := Group(els)];
            && Shaped(r)
            && (forall k :: PlainAt(r, k) == if k == g then None else PlainAt(answers, k))
            && (forall h, j: nat :: At(r, h, j) == if h == g then FieldsAt(els, j) else At(answers, h, j))
  {
  }

  lemma InsideEffect(answers: map<string, Entry>, ch: Change)
    requires Shaped(answers) && ch.SetField? && CleanEdit(ch) && IsArray(answers, ch.group)
    ensures Effect(answers, ch, true, SetAnswer(answers, OutsideKey(ch), ch.after))
  {
    var els := answers[ch.group].elements;
    SetAnswerOfChild(answers, ch.group, ch.child, ch.index, ch.after);
    SetFieldView(els, ch.index, ch.child, ch.after);
    GroupSet(answers, ch.group, SetInElements(els, ch.index, ch.child, ch.after));
  }

  lemma AddEffect(answers: map<string, Entry>, ch: Change)
    requires Shaped(answers) && ch.Add?
    ensures Effect(answers, ch, false, AddElement(answers, ch.group, ch.index, Bundle(ch.fields)))
  {
    var g, i, f := ch.group, ch.index, ch.fields;
    var els := ElementsAt(answers, g);
    FieldsAtNone(els, i);
    if At(answers, g, i).None? {
      AddsElement(answers, g, i, f);
    }
  }

  lemma AddsElement(answers: map<string, Entry>, g: string, i: nat, f: Fields)
    requires Shaped(answers) && At(answers, g, i).None?
    ensures Effect(answers, Add(g, i, f), false, AddElement(answers, g, i, Bundle(f)))
  {
    AddElementView(answers, g, i, f);
    WithElementEffect(answers, g, i, f, AddElement(answers, g, i, Bundle(f)));
  }

  lemma WithElementEffect(answers: map<string, Entry>, g: string, i: nat, f: Fields, r: map<string, Entry>)
    requires Shaped(answers) && At(answers, g, i).None? && WithElement(answers, g, i, f, r)
    ensures Effect(answers, Add(g, i, f), false, r)
  {
    forall k | k != g ensures PlainAt(r, k) == PlainAt(answers, k) &&
        (k in r && r[k].Group? ==> k in answers && r[k] == answers[k])
                      ensures forall j: nat :: At(r, k, j) == At(answers, k, j) {
      assert Get(r, k) == Get(answers, k);
    }
  }

  lemma RemoveEffect(answers: map<string, Entry>, ch: Change)
    requires Shaped(answers) && ch.Remove?
    ensures Effect(answers, ch, false, RemoveElement(answers, ch.group, ch.index))
  {
    var g, i := ch.group, ch.index;
    if IsArray(answers, g) {
      var els := Without(answers[g].elements, i);
      WithoutView(answers[g].elements, i);
      if els != [] {
        GroupSet(answers, g, els);
      } else {
        PutEffect(answers, g, None, answers - {g});
        assert forall j: nat :: FieldsAt(els, j) == None;
      }
    }
  }

  /** The change finds its own group, or no group at all. */
  predicate FindsPlace(answers: map<string, Entry>, ch: Change) {
    ch.SetField? && !IsArray(answers, ch.group) ==> NoGroupAbove(answers, ch.child)
  }

  predicate Inside(answers: map<string, Entry>, ch: Change) {
    ch.SetField? && IsArray(answers, ch.group)
  }

  lemma ApplyEffect(s: State, ch: Change)
    requires Shaped(s.answers) && CleanEdit(ch) && FindsPlace(s.answers, ch)
    ensures Effect(s.answers, ch, Inside(s.answers, ch), Apply(s, ch).answers)
  {
    match ch
    case SetPlain(_, _, _) => PlainEffect(s.answers, ch);
    case SetField(_, _, _, _, _) =>
      if IsArray(s.answers, ch.group) {
        InsideEffect(s.answers, ch);
      } else {
        OutsideEffect(s.answers, ch);
      }
    case Add(_, _, _) => AddEffect(s.answers, ch);
    case Remove(_, _, _) => RemoveEffect(s.answers, ch);
    case Mark(_, _) =>
  }

  // ---- Two changes in either order ----

  /** Of the dotted prefixes of c only g may hold an array. */
  predicate OnlyGroup(answers: map<string, Entry>, g: string, c: string) {
    forall j | 0 <= j < |c| && c[j] == '.' && c[..j] != g :: !IsArray(answers, c[..j])
  }

  lemma OneGroupFinds(answers: map<string, Entry>, ch: Change)
    requires ch.SetField? ==> OnlyGroup(answers, ch.group, ch.child)
    ensures FindsPlace(answers, ch)
  {
  }

  /** Where the two changes touch different places and neither moves the other, their order does not matter. */
  lemma EffectsCommute(answers: map<string, Entry>, a: Change, ia: bool, b: Change, ib: bool,
                       ra: map<string, Entry>, rab: map<string, Entry>, rb: map<string, Entry>, rba: map<string, Entry>)
    requires CleanEdit(a) && CleanEdit(b) && !Clash(a, b) && !Clash(b, a)
    requires Effect(answers, a, ia, ra) && Effect(ra, b, ib, rab)
    requires Effect(answers, b, ib, rb) && Effect(rb, a, ia, rba)
    ensures rab == rba
  {
    forall k ensures PlainAt(rab, k) == PlainAt(rba, k) {
      PlainsCommute(PlainAt(answers, k), a, ia, b, ib, k);
    }
    forall h, j: nat ensures At(rab, h, j) == At(rba, h, j) {
      CellsCommute(At(answers, h, j), a, ia, b, ib, h, j);
    }
    SameViews(rab, rba);
  }

  /** Keys inside and outside of groups differ. */
  lemma KeysDiffer(a: Change, b: Change)
    requires CleanEdit(a) && CleanEdit(b) && a.SetField?
    ensures b.SetPlain? ==> OutsideKey(a) != b.key
    ensures b.SetField? || b.Add? || b.Remove? ==> OutsideKey(a) != b.group
    ensures b.SetField? && !Clash(a, b) ==> OutsideKey(a) != OutsideKey(b)
  {
    ParseOfBuild(a.child, Some(a.index));
    if b.SetPlain? {
      CleanHasNoBracket(b.key);
    } else if b.SetField? {
      ParseOfBuild(b.child, Some(b.index));
      CleanHasNoBracket(b.group);
    } else if b.Add? || b.Remove? {
      CleanHasNoBracket(b.group);
    }
  }

  lemma BothKeysDiffer(a: Change, b: Change)
    requires CleanEdit(a) && CleanEdit(b)
    ensures a.SetField? && b.SetPlain? ==> OutsideKey(a) != b.key
    ensures a.SetField? && (b.SetField? || b.Add? || b.Remove?) ==> OutsideKey(a) != b.group
    ensures a.SetField? && b.SetField? && !Clash(a, b) ==> OutsideKey(a) != OutsideKey(b)
    ensures b.SetField? && a.SetPlain? ==> OutsideKey(b) != a.key
    ensures b.SetField? && (a.SetField? || a.Add? || a.Remove?) ==> OutsideKey(b) != a.group
  {
    if a.SetField? {
      KeysDiffer(a, b);
    }
    if b.SetField? {
      KeysDiffer(b, a);
    }
  }

  lemma PlainsCommute(plain: Option<Entry>, a: Change, ia: bool, b: Change, ib: bool, k: string)
    requires CleanEdit(a) && CleanEdit(b) && !Clash(a, b) && !Clash(b, a)
    ensures NewPlain(NewPlain(plain, a, ia, k), b, ib, k) == NewPlain(NewPlain(plain, b, ib, k), a, ia, k)
  {
    BothKeysDiffer(a, b);
  }

  lemma CellsCommute(cell: Option<Fields>, a: Change, ia: bool, b: Change, ib: bool, h: string, j: nat)
    requires CleanEdit(a) && CleanEdit(b) && !Clash(a, b) && !Clash(b, a)
    ensures NewCell(NewCell(cell, a, ia, h, j), b, ib, h, j) == NewCell(NewCell(cell, b, ib, h, j), a, ia, h, j)
  {
    BothKeysDiffer(a, b);
    if a.SetField? && b.SetField? && a.group == b.group && a.index == b.index {
      PutsCommute(cell.GetOr(map[]), a.child, a.after, b.child, b.after);
    }
  }

  lemma PutsCommute(m: Fields, c: string, v: Option<Entry>, c': string, v': Option<Entry>)
    requires c != c'
    ensures Put(Put(m, c, v), c', v') == Put(Put(m, c', v'), c, v)
  {
    forall x ensures Get(Put(Put(m, c, v), c', v'), x) == Get(Put(Put(m, c', v'), c, v), x) {
    }
    SameLookups(Put(Put(m, c, v), c', v'), Put(Put(m, c', v'), c, v));
  }

  // ---- A whole batch on some base ----

  ghost predicate NoneAdded(chs: seq<Change>, g: string) {
    forall ch {:trigger ch in chs} | ch in chs && ch.Add? :: ch.group != g
  }

  /** No change of the batch removes element j of group g. */
  ghost predicate Remains(chs: seq<Change>, g: string, j: nat) {
    forall ch {:trigger ch in chs} | ch in chs && ch.Remove? :: !(ch.group == g && ch.index == j)
  }

  /** No group above the field's own, neither in the base nor made by the batch. */
  ghost predicate Alone(base: map<string, Entry>, chs: seq<Change>, ch: Change)
    requires ch.SetField?
  {
    forall j {:trigger ch.child[..j]} | 0 <= j < |ch.child| && ch.child[j] == '.' && ch.child[..j] != ch.group ::
      !IsArray(base, ch.child[..j]) && NoneAdded(chs, ch.child[..j])
  }

  /** No group inside a group, in the base or made by the batch, where it would matter for a field of the batch. */
  ghost predicate Unnested(base: map<string, Entry>, chs: seq<Change>) {
    forall ch {:trigger Alone(base, chs, ch)} | ch in chs && ch.SetField? :: Alone(base, chs, ch)
  }

  ghost predicate Flat(base: map<string, Entry>, chs: seq<Change>) {
    Shaped(base) && IsBatch(chs) && Unnested(base, chs)
  }

  /** A state on the way: every field still finds its own group or none. */
  ghost predicate OnTheWay(chs: seq<Change>, answers: map<string, Entry>) {
    && Shaped(answers)
    && forall ch {:trigger OnlyGroup(answers, ch.group, ch.child)} | ch in chs && ch.SetField? ::
        OnlyGroup(answers, ch.group, ch.child)
  }

  lemma FlatStart(base: map<string, Entry>, chs: seq<Change>)
    requires Flat(base, chs)
    ensures OnTheWay(chs, base)
  {
    forall ch | ch in chs && ch.SetField? ensures OnlyGroup(base, ch.group, ch.child) {
      assert Alone(base, chs, ch);
    }
  }

  /** Only Add makes a group, and only a group of its own. */
  lemma GroupMade(answers: map<string, Entry>, ch: Change, r: map<string, Entry>, p: string)
    requires Shaped(answers) && CleanEdit(ch) && Effect(answers, ch, Inside(answers, ch), r)
    requires IsArray(r, p) && !IsArray(answers, p)
    ensures ch.Add? && ch.group == p
  {
    ArrayHasElement(r, p);
    var j: nat :| At(r, p, j).Some?;
    assert At(answers, p, j).None?;
  }

  lemma OnTheWayStep(base: map<string, Entry>, chs: seq<Change>, s: State, ch: Change)
    requires Flat(base, chs) && OnTheWay(chs, s.answers) && ch in chs
    ensures Effect(s.answers, ch, Inside(s.answers, ch), Apply(s, ch).answers)
    ensures OnTheWay(chs, Apply(s, ch).answers)
  {
    OneGroupFinds(s.answers, ch);
    ApplyEffect(s, ch);
    var r := Apply(s, ch).answers;
    forall f | f in chs && f.SetField? ensures OnlyGroup(r, f.group, f.child) {
      assert OnlyGroup(s.answers, f.group, f.child) && Alone(base, chs, f);
      forall j | 0 <= j < |f.child| && f.child[j] == '.' && f.child[..j] != f.group ensures !IsArray(r, f.child[..j]) {
        if IsArray(r, f.child[..j]) {
          GroupMade(s.answers, ch, r, f.child[..j]);
        }
      }
    }
  }

  lemma {:induction false} OnTheWayRun(base: map<string, Entry>, chs: seq<Change>, s: State, p: seq<Change>)
    requires Flat(base, chs) && OnTheWay(chs, s.answers) && forall ch | ch in p :: ch in chs
    ensures OnTheWay(chs, ApplyAll(s, p).answers)
  {
    if p != [] {
      OnTheWayRun(base, chs, s, p[..|p| - 1]);
      OnTheWayStep(base, chs, ApplyAll(s, p[..|p| - 1]), p[|p| - 1]);
    }
  }

  // ---- When the order does not matter ----

  /**
    The field's group is there to stay: the base has it with an element that the batch leaves, or
    the base does not have it and the batch does not make it.
   */
  ghost predicate Settled(base: map<string, Entry>, chs: seq<Change>, ch: Change)
    requires ch.SetField?
  {
    if IsArray(base, ch.group) then exists j: nat :: At(base, ch.group, j).Some? && Remains(chs, ch.group, j)
    else NoneAdded(chs, ch.group)
  }

  ghost predicate AllSettled(base: map<string, Entry>, chs: seq<Change>) {
    forall ch {:trigger Settled(base, chs, ch)} | ch in chs && ch.SetField? :: Settled(base, chs, ch)
  }

  /** The field's group is there exactly if the base has it, with the elements that the batch leaves. */
  ghost predicate AsInBase(base: map<string, Entry>, chs: seq<Change>, answers: map<string, Entry>, ch: Change)
    requires ch.SetField?
  {
    if IsArray(base, ch.group) then
      forall j: nat {:trigger At(answers, ch.group, j)} | At(base, ch.group, j).Some? && Remains(chs, ch.group, j) ::
        At(answers, ch.group, j).Some?
    else !IsArray(answers, ch.group)
  }

  ghost predicate Steady(base: map<string, Entry>, chs: seq<Change>, answers: map<string, Entry>) {
    && OnTheWay(chs, answers)
    && forall ch {:trigger AsInBase(base, chs, answers, ch)} | ch in chs && ch.SetField? ::
        AsInBase(base, chs, answers, ch)
  }

  lemma SteadyInside(base: map<string, Entry>, chs: seq<Change>, answers: map<string, Entry>, ch: Change)
    requires Steady(base, chs, answers) && AllSettled(base, chs) && ch in chs
    ensures Inside(answers, ch) == Inside(base, ch)
  {
    if ch.SetField? {
      assert AsInBase(base, chs, answers, ch) && Settled(base, chs, ch);
      if IsArray(base, ch.group) {
        var j: nat :| At(base, ch.group, j).Some? && Remains(chs, ch.group, j);
        assert At(answers, ch.group, j).Some?;
      }
    }
  }

  lemma AsInBaseStep(base: map<string, Entry>, chs: seq<Change>, answers: map<string, Entry>, e: Change,
                     r: map<string, Entry>, ch: Change)
    requires Flat(base, chs) && AllSettled(base, chs) && e in chs && ch in chs && ch.SetField?
    requires Shaped(answers) && Effect(answers, e, Inside(answers, e), r) && AsInBase(base, chs, answers, ch)
    ensures AsInBase(base, chs, r, ch)
  {
    var g := ch.group;
    assert Settled(base, chs, ch) && CleanEdit(e) && CleanEdit(ch);
    if IsArray(base, g) {
      BothKeysDiffer(e, ch);
      forall j: nat | At(base, g, j).Some? && Remains(chs, g, j) ensures At(r, g, j).Some? {
        assert At(answers, g, j).Some?;
        assert e.SetPlain? ==> !Clash(e, ch);
      }
    } else if IsArray(r, g) {
      GroupMade(answers, e, r, g);
    }
  }

  lemma SteadyStep(base: map<string, Entry>, chs: seq<Change>, s: State, e: Change)
    requires Flat(base, chs) && AllSettled(base, chs) && Steady(base, chs, s.answers) && e in chs
    ensures Effect(s.answers, e, Inside(base, e), Apply(s, e).answers)
    ensures Steady(base, chs, Apply(s, e).answers)
  {
    OnTheWayStep(base, chs, s, e);
    SteadyInside(base, chs, s.answers, e);
    forall ch | ch in chs && ch.SetField? ensures AsInBase(base, chs, Apply(s, e).answers, ch) {
      assert AsInBase(base, chs, s.answers, ch);
      AsInBaseStep(base, chs, s.answers, e, Apply(s, e).answers, ch);
    }
  }

  lemma SteadyStart(base: map<string, Entry>, chs: seq<Change>)
    requires Flat(base, chs)
    ensures Steady(base, chs, base)
  {
    FlatStart(base, chs);
  }

  lemma {:induction false} SteadyRun(base: map<string, Entry>, chs: seq<Change>, s: State, p: seq<Change>)
    requires Flat(base, chs) && AllSettled(base, chs) && Steady(base, chs, s.answers) && forall ch | ch in p ::
               ch in chs
    ensures Steady(base, chs, ApplyAll(s, p).answers)
  {
    if p != [] {
      SteadyRun(base, chs, s, p[..|p| - 1]);
      SteadyStep(base, chs, ApplyAll(s, p[..|p| - 1]), p[|p| - 1]);
    }
  }

  lemma Swap(base: map<string, Entry>, chs: seq<Change>, s: State, a: Change, b: Change)
    requires Flat(base, chs) && AllSettled(base, chs) && Steady(base, chs, s.answers) && a in chs && b in chs && a != b
    ensures Apply(Apply(s, a), b) == Apply(Apply(s, b), a)
  {
    assert !Clash(a, b) && !Clash(b, a);
    SteadyStep(base, chs, s, a);
    SteadyStep(base, chs, s, b);
    SteadyStep(base, chs, Apply(s, a), b);
    SteadyStep(base, chs, Apply(s, b), a);
    EffectsCommute(s.answers, a, Inside(base, a), b, Inside(base, b),
                   Apply(s, a).answers, Apply(Apply(s, a), b).answers, Apply(s, b).answers,
                       Apply(Apply(s, b), a).answers);
  }

  /** Any change of a listing may come last. */
  lemma {:induction false} MoveToEnd(base: map<string, Entry>, chs: seq<Change>, s: State, p: seq<Change>, k: nat)
    requires Flat(base, chs) && AllSettled(base, chs) && Steady(base, chs, s.answers)
    requires NoDuplicates(p) && k < |p| && forall ch | ch in p :: ch in chs
    ensures ApplyAll(s, p) == Apply(ApplyAll(s, DropAt(p, k)), p[k])
  {
    var front, y := p[..|p| - 1], p[|p| - 1];
    if k == |p| - 1 {
      assert DropAt(p, k) == front;
    } else {
      var less := DropAt(front, k);
      MoveToEnd(base, chs, s, front, k);
      SteadyRun(base, chs, s, less);
      Swap(base, chs, ApplyAll(s, less), p[k], y);
      LastStays(s, p, k);
    }
  }

  lemma LastStays(s: State, p: seq<Change>, k: nat)
    requires k < |p| - 1
    ensures ApplyAll(s, DropAt(p, k)) == Apply(ApplyAll(s, DropAt(p[..|p| - 1], k)), p[|p| - 1])
  {
    var less := DropAt(p[..|p| - 1], k);
    assert DropAt(p, k) == less + [p[|p| - 1]];
    assert (less + [p[|p| - 1]])[..|less|] == less;
  }

  lemma {:induction false} OrderDoesNotMatter(base: map<string, Entry>, chs: seq<Change>, s: State, p: seq<Change>,
                                              q: seq<Change>)
    requires Flat(base, chs) && AllSettled(base, chs) && Steady(base, chs, s.answers)
    requires NoDuplicates(p) && multiset(p) == multiset(q) && forall ch | ch in p :: ch in chs
    ensures ApplyAll(s, p) == ApplyAll(s, q)
    decreases |q|
  {
    assert |p| == |multiset(p)| == |q|;
    if q != [] {
      var x := q[|q| - 1];
      assert x in multiset(p);
      var k :| 0 <= k < |p| && p[k] == x;
      MoveToEnd(base, chs, s, p, k);
      DropLastMatch(q, multiset{}, p, k);
      forall ch | ch in DropAt(p, k) ensures ch in chs {}
      OrderDoesNotMatter(base, chs, s, DropAt(p, k), q[..|q| - 1]);
    }
  }

  // ---- When it does ----

  function Sift(chs: seq<Change>, keep: Change -> bool): (r: seq<Change>)
    ensures forall ch :: ch in r <==> ch in chs && keep(ch)
  {
    if chs == [] then []
    else
      var front := Sift(chs[..|chs| - 1], keep);
      if keep(chs[|chs| - 1]) then front + [chs[|chs| - 1]] else front
  }

  lemma {:induction false} ApplyConcat(s: State, a: seq<Change>, b: seq<Change>)
    ensures ApplyAll(s, a + b) == ApplyAll(ApplyAll(s, a), b)
  {
    if b == [] {
      assert a + b == a;
    } else {
      ApplyConcat(s, a, b[..|b| - 1]);
      assert (a + b)[..|a + b| - 1] == a + b[..|b| - 1];
    }
  }

  /** Nothing that makes element i of g, or that is g's field at i. */
  predicate NotAt(ch: Change, g: string, i: nat) {
    !(InGroupOf(ch, g) && ch.index == i)
  }

  lemma {:induction false} StaysAbsent(base: map<string, Entry>, chs: seq<Change>, s: State, p: seq<Change>,
                                       g: string, i: nat)
    requires Flat(base, chs) && OnTheWay(chs, s.answers) && At(s.answers, g, i).None?
    requires forall ch | ch in p :: ch in chs && NotAt(ch, g, i)
    ensures At(ApplyAll(s, p).answers, g, i).None?
  {
    if p != [] {
      var front, ch := p[..|p| - 1], p[|p| - 1];
      StaysAbsent(base, chs, s, front, g, i);
      OnTheWayRun(base, chs, s, front);
      OnTheWayStep(base, chs, ApplyAll(s, front), ch);
    }
  }

  lemma {:induction false} StaysPresent(base: map<string, Entry>, chs: seq<Change>, s: State, p: seq<Change>, f: Change)
    requires Flat(base, chs) && OnTheWay(chs, s.answers) && f in chs && f.SetField? &&
               At(s.answers, f.group, f.index).Some?
    requires forall ch | ch in p :: ch in chs
    ensures At(ApplyAll(s, p).answers, f.group, f.index).Some?
  {
    if p != [] {
      var front, ch := p[..|p| - 1], p[|p| - 1];
      StaysPresent(base, chs, s, front, f);
      OnTheWayRun(base, chs, s, front);
      OnTheWayStep(base, chs, ApplyAll(s, front), ch);
      assert ch == f || (!Clash(ch, f) && !Clash(f, ch));
      BothKeysDiffer(ch, f);
    }
  }

  /** While g is not a group, its fields land outside and do not make it one. */
  lemma {:induction false} FieldsLandOutside(base: map<string, Entry>, chs: seq<Change>, s: State, p: seq<Change>,
                                             g: string)
    requires Flat(base, chs) && OnTheWay(chs, s.answers) && !IsArray(s.answers, g)
    requires forall ch | ch in p :: ch in chs && ch.SetField? && ch.group == g
    ensures !IsArray(ApplyAll(s, p).answers, g)
  {
    if p != [] {
      var front, ch := p[..|p| - 1], p[|p| - 1];
      FieldsLandOutside(base, chs, s, front, g);
      OnTheWayRun(base, chs, s, front);
      OnTheWayStep(base, chs, ApplyAll(s, front), ch);
      var r := Apply(ApplyAll(s, front), ch).answers;
      if IsArray(r, g) {
        GroupMade(ApplyAll(s, front).answers, ch, r, g);
      }
    }
  }

  /** Element j of g after some removals, from the one before. */
  function CellAfter(cell: Option<Fields>, p: seq<Change>, g: string, j: nat): Option<Fields> {
    if p == [] then cell else NewCell(CellAfter(cell, p[..|p| - 1], g, j), p[|p| - 1], false, g, j)
  }

  lemma {:induction false} RemovalsCell(s: State, p: seq<Change>, g: string, j: nat)
    requires Shaped(s.answers) && forall ch | ch in p :: ch.Remove?
    ensures Shaped(ApplyAll(s, p).answers)
    ensures At(ApplyAll(s, p).answers, g, j) == CellAfter(At(s.answers, g, j), p, g, j)
  {
    if p != [] {
      RemovalsCell(s, p[..|p| - 1], g, j);
      RemoveEffect(ApplyAll(s, p[..|p| - 1]).answers, p[|p| - 1]);
    }
  }

  /** Only what the removals spare is left. */
  lemma {:induction false} RemovalsSpare(cell: Option<Fields>, p: seq<Change>, g: string, j: nat)
    requires forall ch | ch in p :: ch.Remove? && ch.group == g
    requires CellAfter(cell, p, g, j).Some?
    ensures cell.Some? && forall ch | ch in p :: ch.index != j
  {
    if p != [] {
      RemovalsSpare(cell, p[..|p| - 1], g, j);
      assert p == p[..|p| - 1] + [p[|p| - 1]];
    }
  }

  predicate IsRemovalFrom(ch: Change, g: string) {
    ch.Remove? && ch.group == g
  }

  predicate IsFieldAt(ch: Change, g: string, i: nat) {
    ch.SetField? && ch.group == g && ch.index == i
  }

  /** The removals from g first, then the fields of its element i, then the rest. */
  function FieldsEarly(chs: seq<Change>, g: string, i: nat): seq<Change> {
    Sift(chs, ch => IsRemovalFrom(ch, g)) + Sift(chs, ch => IsFieldAt(ch, g, i)) +
    Sift(chs, ch => !IsRemovalFrom(ch, g) && !IsFieldAt(ch, g, i))
  }

  lemma {:induction false} FieldsEarlyCounts(chs: seq<Change>, g: string, i: nat)
    ensures multiset(FieldsEarly(chs, g, i)) == multiset(chs)
  {
    if chs != [] {
      FieldsEarlyCounts(chs[..|chs| - 1], g, i);
      assert chs == chs[..|chs| - 1] + [chs[|chs| - 1]];
    }
  }

  /** In this order the element is never made: when its fields come, there is no group. */
  lemma FieldsEarlyMissIt(b: State, chs: seq<Change>, f: Change)
    requires Flat(b.answers, chs) && f in chs && f.SetField? && !Settled(b.answers, chs, f)
    ensures At(ApplyAll(b, FieldsEarly(chs, f.group, f.index)).answers, f.group, f.index).None?
  {
    var g, i := f.group, f.index;
    var removals, fields := Sift(chs, ch => IsRemovalFrom(ch, g)), Sift(chs, ch => IsFieldAt(ch, g, i));
    var rest := Sift(chs, ch => !IsRemovalFrom(ch, g) && !IsFieldAt(ch, g, i));
    FlatStart(b.answers, chs);
    var s1 := ApplyAll(b, removals);
    OnTheWayRun(b.answers, chs, b, removals);
    EmptiedGroup(b, chs, f, removals);
    var s2 := ApplyAll(s1, fields);
    FieldsLandOutside(b.answers, chs, s1, fields, g);
    OnTheWayRun(b.answers, chs, s1, fields);
    forall ch | ch in rest ensures NotAt(ch, g, i) {
      assert ch == f || (!Clash(ch, f) && !Clash(f, ch));
    }
    StaysAbsent(b.answers, chs, s2, rest, g, i);
    ApplyConcat(b, removals, fields);
    ApplyConcat(b, removals + fields, rest);
  }

  /** If the group is not there to stay, the batch removes every element that the base has in it. */
  lemma SomeRemoval(b: State, chs: seq<Change>, f: Change, j: nat)
    requires f.SetField? && !Settled(b.answers, chs, f) && At(b.answers, f.group, j).Some?
    ensures exists ch :: ch in chs && IsRemovalFrom(ch, f.group) && ch.index == j
  {
    assert !Remains(chs, f.group, j);
  }

  lemma EmptiedGroup(b: State, chs: seq<Change>, f: Change, removals: seq<Change>)
    requires Shaped(b.answers) && f.SetField? && !Settled(b.answers, chs, f)
    requires forall ch :: ch in removals <==> ch in chs && IsRemovalFrom(ch, f.group)
    ensures !IsArray(ApplyAll(b, removals).answers, f.group)
  {
    var g, r := f.group, ApplyAll(b, removals).answers;
    RemovalsCell(b, removals, g, 0);
    forall j: nat ensures At(r, g, j).None? {
      RemovalsCell(b, removals, g, j);
      if At(r, g, j).Some? {
        RemovalsSpare(At(b.answers, g, j), removals, g, j);
        SomeRemoval(b, chs, f, j);
      }
    }
    ArrayHasElement(r, g);
  }

  /** An order in which the field finds its group. */
  lemma FieldFirst(b: State, chs: seq<Change>, f: Change) returns (p: seq<Change>)
    requires Flat(b.answers, chs) && f in chs && f.SetField? && IsArray(b.answers, f.group)
    ensures multiset(p) == multiset(chs) && At(ApplyAll(b, p).answers, f.group, f.index).Some?
  {
    FlatStart(b.answers, chs);
    p := First(chs, f);
    OnTheWayStep(b.answers, chs, b, f);
    StaysPresent(b.answers, chs, Apply(b, f), p[1..], f);
    OneThenRest(b, p);
  }

  lemma AddThenField(b: State, chs: seq<Change>, e: Change, f: Change)
    requires Flat(b.answers, chs) && f in chs && f.SetField? && e in chs && e.Add? && e.group == f.group
    ensures OnTheWay(chs, Apply(Apply(b, e), f).answers)
    ensures At(Apply(Apply(b, e), f).answers, f.group, f.index).Some?
  {
    FlatStart(b.answers, chs);
    OnTheWayStep(b.answers, chs, b, e);
    GroupThere(b.answers, e, Apply(b, e).answers);
    OnTheWayStep(b.answers, chs, Apply(b, e), f);
    FieldThere(Apply(b, e).answers, f, Apply(Apply(b, e), f).answers);
  }

  lemma GroupThere(answers: map<string, Entry>, e: Change, r: map<string, Entry>)
    requires e.Add? && Effect(answers, e, false, r)
    ensures IsArray(r, e.group)
  {
    assert At(r, e.group, e.index).Some?;
  }

  lemma FieldThere(answers: map<string, Entry>, f: Change, r: map<string, Entry>)
    requires f.SetField? && IsArray(answers, f.group) && Effect(answers, f, true, r)
    ensures At(r, f.group, f.index).Some?
  {
  }

  /** An order in which an added element makes the group before the field comes. */
  lemma FieldAfterAdd(b: State, chs: seq<Change>, e: Change, f: Change) returns (p: seq<Change>)
    requires Flat(b.answers, chs) && f in chs && f.SetField? && e in chs && e.Add? && e.group == f.group
    ensures multiset(p) == multiset(chs) && At(ApplyAll(b, p).answers, f.group, f.index).Some?
  {
    p := FirstTwo(chs, e, f);
    AddThenField(b, chs, e, f);
    StaysPresent(b.answers, chs, Apply(Apply(b, e), f), p[2..], f);
    TwoThenRest(b, p);
  }

  lemma FieldLate(b: State, chs: seq<Change>, f: Change) returns (p: seq<Change>)
    requires Flat(b.answers, chs) && f in chs && f.SetField? && !Settled(b.answers, chs, f)
    ensures multiset(p) == multiset(chs) && At(ApplyAll(b, p).answers, f.group, f.index).Some?
  {
    if IsArray(b.answers, f.group) {
      p := FieldFirst(b, chs, f);
    } else {
      var e :| e in chs && e.Add? && e.group == f.group;
      p := FieldAfterAdd(b, chs, e, f);
    }
  }

  lemma OneThenRest(s: State, p: seq<Change>)
    requires p != []
    ensures ApplyAll(s, p) == ApplyAll(Apply(s, p[0]), p[1..])
  {
    ApplyConcat(s, [p[0]], p[1..]);
    assert [p[0]] + p[1..] == p && [p[0]][..0] == [];
    assert ApplyAll(s, [p[0]]) == Apply(ApplyAll(s, []), p[0]);
  }

  lemma TwoThenRest(s: State, p: seq<Change>)
    requires |p| >= 2
    ensures ApplyAll(s, p) == ApplyAll(Apply(Apply(s, p[0]), p[1]), p[2..])
  {
    OneThenRest(s, p);
    OneThenRest(Apply(s, p[0]), p[1..]);
    assert p[1..][1..] == p[2..];
  }

  lemma First(chs: seq<Change>, x: Change) returns (p: seq<Change>)
    requires x in chs
    ensures p != [] && p[0] == x && multiset(p) == multiset(chs) && forall ch | ch in p[1..] :: ch in chs
  {
    var k :| 0 <= k < |chs| && chs[k] == x;
    p := [x] + DropAt(chs, k);
    DropAtCounts(chs, k);
    assert p[1..] == DropAt(chs, k);
  }

  lemma FirstTwo(chs: seq<Change>, x: Change, y: Change) returns (p: seq<Change>)
    requires x in chs && y in chs && x != y
    ensures |p| >= 2 && p[0] == x && p[1] == y && multiset(p) == multiset(chs) && forall ch | ch in p[2..] :: ch in chs
  {
    var q := First(chs, x);
    assert y in multiset(q);
    assert y in q && q == [x] + q[1..];
    var r := First(q[1..], y);
    p := [x] + r;
    assert p[2..] == r[1..];
  }

  // ---- The theorem ----

  /** All orders in which the changes may come back give the same state. */
  ghost predicate OrderFree(b: State, chs: seq<Change>) {
    forall p {:trigger ApplyAll(b, p)} | multiset(p) == multiset(chs) :: ApplyAll(b, p) == ApplyAll(b, chs)
  }

  /**
    Replaying the changes of one save on any base, where no group lies inside another: every order
    gives the same state exactly when every changed field's group is there to stay.
   */
  lemma OrderFreeIff(prev: State, next: State, b: State, chs: seq<Change>)
    requires Normal(prev) && Normal(next) && ListsDiff(prev, next, chs) && Shaped(b.answers) && Unnested(b.answers, chs)
    ensures OrderFree(b, chs) <==> AllSettled(b.answers, chs)
  {
    DiffIsBatch(prev, next, chs);
    if AllSettled(b.answers, chs) {
      SteadyStart(b.answers, chs);
      forall p | multiset(p) == multiset(chs) ensures ApplyAll(b, p) == ApplyAll(b, chs) {
        OrderDoesNotMatter(b.answers, chs, b, chs, p);
      }
    }
    if OrderFree(b, chs) {
      forall f | f in chs && f.SetField? ensures Settled(b.answers, chs, f) {
        if !Settled(b.answers, chs, f) {
          TwoOrdersDiffer(b, chs, f);
        }
      }
    }
  }

  /** The same for the records: under the condition their ties may come back in any order. */
  lemma TiesDoNotMatter(prev: State, next: State, b: State, urn: string, user: string, chs: seq<Change>,
                        p: seq<EditRecord>)
    requires Normal(prev) && Normal(next) && ListsDiff(prev, next, chs) && VersionedUrn(urn)
    requires Shaped(b.answers) && Unnested(b.answers, chs) && AllSettled(b.answers, chs)
    requires multiset(p) == multiset(EncodeAll(urn, user, chs))
    ensures ReplayAll(b, p) == ApplyAll(b, chs)
  {
    var chs' := ReorderImages(p, EncodeAll(urn, user, chs), chs);
    ReorderedDistinct(chs, chs');
    assert p == EncodeAll(urn, user, chs');
    forall ch | ch in chs' ensures CleanChange(ch) {
      DiffIsClean(prev, next, ch);
    }
    ReplayEncoded(b, urn, user, chs');
    OrderFreeIff(prev, next, b, chs);
  }

  lemma TwoOrdersDiffer(b: State, chs: seq<Change>, f: Change)
    requires Flat(b.answers, chs) && f in chs && f.SetField? && !Settled(b.answers, chs, f)
    ensures !OrderFree(b, chs)
  {
    var early := FieldsEarly(chs, f.group, f.index);
    FieldsEarlyCounts(chs, f.group, f.index);
    FieldsEarlyMissIt(b, chs, f);
    var late := FieldLate(b, chs, f);
    assert ApplyAll(b, early) != ApplyAll(b, late);
  }
}
