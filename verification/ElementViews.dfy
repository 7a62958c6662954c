/** What the array operations of the replay do to a sorted group, index by index. */
module ElementViews {
  import opened Wrappers
  import opened States
  import opened Replay

  lemma FieldsAtNone(els: seq<Element>, i: nat)
    ensures FieldsAt(els, i).None? <==> FindElement(els, i).None?
  {
    FieldsAtHas(els, i);
  }

  lemma {:induction false} InsertStableView(s: seq<Element>, e: Element)
    requires StrictlySorted(s) && FieldsAt(s, e.index).None?
    ensures var r := InsertStable(s, e);
            && |r| == |s| + 1 && StrictlySorted(r)
            && r[|r| - 1].index == (if s != [] && s[|s| - 1].index > e.index then s[|s| - 1].index else e.index)
    ensures forall j: nat ::
              FieldsAt(InsertStable(s, e), j) == if j == e.index then Some(e.fields) else FieldsAt(s, j)
  {
    var r := InsertStable(s, e);
    if s == [] || s[|s| - 1].index <= e.index {
      assert r[..|r| - 1] == s;
    } else {
      InsertStableView(s[..|s| - 1], e);
      assert r[..|r| - 1] == InsertStable(s[..|s| - 1], e);
    }
  }

  lemma {:induction false} SortOfSorted(s: seq<Element>)
    requires StrictlySorted(s)
    ensures SortByIndex(s) == s
  {
    if s != [] {
      SortOfSorted(s[..|s| - 1]);
      assert s == s[..|s| - 1] + [s[|s| - 1]];
    }
  }

  /** Pushing a new element and sorting adds exactly that element. */
  lemma PushSortView(els: seq<Element>, e: Element)
    requires StrictlySorted(els) && FieldsAt(els, e.index).None?
    ensures StrictlySorted(SortByIndex(els + [e])) && SortByIndex(els + [e]) != []
    ensures forall j: nat ::
              FieldsAt(SortByIndex(els + [e]), j) == if j == e.index then Some(e.fields) else FieldsAt(els, j)
  {
    SortOfSorted(els);
    assert (els + [e])[..|els|] == els;
    InsertStableView(els, e);
  }

  lemma {:induction false} UpdateView(els: seq<Element>, p: nat, f: Fields)
    requires StrictlySorted(els) && p < |els|
    ensures var r := els[p := Element(els[p].index, f)];
            && StrictlySorted(r)
            && forall j: nat :: FieldsAt(r, j) == if j == els[p].index then Some(f) else FieldsAt(els, j)
  {
    var r := els[p := Element(els[p].index, f)];
    if p < |els| - 1 {
      UpdateView(els[..|els| - 1], p, f);
      assert r[..|r| - 1] == els[..|els| - 1][p := Element(els[p].index, f)];
    } else {
      assert r[..|r| - 1] == els[..|els| - 1];
      FieldsAtHas(els[..|els| - 1], els[p].index);
    }
  }

  /** Setting a field of an element that is there changes that field and nothing else. */
  lemma SetInElementsView(els: seq<Element>, i: nat, c: string, v: Option<Entry>)
    requires StrictlySorted(els) && FieldsAt(els, i).Some?
    ensures var r := SetInElements(els, i, c, v);
            && StrictlySorted(r) && |r| == |els|
            && forall j: nat :: FieldsAt(r, j) ==
                                if j == i then Some(Put(FieldsAt(els, i).value, c, v)) else FieldsAt(els, j)
  {
    FieldsAtNone(els, i);
    var p := FindElement(els, i).value;
    FieldsAtSorted(els, p);
    UpdateView(els, p, Put(els[p].fields, c, v));
  }

  lemma {:induction false} WithoutView(els: seq<Element>, i: nat)
    requires StrictlySorted(els)
    ensures var r := Without(els, i);
            && StrictlySorted(r)
            && (r != [] ==> els != [] && r[|r| - 1].index <= els[|els| - 1].index)
            && forall j: nat :: FieldsAt(r, j) == if j == i then None else FieldsAt(els, j)
  {
    if els != [] {
      var front := els[..|els| - 1];
      WithoutView(front, i);
      var last, rest := els[|els| - 1], Without(front, i);
      if last.index == i {
        FieldsAtHas(front, i);
      } else {
        var r := Without(els, i);
        assert r == rest + [last] && r[..|r| - 1] == rest;
        forall j: nat ensures FieldsAt(r, j) == if j == i then None else FieldsAt(els, j) {
          assert FieldsAt(r, j) == if last.index == j then Some(last.fields) else FieldsAt(rest, j);
        }
      }
    }
  }

  lemma NonEmptyHasIndex(els: seq<Element>)
    requires els != []
    ensures FieldsAt(els, els[|els| - 1].index).Some?
  {
  }

  /** The nearest group above a direct child of a group is that group. */
  lemma {:induction false} NearestGroupOfChild(answers: map<string, Entry>, c: string, g: string, n: nat)
    requires DirectChild(c, g) && IsArray(answers, g)
    requires |g| < n <= |c|
    ensures NearestGroup(answers, c, n) == Some(g)
  {
    if n > |g| + 1 {
      assert c[|g| + 1..][n - 2 - |g|] == c[n - 1];
      NearestGroupOfChild(answers, c, g, n - 1);
    }
  }
}
