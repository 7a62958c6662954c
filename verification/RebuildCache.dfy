/** The bounded cache of rebuilds: a Map in insertion order, whose oldest key is evicted first. */
module RebuildCache {
  import opened Wrappers

  const MAX_ENTRIES := 64
  const MAX_ENTRY_BYTES := 512 * 1024

  // ---- A JavaScript Map as the sequence of its entries in insertion order ----

  datatype Entry<V> = Entry(key: string, value: V)

  predicate UniqueKeys<V>(es: seq<Entry<V>>) {
    NoDuplicates(Keys(es))
  }

  function Lookup<V>(es: seq<Entry<V>>, k: string): Option<V> {
    if es == [] then None
    else if es[|es| - 1].key == k then Some(es[|es| - 1].value)
    else Lookup(es[..|es| - 1], k)
  }

  function Delete<V>(es: seq<Entry<V>>, k: string): seq<Entry<V>> {
    if es == [] then []
    else if es[|es| - 1].key == k then Delete(es[..|es| - 1], k)
    else Delete(es[..|es| - 1], k) + [es[|es| - 1]]
  }

  // ---- The specification: the uses so far, newest last ----

  /** A get that hit or a set that was kept; a set carries the value. */
  datatype Use<V> = Touched(key: string) | Stored(key: string, value: V)

  /** The keys of a list of uses, each at the position of its last use. */
  function Recent<V>(uses: seq<Use<V>>): (ks: seq<string>) {
    if uses == [] then [] else Drop(Recent(uses[..|uses| - 1]), uses[|uses| - 1].key) + [uses[|uses| - 1].key]
  }

  function Drop(ks: seq<string>, k: string): seq<string> {
    if ks == [] then []
    else if ks[|ks| - 1] == k then Drop(ks[..|ks| - 1], k)
    else Drop(ks[..|ks| - 1], k) + [ks[|ks| - 1]]
  }

  /** The value stored last under a key. */
  function LastStored<V>(uses: seq<Use<V>>, k: string): Option<V> {
    if uses == [] then None
    else
      var u := uses[|uses| - 1];
      if u.Stored? && u.key == k then Some(u.value) else LastStored(uses[..|uses| - 1], k)
  }

  /** The last n elements, or all of them. */
  function Last<T>(s: seq<T>, n: nat): seq<T> {
    if |s| <= n then s else s[|s| - n..]
  }

  function Keys<V>(es: seq<Entry<V>>): (ks: seq<string>)
    ensures |ks| == |es|
  {
    seq(|es|, i requires 0 <= i < |es| => es[i].key)
  }

  /** The cache holds the most recently used keys, oldest first, with the values stored last. */
  ghost predicate Holds<V>(es: seq<Entry<V>>, uses: seq<Use<V>>) {
    && Keys(es) == Last(Recent(uses), MAX_ENTRIES)
    && forall i | 0 <= i < |es| :: LastStored(uses, es[i].key) == Some(es[i].value)
  }

  // ---- Lemmas ----

  lemma {:induction false} DropKeeps(ks: seq<string>, k: string)
    ensures forall x :: x in Drop(ks, k) <==> x in ks && x != k
    ensures |Drop(ks, k)| <= |ks|
    ensures k !in ks ==> Drop(ks, k) == ks
  {
    if ks != [] {
      DropKeeps(ks[..|ks| - 1], k);
      assert ks == ks[..|ks| - 1] + [ks[|ks| - 1]];
    }
  }

  lemma {:induction false} DropUnique(ks: seq<string>, k: string)
    requires NoDuplicates(ks)
    ensures NoDuplicates(Drop(ks, k))
    ensures k in ks ==> |Drop(ks, k)| == |ks| - 1
  {
    if ks != [] {
      var front := ks[..|ks| - 1];
      DropUnique(front, k);
      DropKeeps(front, k);
      assert ks == front + [ks[|ks| - 1]];
      var d := Drop(front, k);
      assert forall i | 0 <= i < |d| :: d[i] in d;
      assert ks[|ks| - 1] !in front;
    }
  }

  lemma {:induction false} RecentUnique<V>(uses: seq<Use<V>>)
    ensures NoDuplicates(Recent(uses))
  {
    if uses != [] {
      RecentUnique(uses[..|uses| - 1]);
      DropKeeps(Recent(uses[..|uses| - 1]), uses[|uses| - 1].key);
      DropUnique(Recent(uses[..|uses| - 1]), uses[|uses| - 1].key);
    }
  }

  lemma {:induction false} DeleteIsDrop<V>(es: seq<Entry<V>>, k: string)
    ensures Keys(Delete(es, k)) == Drop(Keys(es), k)
    ensures forall e | e in Delete(es, k) :: e in es && e.key != k
  {
    if es != [] {
      var front := es[..|es| - 1];
      DeleteIsDrop(front, k);
      assert Keys(es)[..|es| - 1] == Keys(front);
    }
  }

  lemma {:induction false} LookupIn<V>(es: seq<Entry<V>>, k: string)
    ensures Lookup(es, k).Some? <==> k in Keys(es)
    ensures Lookup(es, k).Some? ==> Entry(k, Lookup(es, k).value) in es
  {
    if es != [] {
      var front := es[..|es| - 1];
      LookupIn(front, k);
      assert Keys(es) == Keys(front) + [es[|es| - 1].key];
    }
  }

  lemma {:induction false} DropOfConcat(a: seq<string>, b: seq<string>, k: string)
    ensures Drop(a + b, k) == Drop(a, k) + Drop(b, k)
  {
    if b == [] {
      assert a + b == a;
    } else {
      assert (a + b)[..|a + b| - 1] == a + b[..|b| - 1];
      DropOfConcat(a, b[..|b| - 1], k);
    }
  }

  lemma LastOfConcat<T>(a: seq<T>, b: seq<T>, n: nat)
    requires |b| >= n
    ensures Last(a + b, n) == Last(b, n)
  {
  }

  /** Moving a key to the end and keeping the last n commutes with keeping the last n. */
  lemma LastOfMoved(ks: seq<string>, k: string, n: nat)
    requires NoDuplicates(ks) && n > 0
    ensures Last(Drop(Last(ks, n), k) + [k], n) == Last(Drop(ks, k) + [k], n)
  {
    if |ks| > n {
      var cut := |ks| - n;
      var a, b := ks[..cut], ks[cut..];
      assert ks == a + b;
      DropOfConcat(a, b, k);
      DropUnique(b, k);
      DropKeeps(b, k);
      assert |Drop(b, k)| + 1 >= n;
      assert Drop(ks, k) + [k] == Drop(a, k) + (Drop(b, k) + [k]);
      LastOfConcat(Drop(a, k), Drop(b, k) + [k], n);
    }
  }

  /** Oldest entries out until the bound holds: the last n entries stay. */
  lemma LastKeys<V>(es: seq<Entry<V>>, n: nat)
    ensures Keys(Last(es, n)) == Last(Keys(es), n)
    ensures forall e | e in Last(es, n) :: e in es
  {
  }

  /** Inserting a key at the newest end keeps the cache in step with the uses. */
  lemma InsertHolds<V>(es: seq<Entry<V>>, uses: seq<Use<V>>, u: Use<V>, value: V)
    requires Holds(es, uses)
    requires LastStored(uses + [u], u.key) == Some(value)
    ensures Holds(Last(Delete(es, u.key) + [Entry(u.key, value)], MAX_ENTRIES), uses + [u])
  {
    var k := u.key;
    var uses' := uses + [u];
    assert uses'[..|uses|] == uses;
    RecentUnique(uses);
    var moved := Delete(es, k) + [Entry(k, value)];
    DeleteIsDrop(es, k);
    LastOfMoved(Recent(uses), k, MAX_ENTRIES);
    LastKeys(moved, MAX_ENTRIES);
    assert Keys(moved) == Drop(Keys(es), k) + [k];
    var r := Last(moved, MAX_ENTRIES);
    forall i | 0 <= i < |r| ensures LastStored(uses', r[i].key) == Some(r[i].value) {
      assert r[i] in moved;
      if r[i].key != k {
        assert r[i] in Delete(es, k) && r[i] in es;
      }
    }
  }

  lemma TouchedKeepsValue<V>(es: seq<Entry<V>>, uses: seq<Use<V>>, k: string, v: V)
    requires Holds(es, uses) && Entry(k, v) in es
    ensures LastStored(uses + [Touched(k)], k) == Some(v)
  {
    assert (uses + [Touched(k)])[..|uses|] == uses;
  }

  class Cache<V(==)> {
    /** The entries of the Map, oldest insertion first. */
    var entries: seq<Entry<V>>
    /** The hits and the kept sets so far. */
    ghost var uses: seq<Use<V>>

    ghost predicate Valid()
      reads this
    {
      Holds(entries, uses)
    }

    constructor ()
      ensures Valid() && entries == [] && uses == []
    {
      entries := [];
      uses := [];
    }

    /** A hit returns the value stored last and makes the key the newest; a miss changes nothing. */
    method Get(key: string) returns (value: Option<V>)
      requires Valid()
      modifies this
      ensures Valid()
      ensures value.Some? <==> key in Last(Recent(old(uses)), 64)
      ensures value.Some? ==> value == LastStored(old(uses), key) && uses == old(uses) + [Touched(key)]
      ensures value.None? ==> uses == old(uses) && entries == old(entries)
    {
      value := Lookup(entries, key);
      LookupIn(entries, key);
      if value.Some? {
        TouchedKeepsValue(entries, uses, key, value.value);
        HeldIsBounded(entries, uses);
        InsertHolds(entries, uses, Touched(key), value.value);
        LookedUpFits(entries, key, value.value);
        entries := Delete(entries, key);
        entries := entries + [Entry(key, value.value)];
        uses := uses + [Touched(key)];
      }
    }

    /** Values over the size cap are not kept; others become the newest, and the oldest keys go. */
    method Set(key: string, value: V, bytes: nat)
      requires Valid()
      modifies this
      ensures Valid()
      ensures uses == if bytes > 512 * 1024 then old(uses) else old(uses) + [Stored(key, value)]
      ensures bytes > 512 * 1024 ==> entries == old(entries)
    {
      if bytes > MAX_ENTRY_BYTES {
        return;
      }
      assert (uses + [Stored(key, value)])[..|uses|] == uses;
      InsertHolds(entries, uses, Stored(key, value), value);
      entries := Delete(entries, key);
      entries := entries + [Entry(key, value)];
      ghost var all := entries;
      while |entries| > MAX_ENTRIES
        invariant uses == old(uses)
        invariant |entries| <= |all| && entries == all[|all| - |entries|..]
        invariant |all| >= MAX_ENTRIES ==> |entries| >= MAX_ENTRIES
        invariant |all| < MAX_ENTRIES ==> entries == all
        decreases |entries|
      {
        entries := entries[1..];
      }
      uses := uses + [Stored(key, value)];
    }
  }

  lemma LookedUpFits<V>(es: seq<Entry<V>>, k: string, v: V)
    requires |es| <= MAX_ENTRIES && k in Keys(es) && UniqueKeys(es)
    ensures Last(Delete(es, k) + [Entry(k, v)], MAX_ENTRIES) == Delete(es, k) + [Entry(k, v)]
  {
    DeleteIsDrop(es, k);
    DropUnique(Keys(es), k);
  }

  /** A held cache never exceeds its bound, holds each key once, and answers exactly for its recent keys. */
  lemma HeldIsBounded<V>(es: seq<Entry<V>>, uses: seq<Use<V>>)
    requires Holds(es, uses)
    ensures |es| <= 64 && UniqueKeys(es)
    ensures forall k :: Lookup(es, k) == if k in Last(Recent(uses), 64) then LastStored(uses, k) else None
  {
    RecentUnique(uses);
    forall i, j | 0 <= i < j < |es| ensures es[i].key != es[j].key {
      assert Keys(es)[i] != Keys(es)[j];
    }
    forall k ensures Lookup(es, k) == if k in Last(Recent(uses), MAX_ENTRIES) then LastStored(uses, k) else None {
      LookupIn(es, k);
    }
  }
}
