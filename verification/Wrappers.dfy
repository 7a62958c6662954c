/** The result of a lookup that may find nothing. */
module Wrappers {
  datatype Option<+T> = None | Some(value: T) {
    function GetOr(default: T): T {
      if Some? then value else default
    }
  }

  /** The map's answer for a key, when it has one. */
  function Get<K, V>(m: map<K, V>, k: K): Option<V> {
    if k in m then Some(m[k]) else None
  }

  /** JavaScript's "assign, or delete when null". */
  function Put<K(!new), V>(m: map<K, V>, k: K, v: Option<V>): (r: map<K, V>)
    ensures forall x :: Get(r, x) == if x == k then v else Get(m, x)
  {
    match v
    case Some(value) => m[k := value]
    case None => m - {k}
  }

  /** Two maps that answer every lookup alike are the same map. */
  lemma SameLookups<K(!new), V(!new)>(m: map<K, V>, n: map<K, V>)
    requires forall k :: Get(m, k) == Get(n, k)
    ensures m == n
  {
    forall k ensures k in m <==> k in n {
      assert Get(m, k) == Get(n, k);
    }
    forall k | k in m ensures k in n && m[k] == n[k] {
      assert Get(m, k) == Get(n, k);
    }
  }

  predicate NoDuplicates<T(==)>(s: seq<T>) {
    forall i, j | 0 <= i < j < |s| :: s[i] != s[j]
  }

  lemma NoDuplicatesConcat<T>(a: seq<T>, b: seq<T>)
    requires NoDuplicates(a) && NoDuplicates(b)
    requires forall x | x in a :: x !in b
    ensures NoDuplicates(a + b)
  {
    var s := a + b;
    forall i, j | 0 <= i < j < |s| ensures s[i] != s[j] {
      if i < |a| <= j {
        assert s[i] in a && s[j] == b[j - |a|];
      }
    }
  }

  function DropAt<T>(s: seq<T>, k: nat): (r: seq<T>)
    requires k < |s|
    ensures |r| == |s| - 1
  {
    s[..k] + s[k + 1..]
  }

  lemma DropAtCounts<T>(s: seq<T>, k: nat)
    requires k < |s|
    ensures multiset(s) == multiset(DropAt(s, k)) + multiset{s[k]}
  {
    assert s == s[..k] + [s[k]] + s[k + 1..];
  }

  lemma RepeatedCounts<T>(s: seq<T>, i: nat, j: nat)
    requires i < j < |s| && s[i] == s[j]
    ensures multiset(s)[s[i]] >= 2
  {
    DropAtCounts(s, j);
    assert DropAt(s, j)[i] == s[i];
    assert s[i] in multiset(DropAt(s, j));
  }

  lemma {:induction false} DistinctCounts<T>(s: seq<T>, x: T)
    requires NoDuplicates(s)
    ensures multiset(s)[x] <= 1
  {
    if s != [] {
      var front := s[..|s| - 1];
      assert s == front + [s[|s| - 1]];
      DistinctCounts(front, x);
    }
  }

  /** A reordering of a listing without duplicates lists the same things, once each. */
  lemma ReorderedDistinct<T>(s: seq<T>, s': seq<T>)
    requires NoDuplicates(s) && multiset(s) == multiset(s')
    ensures NoDuplicates(s')
    ensures forall x :: x in s' <==> x in s
  {
    forall x ensures x in s' <==> x in s {
      assert x in multiset(s') <==> x in multiset(s);
    }
    forall i, j | 0 <= i < j < |s'| ensures s'[i] != s'[j] {
      DistinctCounts(s, s'[i]);
      if s'[i] == s'[j] {
        RepeatedCounts(s', i, j);
      }
    }
  }

  lemma Cancel<T>(a: multiset<T>, b: multiset<T>, x: T)
    requires a + multiset{x} == b + multiset{x}
    ensures a == b
  {
    assert a + multiset{x} - multiset{x} == a;
    assert b + multiset{x} - multiset{x} == b;
  }

  /** Removing the last of s and one equal occurrence from t keeps their contents equal. */
  lemma DropLastMatch<T>(s: seq<T>, a: multiset<T>, t: seq<T>, k: nat)
    requires s != [] && k < |t| && t[k] == s[|s| - 1]
    requires multiset(s) == a + multiset(t)
    ensures multiset(s[..|s| - 1]) == a + multiset(DropAt(t, k))
  {
    var x := s[|s| - 1];
    var front := s[..|s| - 1];
    assert s == front + [x];
    DropAtCounts(t, k);
    Cancel(multiset(front), a + multiset(DropAt(t, k)), x);
  }

  lemma PutBackMatch<T>(s: seq<T>, t: seq<T>, k: nat, x: T)
    requires k < |t| && t[k] == x && multiset(s) == multiset(DropAt(t, k))
    ensures multiset(s + [x]) == multiset(t)
  {
    DropAtCounts(t, k);
  }

  /** If p reorders the images of s, then it is the images of a reordering of s. */
  lemma {:induction false} ReorderImages<T, U>(p: seq<U>, images: seq<U>, s: seq<T>) returns (s': seq<T>)
    requires |images| == |s| && multiset(p) == multiset(images)
    ensures multiset(s') == multiset(s) && |s'| == |p|
    ensures forall i | 0 <= i < |p| :: exists k :: 0 <= k < |s| && s'[i] == s[k] && p[i] == images[k]
    decreases |s|
  {
    assert |p| == |multiset(p)| == |multiset(images)| == |s|;
    if s == [] {
      s' := [];
    } else {
      var x := p[|p| - 1];
      assert x in multiset(p);
      assert x in images;
      var k :| 0 <= k < |images| && images[k] == x;
      DropLastMatch(p, multiset{}, images, k);
      var front := ReorderImages(p[..|p| - 1], DropAt(images, k), DropAt(s, k));
      s' := front + [s[k]];
      PutBackMatch(front, s, k, s[k]);
      forall i | 0 <= i < |p| ensures exists k' :: 0 <= k' < |s| && s'[i] == s[k'] && p[i] == images[k'] {
        if i < |p| - 1 {
          var j :| 0 <= j < |s| - 1 && front[i] == DropAt(s, k)[j] && p[..|p| - 1][i] == DropAt(images, k)[j];
          var k' := if j < k then j else j + 1;
          assert s'[i] == s[k'] && p[i] == images[k'];
        }
      }
    }
  }
}
