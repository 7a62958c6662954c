/**
  Rebuilding a version from the edit log: over any run of the store, replaying the rows up to a
  version gives the state that was saved as that version, in whatever order ties come back.
 */
module Rebuild {
  import opened Wrappers
  import opened FieldKeys
  import opened States
  import opened Edits
  import opened Replay
  import opened DiffReplay
  import opened VersionStore

  // ---- Sorted listings of batches with increasing keys ----

  function Join(nums: map<nat, nat>, b: Batch): (r: seq<Row>)
    requires b.rowId in nums
    ensures |r| == |b.edits|
  {
    seq(|b.edits|, i requires 0 <= i < |b.edits| => Row(nums[b.rowId], b.editedAt, b.edits[i]))
  }

  predicate RowIdsIn(nums: map<nat, nat>, log: seq<Batch>) {
    forall i | 0 <= i < |log| :: log[i].rowId in nums
  }

  function JoinAll(nums: map<nat, nat>, log: seq<Batch>): seq<Row>
    requires RowIdsIn(nums, log)
  {
    if log == [] then [] else JoinAll(nums, log[..|log| - 1]) + Join(nums, log[|log| - 1])
  }

  predicate Below(a: Row, version: nat, at: nat) {
    a.version < version || (a.version == version && a.editedAt < at)
  }

  /** In a sorted listing of A and B, where all of A is below the common key of B, A comes first. */
  lemma {:induction false} SplitSorted(rows: seq<Row>, A: seq<Row>, B: seq<Row>, version: nat, at: nat)
    requires RowsSorted(rows) && multiset(rows) == multiset(A) + multiset(B)
    requires forall a | a in A :: Below(a, version, at)
    requires forall b | b in B :: b.version == version && b.editedAt == at
    ensures |rows| == |A| + |B|
    ensures multiset(rows[..|A|]) == multiset(A)
    ensures multiset(rows[|A|..]) == multiset(B)
    decreases |B|
  {
    assert |multiset(rows)| == |A| + |B|;
    if B == [] {
      assert rows[..|A|] == rows;
    } else {
      LastIsFromB(rows, A, B, version, at);
      var k :| 0 <= k < |B| && B[k] == rows[|rows| - 1];
      var front := rows[..|rows| - 1];
      DropLastMatch(rows, multiset(A), B, k);
      SplitSorted(front, A, DropAt(B, k), version, at);
      assert rows[..|A|] == front[..|A|];
      assert rows[|A|..] == front[|A|..] + [B[k]];
      PutBackMatch(front[|A|..], B, k, B[k]);
    }
  }

  lemma LastIsFromB(rows: seq<Row>, A: seq<Row>, B: seq<Row>, version: nat, at: nat)
    requires RowsSorted(rows) && rows != [] && multiset(rows) == multiset(A) + multiset(B) && B != []
    requires forall a | a in A :: Below(a, version, at)
    requires forall b | b in B :: b.version == version && b.editedAt == at
    ensures rows[|rows| - 1] in B
  {
    var x := rows[|rows| - 1];
    assert x in multiset(rows);
    if x !in B {
      assert x in multiset(A);
      assert x in A;
      assert B[0] in multiset(rows);
      var j :| 0 <= j < |rows| && rows[j] == B[0];
    }
  }

  /** Batch confluence: the rows of one save, in any order, replay to the same state. */
  lemma BatchConfluence(prev: State, next: State, urn: string, user: string, chs: seq<Change>, p: seq<EditRecord>)
    requires Normal(prev) && Normal(next) && VersionedUrn(urn) && ListsDiff(prev, next, chs)
    requires multiset(p) == multiset(EncodeAll(urn, user, chs))
    ensures ReplayAll(prev, p) == Replayed(prev, next)
  {
    var chs' := ReorderImages(p, EncodeAll(urn, user, chs), chs);
    ReorderedDistinct(chs, chs');
    assert p == EncodeAll(urn, user, chs');
    RowsThenReplay(prev, next, urn, user, chs');
  }

  // ---- Replaying a log of saves ----

  /** Entry i is a save of a normal state, recorded as its diff with the entry before, and no lossy branch was taken. */
  ghost predicate FaithfulSave(log: seq<Batch>, i: nat)
    requires 0 < i < |log|
  {
    var prev, b := log[i - 1].after, log[i];
    && Normal(b.after) && VersionedUrn(b.urn)
    && ListsDiff(prev, b.after, b.changes)
    && b.edits == EncodeAll(b.urn, b.user, b.changes)
    && Faithful(prev, b.after)
  }

  predicate StartsLog(b: Batch) {
    Normal(b.after) && |b.edits| == 1 && b.edits[0].kind == InitialState(b.after)
  }

  ghost predicate FaithfulLog(log: seq<Batch>) {
    && log != [] && StartsLog(log[0])
    && forall i | 0 < i < |log| :: FaithfulSave(log, i)
  }

  /** Keys along the log: versions never fall and times strictly rise. */
  predicate KeysRise(nums: map<nat, nat>, log: seq<Batch>) {
    && RowIdsIn(nums, log)
    && (forall i, j | 0 <= i < j < |log| :: log[i].editedAt < log[j].editedAt)
    && (forall i, j | 0 <= i < j < |log| :: nums[log[i].rowId] <= nums[log[j].rowId])
  }

  lemma {:induction false} JoinAllBelow(nums: map<nat, nat>, log: seq<Batch>, version: nat, at: nat)
    requires RowIdsIn(nums, log)
    requires forall i | 0 <= i < |log| :: nums[log[i].rowId] <= version && log[i].editedAt < at
    ensures forall a | a in JoinAll(nums, log) :: Below(a, version, at)
  {
    if log != [] {
      JoinAllBelow(nums, log[..|log| - 1], version, at);
    }
  }

  lemma FaithfulPrefix(log: seq<Batch>, n: nat)
    requires FaithfulLog(log) && 0 < n <= |log|
    ensures FaithfulLog(log[..n])
  {
    forall i | 0 < i < n ensures FaithfulSave(log[..n], i) {
      assert FaithfulSave(log, i);
    }
  }

  lemma EditsOfSplit(rows: seq<Row>, n: nat)
    requires n <= |rows|
    ensures EditsOf(rows) == EditsOf(rows[..n]) + EditsOf(rows[n..])
  {
  }

  lemma {:induction false} EditsOfCounts(rows: seq<Row>, rows': seq<Row>)
    requires multiset(rows) == multiset(rows')
    ensures multiset(EditsOf(rows)) == multiset(EditsOf(rows'))
  {
    var e := EditsOf(rows');
    var q := ReorderImages(rows, rows', e);
    forall i | 0 <= i < |rows| ensures q[i] == EditsOf(rows)[i] {
      var k :| 0 <= k < |e| && q[i] == e[k] && rows[i] == rows'[k];
    }
    assert q == EditsOf(rows);
  }

  lemma EditsOfJoin(nums: map<nat, nat>, b: Batch)
    requires b.rowId in nums
    ensures EditsOf(Join(nums, b)) == b.edits
  {
  }

  lemma NormalAlong(log: seq<Batch>, i: nat)
    requires FaithfulLog(log) && i < |log|
    ensures Normal(log[i].after)
  {
    if i > 0 {
      assert FaithfulSave(log, i);
    }
  }

  /** The last save of a log, replayed on top of the saves before it. */
  lemma ReplayLast(nums: map<nat, nat>, b: Batch, prev: State, rows: seq<Row>, n: nat)
    requires b.rowId in nums && n <= |rows|
    requires Normal(prev) && Normal(b.after) && VersionedUrn(b.urn)
    requires ListsDiff(prev, b.after, b.changes) && b.edits == EncodeAll(b.urn, b.user, b.changes)
    requires ReplayAll(EMPTY, EditsOf(rows[..n])) == prev
    requires multiset(rows[n..]) == multiset(Join(nums, b))
    ensures ReplayAll(EMPTY, EditsOf(rows)) == Replayed(prev, b.after)
  {
    EditsOfSplit(rows, n);
    ReplayConcat(EMPTY, EditsOf(rows[..n]), EditsOf(rows[n..]));
    EditsOfCounts(rows[n..], Join(nums, b));
    EditsOfJoin(nums, b);
    BatchConfluence(prev, b.after, b.urn, b.user, b.changes, EditsOf(rows[n..]));
  }

  /** A sorted listing of a log's rows consists of a listing of all but the last save, then the last save. */
  lemma SplitLast(nums: map<nat, nat>, log: seq<Batch>, rows: seq<Row>)
    requires log != [] && KeysRise(nums, log)
    requires RowsSorted(rows) && multiset(rows) == multiset(JoinAll(nums, log))
    ensures var front, last := JoinAll(nums, log[..|log| - 1]), Join(nums, log[|log| - 1]);
            && |rows| == |front| + |last|
            && multiset(rows[..|front|]) == multiset(front)
            && multiset(rows[|front|..]) == multiset(last)
            && RowsSorted(rows[..|front|])
  {
    var b := log[|log| - 1];
    JoinAllBelow(nums, log[..|log| - 1], nums[b.rowId], b.editedAt);
    SplitSorted(rows, JoinAll(nums, log[..|log| - 1]), Join(nums, b), nums[b.rowId], b.editedAt);
  }

  lemma ReplayFirst(nums: map<nat, nat>, log: seq<Batch>, rows: seq<Row>)
    requires FaithfulLog(log) && RowIdsIn(nums, log) && |log| == 1 && multiset(rows) == multiset(JoinAll(nums, log))
    ensures rows != [] && ReplayAll(EMPTY, EditsOf(rows)) == log[0].after
  {
    assert log[..0] == [] && JoinAll(nums, log) == JoinAll(nums, log[..0]) + Join(nums, log[0]);
    assert JoinAll(nums, log) == Join(nums, log[0]);
    ReplayStart(nums, log[0], rows);
  }

  /** Replaying any sorted listing of the rows of a faithful log gives the state saved last. */
  lemma {:induction false} ReplayLog(nums: map<nat, nat>, log: seq<Batch>, rows: seq<Row>)
    requires FaithfulLog(log) && KeysRise(nums, log)
    requires RowsSorted(rows) && multiset(rows) == multiset(JoinAll(nums, log))
    ensures rows != []
    ensures ReplayAll(EMPTY, EditsOf(rows)) == log[|log| - 1].after
    decreases |log|
  {
    if |log| == 1 {
      ReplayFirst(nums, log, rows);
    } else {
      var front := log[..|log| - 1];
      var n := |JoinAll(nums, front)|;
      SplitLast(nums, log, rows);
      FaithfulPrefix(log, |log| - 1);
      KeysRisePrefix(nums, log, |log| - 1);
      ReplayLog(nums, front, rows[..n]);
      ReplayFaithfulSave(nums, log, rows, n);
    }
  }

  lemma ReplayFaithfulSave(nums: map<nat, nat>, log: seq<Batch>, rows: seq<Row>, n: nat)
    requires FaithfulLog(log) && RowIdsIn(nums, log) && |log| > 1 && n <= |rows|
    requires ReplayAll(EMPTY, EditsOf(rows[..n])) == log[|log| - 2].after
    requires multiset(rows[n..]) == multiset(Join(nums, log[|log| - 1]))
    ensures ReplayAll(EMPTY, EditsOf(rows)) == log[|log| - 1].after
  {
    var prev, b := log[|log| - 2].after, log[|log| - 1];
    assert FaithfulSave(log, |log| - 1);
    NormalAlong(log, |log| - 2);
    ReplayLast(nums, b, prev, rows, n);
    ReplayedIsNewIff(prev, b.after);
  }

  lemma ReplayStart(nums: map<nat, nat>, b: Batch, rows: seq<Row>)
    requires StartsLog(b) && b.rowId in nums && multiset(rows) == multiset(Join(nums, b))
    ensures rows != [] && ReplayAll(EMPTY, EditsOf(rows)) == b.after
  {
    EditsOfCounts(rows, Join(nums, b));
    EditsOfJoin(nums, b);
    var es := EditsOf(rows);
    assert |es| == |multiset(es)| == |multiset(b.edits)| == 1;
    assert es[0] in multiset(b.edits);
    assert es[..0] == [];
    assert ReplayAll(EMPTY, es) == ApplyEdit(EMPTY, es[0]);
  }

  // ---- Up to a version ----

  /** How many saves of the log are in rows of version v or less. */
  function Cut(nums: map<nat, nat>, log: seq<Batch>, v: nat): (n: nat)
    requires RowIdsIn(nums, log)
    ensures n <= |log|
    ensures n > 0 ==> nums[log[n - 1].rowId] <= v
    ensures forall i | n <= i < |log| :: nums[log[i].rowId] > v
  {
    if log == [] then 0
    else if nums[log[|log| - 1].rowId] <= v then |log|
    else Cut(nums, log[..|log| - 1], v)
  }

  lemma {:induction false} SelectAppend(versions: map<nat, VersionRow>, edits: seq<EditRow>, b: Batch, k: nat, v: nat)
    requires b.rowId in versions && k <= |b.edits|
    ensures Select(versions, edits + RowsOf(b.rowId, b.editedAt, b.edits)[..k], v)
         == Select(versions, edits, v) + if versions[b.rowId].version <= v then Join(Numbers(versions), b)[..k] else []
  {
    var more := RowsOf(b.rowId, b.editedAt, b.edits);
    var all := edits + more[..k];
    if k == 0 {
      assert all == edits;
    } else {
      SelectAppend(versions, edits, b, k - 1, v);
      assert all[..|all| - 1] == edits + more[..k - 1];
      assert Join(Numbers(versions), b)[..k] == Join(Numbers(versions),
                                                     b)[..k - 1] + [Join(Numbers(versions), b)[k - 1]];
    }
  }

  lemma KeysRisePrefix(nums: map<nat, nat>, log: seq<Batch>, n: nat)
    requires KeysRise(nums, log) && n <= |log|
    ensures KeysRise(nums, log[..n])
  {
  }

  lemma SelectBatch(versions: map<nat, VersionRow>, edits: seq<EditRow>, b: Batch, v: nat)
    requires b.rowId in versions
    ensures Select(versions, edits + RowsOf(b.rowId, b.editedAt, b.edits), v)
         == Select(versions, edits, v) + if versions[b.rowId].version <= v then Join(Numbers(versions), b) else []
  {
    SelectAppend(versions, edits, b, |b.edits|, v);
    assert RowsOf(b.rowId, b.editedAt, b.edits)[..|b.edits|] == RowsOf(b.rowId, b.editedAt, b.edits);
    assert Join(Numbers(versions), b)[..|b.edits|] == Join(Numbers(versions), b);
  }

  /** The selected rows are those of the saves up to the cut. */
  lemma {:induction false} SelectIsJoin(versions: map<nat, VersionRow>, log: seq<Batch>, v: nat)
    requires KeysRise(Numbers(versions), log)
    ensures Select(versions, LogRows(log), v) == JoinAll(Numbers(versions), log[..Cut(Numbers(versions), log, v)])
  {
    var nums := Numbers(versions);
    if log != [] {
      var front, b := log[..|log| - 1], log[|log| - 1];
      KeysRisePrefix(nums, log, |log| - 1);
      SelectIsJoin(versions, front, v);
      SelectBatch(versions, LogRows(front), b, v);
      assert nums[b.rowId] == versions[b.rowId].version;
      if nums[b.rowId] <= v {
        CutOfAll(nums, front, v);
        assert front[..|front|] == front;
        assert log[..|log|] == log;
      } else {
        assert front[..Cut(nums, front, v)] == log[..Cut(nums, front, v)];
      }
    }
  }

  lemma CutOfAll(nums: map<nat, nat>, log: seq<Batch>, v: nat)
    requires RowIdsIn(nums, log) && forall i | 0 <= i < |log| :: nums[log[i].rowId] <= v
    ensures Cut(nums, log, v) == |log|
  {
  }

  lemma KeysRiseInInv(s: Sys)
    requires Inv(s)
    ensures KeysRise(Numbers(s.db.versions), s.log)
  {
  }

  /** The state that was saved last in a row of version v or less. */
  function SavedAt(s: Sys, v: nat): State
    requires Inv(s) && 1 <= v
  {
    var n := Cut(Numbers(s.db.versions), s.log, v);
    if n == 0 then EMPTY else s.log[n - 1].after
  }

  lemma CutIsPositive(s: Sys, v: nat)
    requires Inv(s) && 1 <= v
    ensures Cut(Numbers(s.db.versions), s.log, v) > 0
  {
    assert Numbers(s.db.versions)[s.log[0].rowId] <= v;
  }

  /** What the database may return for v is a sorted listing of the saves up to the cut. */
  lemma ReturnedIsJoin(db: Db, log: seq<Batch>, v: nat, rows: seq<Row>)
    requires KeysRise(Numbers(db.versions), log) && db.edits == LogRows(log)
    requires MayReturn(db, v, rows)
    ensures var nums := Numbers(db.versions);
            var prefix := log[..Cut(nums, log, v)];
            KeysRise(nums, prefix) && RowsSorted(rows) && multiset(rows) == multiset(JoinAll(nums, prefix))
  {
    SelectIsJoin(db.versions, log, v);
    KeysRisePrefix(Numbers(db.versions), log, Cut(Numbers(db.versions), log, v));
  }

  lemma RebuildOfPrefix(db: Db, log: seq<Batch>, v: nat, rows: seq<Row>)
    requires KeysRise(Numbers(db.versions), log) && db.edits == LogRows(log)
    requires FaithfulLog(log) && Cut(Numbers(db.versions), log, v) > 0
    requires MayReturn(db, v, rows)
    ensures rows != [] && Rebuilt(db, rows) == log[Cut(Numbers(db.versions), log, v) - 1].after
  {
    var n := Cut(Numbers(db.versions), log, v);
    ReturnedIsJoin(db, log, v, rows);
    FaithfulPrefix(log, n);
    ReplayLog(Numbers(db.versions), log[..n], rows);
  }

  /**
    Rebuilding v gives the state saved last in a row of version v or less, whatever order the database
    returns ties in.
   */
  lemma RebuildUpTo(s: Sys, v: nat, rows: seq<Row>)
    requires Inv(s) && FaithfulLog(s.log) && 1 <= v
    requires MayReturn(s.db, v, rows)
    ensures rows != [] && Rebuilt(s.db, rows) == SavedAt(s, v)
  {
    KeysRiseInInv(s);
    CutIsPositive(s, v);
    RebuildOfPrefix(s.db, s.log, v, rows);
  }

  // ---- Which save that is ----

  /** A version row of number v or less has no greater number than the last save before the cut. */
  lemma BelowCut(nums: map<nat, nat>, log: seq<Batch>, v: nat, r: nat)
    requires RowIdsIn(nums, log) && Logged(log, r) && r in nums && nums[r] <= v
    requires forall i, j | 0 <= i < j < |log| :: nums[log[i].rowId] <= nums[log[j].rowId]
    ensures var n := Cut(nums, log, v); n > 0 && nums[r] <= nums[log[n - 1].rowId]
  {
    var i :| 0 <= i < |log| && log[i].rowId == r;
    assert i < Cut(nums, log, v);
  }

  /** The cut lies just after the save that gave its row the greatest number up to v. */
  lemma CutIsNumber(nums: map<nat, nat>, current: nat, log: seq<Batch>, committedAt: nat, v: nat)
    requires VersionsOk(nums, current) && LogOk(nums, current, log, committedAt) && RowsLogged(nums, log) && 1 <= v
    ensures var n := Cut(nums, log, v);
            && 0 < n <= v && nums[log[n - 1].rowId] == n
            && forall r | r in nums && nums[r] <= v :: nums[r] <= n
  {
    var n := Cut(nums, log, v);
    assert nums[log[0].rowId] == 1;
    assert NumberKept(nums, log, n - 1);
    forall r | r in nums && nums[r] <= v ensures nums[r] <= n {
      assert Logged(log, r);
      BelowCut(nums, log, v, r);
    }
  }

  lemma NoVersionBetween(db: Db, n: nat, v: nat)
    requires forall r | r in db.versions && Numbers(db.versions)[r] <= v :: Numbers(db.versions)[r] <= n
    ensures forall m | n < m <= v :: !HasVersion(db, m)
  {
  }

  /** The greatest existing version up to v, and the commit that made it. */
  lemma NearestVersion(s: Sys, v: nat) returns (n: nat)
    requires Inv(s) && RowsLogged(Numbers(s.db.versions), s.log) && 1 <= v
    ensures 1 <= n <= v && n <= |s.log| && HasVersion(s.db, n) && forall m | n < m <= v :: !HasVersion(s.db, m)
    ensures s.log[n - 1].expected == n - 1 && SavedAt(s, v) == s.log[n - 1].after
  {
    var nums := Numbers(s.db.versions);
    CutIsNumber(nums, s.db.currentVersion, s.log, s.committedAt, v);
    n := Cut(nums, s.log, v);
    NumberNames(s.db, s.log[n - 1].rowId, n);
    NoVersionBetween(s.db, n, v);
  }

  /**
    Time travel: in a store with a faithful log, rebuilding an existing version v gives the state
    of the save that was committed as version v.
   */
  lemma RebuildIsSaved(s: Sys, v: nat, rows: seq<Row>)
    requires Inv(s) && RowsLogged(Numbers(s.db.versions), s.log) && FaithfulLog(s.log) && HasVersion(s.db, v)
    requires MayReturn(s.db, v, rows)
    ensures 1 <= v <= |s.log| && s.log[v - 1].expected == v - 1
    ensures rows != [] && Rebuilt(s.db, rows) == s.log[v - 1].after
  {
    var r :| r in s.db.versions && s.db.versions[r].version == v;
    assert Numbers(s.db.versions)[r] == v;
    RebuildUpTo(s, v, rows);
    var n := NearestVersion(s, v);
  }

  /**
    A version number whose row a later save has taken over and renumbered rebuilds to the state of
    the nearest version below it that still exists.
   */
  lemma RebuildOfLostVersion(s: Sys, v: nat, rows: seq<Row>) returns (n: nat)
    requires Inv(s) && RowsLogged(Numbers(s.db.versions), s.log) && FaithfulLog(s.log)
    requires 1 <= v <= s.db.currentVersion && !HasVersion(s.db, v) && MayReturn(s.db, v, rows)
    ensures 1 <= n < v && HasVersion(s.db, n) && forall m | n < m <= v :: !HasVersion(s.db, m)
    ensures n <= |s.log| && rows != [] && Rebuilt(s.db, rows) == s.log[n - 1].after
  {
    RebuildUpTo(s, v, rows);
    n := NearestVersion(s, v);
  }
}
