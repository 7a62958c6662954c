/** Whole runs of the version store: the cached state is what the log replays to, and cached rebuilds stay right. */
module StoreRuns {
  import opened Wrappers
  import opened InstanceIds
  import opened FieldKeys
  import opened States
  import opened Edits
  import opened Replay
  import opened DiffReplay
  import opened VersionStore
  import opened Rebuild

  /** The refinement: every rebuild of the current version gives the cached state. */
  ghost predicate Refines(s: Sys) {
    forall rows | MayReturn(s.db, s.db.currentVersion, rows) :: Rebuilt(s.db, rows) == s.db.cachedState
  }

  // ---- Runs that avoid the lossy branches ----

  /**
    The guards under which the code keeps the log and the cached state together: saves are in
    normal form under a versioned URN, commits take no lossy branch of the diff, and the
    overwrite without edits meets the version it compared with.
   */
  predicate Careful(s: Sys, step: Step) {
    match step
    case Receive(_, save) => Normal(save.state) && VersionedUrn(save.urn)
    case Commit(id, _) =>
      id in s.requests && s.requests[id].Started? && s.db.currentVersion == s.requests[id].save.expected ==>
        Faithful(s.db.cachedState, s.requests[id].save.state)
    case Overwrite(id) =>
      id in s.requests && s.requests[id].Overwriting? ==>
        && s.db.currentVersion == s.requests[id].save.expected
        && Faithful(s.db.cachedState, s.requests[id].save.state)
    case _ => true
  }

  ghost predicate IsCarefulRun(run: seq<Sys>, steps: seq<Step>) {
    && IsRun(run, steps)
    && Normal(run[0].db.cachedState)
    && forall i | 0 <= i < |steps| :: Careful(run[i], steps[i])
  }

  predicate SaveIsGood(save: Save) {
    Normal(save.state) && VersionedUrn(save.urn)
  }

  /** A request whose lock can still succeed carries a diff against the state that is still cached. */
  ghost predicate RequestIsGood(current: nat, cached: State, r: Request) {
    match r
    case Received(save) => SaveIsGood(save)
    case Compared(save, _, changes) => SaveIsGood(save) && DiffIsCurrent(current, cached, save, changes)
    case Planned(save, _, changes, _) => SaveIsGood(save) && DiffIsCurrent(current, cached, save, changes)
    case Started(save, _, changes, _, _) => SaveIsGood(save) && DiffIsCurrent(current, cached, save, changes)
    case Overwriting(save) => SaveIsGood(save) && DiffIsCurrent(current, cached, save, [])
    case _ => true
  }

  /** Saves expect versions that exist already, and compared with the cached state if theirs is still current. */
  ghost predicate DiffIsCurrent(current: nat, cached: State, save: Save, changes: seq<Change>) {
    && save.expected <= current
    && (save.expected == current ==> ListsDiff(cached, save.state, changes))
  }

  ghost predicate RequestsGood(s: Sys) {
    forall id | id in s.requests :: RequestIsGood(s.db.currentVersion, s.db.cachedState, s.requests[id])
  }

  ghost predicate Good(s: Sys) {
    && FaithfulLog(s.log)
    && s.db.cachedState == s.log[|s.log| - 1].after
    && RequestsGood(s)
  }

  lemma GoodInit(s: Sys)
    requires Init(s) && Normal(s.db.cachedState)
    ensures Good(s)
  {
  }

  lemma CachedIsNormal(s: Sys)
    requires Good(s)
    ensures Normal(s.db.cachedState)
  {
    NormalAlong(s.log, |s.log| - 1);
  }

  /** A step that keeps the cached state, the version and the log keeps the rest if what it writes is sound. */
  lemma GoodSame(s: Sys, s': Sys)
    requires Good(s)
    requires s'.db.cachedState == s.db.cachedState && s'.db.currentVersion == s.db.currentVersion && s'.log == s.log
    requires forall id | id in s'.requests :: Get(s.requests, id) == Some(s'.requests[id]) ||
                                              RequestIsGood(s.db.currentVersion, s.db.cachedState, s'.requests[id])
    ensures Good(s')
  {
    forall id | id in s'.requests
      ensures RequestIsGood(s'.db.currentVersion, s'.db.cachedState, s'.requests[id]) {
      if Get(s.requests, id) == Some(s'.requests[id]) {
        assert RequestIsGood(s.db.currentVersion, s.db.cachedState, s.requests[id]);
      }
    }
  }

  lemma MovedIsGood(s: Sys, step: Step, now: nat, after: Request)
    requires RequestsGood(s) && OnlyMovesRequest(step) && Moves(s, step, now, after) && Careful(s, step)
    ensures RequestIsGood(s.db.currentVersion, s.db.cachedState, after)
  {
    if step.id in s.requests {
      assert RequestIsGood(s.db.currentVersion, s.db.cachedState, s.requests[step.id]);
    }
  }

  lemma GoodOverwrite(s: Sys, id: nat, s': Sys)
    requires Good(s) && OverwriteStep(s, id, s') && Careful(s, Overwrite(id))
    ensures Good(s') && s'.db == s.db
  {
    var save := s.requests[id].save;
    assert RequestIsGood(s.db.currentVersion, s.db.cachedState, s.requests[id]);
    CachedIsNormal(s);
    NoChangesSameState(s.db.cachedState, save.state);
    assert s'.db == s.db;
    GoodSame(s, s');
  }

  lemma LogExtends(log: seq<Batch>, b: Batch)
    requires FaithfulLog(log)
    requires Normal(b.after) && VersionedUrn(b.urn) && ListsDiff(log[|log| - 1].after, b.after, b.changes)
    requires b.edits == EncodeAll(b.urn, b.user, b.changes) && Faithful(log[|log| - 1].after, b.after)
    ensures FaithfulLog(log + [b])
  {
    var log' := log + [b];
    forall i | 0 < i < |log'| ensures FaithfulSave(log', i) {
      if i < |log| {
        assert FaithfulSave(log, i);
      }
    }
  }

  lemma StaleAfterCommit(current: nat, cached: State, cached': State, r: Request)
    requires RequestIsGood(current, cached, r)
    ensures RequestIsGood(current + 1, cached', r)
  {
  }

  lemma GoodAccepted(s: Sys, id: nat, newId: nat, s': Sys)
    requires Good(s) && Accepts(s, Commit(id, newId)) && s' == AfterCommit(s, id, newId, s'.now)
    requires Faithful(s.db.cachedState, s.requests[id].save.state)
    ensures Good(s')
  {
    var r := s.requests[id];
    assert RequestIsGood(s.db.currentVersion, s.db.cachedState, r);
    var b := NewBatch(r, newId);
    LogExtends(s.log, b);
    assert s'.log == s.log + [b];
    forall i | i in s'.requests
      ensures RequestIsGood(s'.db.currentVersion, s'.db.cachedState, s'.requests[i]) {
      if i != id {
        assert RequestIsGood(s.db.currentVersion, s.db.cachedState, s.requests[i]);
        StaleAfterCommit(s.db.currentVersion, s.db.cachedState, s'.db.cachedState, s.requests[i]);
      }
    }
  }

  lemma GoodMove(s: Sys, step: Step, s': Sys)
    requires Good(s) && Careful(s, step) && OnlyMovesRequest(step)
    requires step.id in s'.requests && Moves(s, step, s'.now, s'.requests[step.id])
    requires s' == WithRequest(s, step.id, s'.requests[step.id], s'.now)
    ensures Good(s')
  {
    MovedIsGood(s, step, s'.now, s'.requests[step.id]);
    GoodSame(s, s');
  }

  lemma GoodCommit(s: Sys, id: nat, newId: nat, s': Sys)
    requires Good(s) && CommitStep(s, id, newId, s') && Careful(s, Commit(id, newId))
    ensures Good(s')
  {
    if s.db.currentVersion == s.requests[id].save.expected {
      GoodAccepted(s, id, newId, s');
    } else {
      GoodSame(s, s');
    }
  }

  lemma GoodStep(s: Sys, step: Step, s': Sys)
    requires Good(s) && NextStep(s, step, s') && Careful(s, step)
    ensures Good(s')
  {
    if OnlyMovesRequest(step) {
      GoodMove(s, step, s');
    } else if step.Overwrite? {
      GoodOverwrite(s, step.id, s');
    } else if step.Commit? {
      GoodCommit(s, step.id, step.newId, s');
    } else {
      GoodSame(s, s');
    }
  }

  lemma {:induction false} GoodRun(run: seq<Sys>, steps: seq<Step>, n: nat)
    requires IsCarefulRun(run, steps) && n <= |steps|
    ensures Good(run[n])
  {
    if n == 0 {
      GoodInit(run[0]);
    } else {
      GoodRun(run, steps, n - 1);
      GoodStep(run[n - 1], steps[n - 1], run[n]);
    }
  }

  lemma CurrentIsSavedLast(s: Sys)
    requires Inv(s)
    ensures SavedAt(s, s.db.currentVersion) == s.log[|s.log| - 1].after
  {
    var nums := Numbers(s.db.versions);
    assert nums[s.log[|s.log| - 1].rowId] <= s.db.currentVersion;
  }

  lemma GoodRefines(s: Sys)
    requires Inv(s) && Good(s)
    ensures Refines(s)
  {
    forall rows | MayReturn(s.db, s.db.currentVersion, rows) ensures Rebuilt(s.db, rows) == s.db.cachedState {
      RebuildUpTo(s, s.db.currentVersion, rows);
      CurrentIsSavedLast(s);
    }
  }

  /**
    Whole-run refinement: in every state that a careful run reaches, replaying the edit log up to
    the current version gives the cached state, over any interleaving of any number of saves.
   */
  lemma WholeRunRefinement(run: seq<Sys>, steps: seq<Step>, n: nat)
    requires IsCarefulRun(run, steps) && n <= |steps|
    ensures Refines(run[n])
  {
    InvRun(run, steps, n);
    GoodRun(run, steps, n);
    GoodRefines(run[n]);
  }

  // ---- Cached rebuilds ----

  /** A possible answer of a fresh, uncached rebuild of v. */
  ghost predicate IsReplay(s: Sys, v: nat, result: State) {
    exists rows :: MayReturn(s.db, v, rows) && rows != [] && result == ReplayAll(EMPTY, EditsOf(rows))
  }

  /** Every cached rebuild, and every rebuild about to be cached, is what a fresh replay may give now. */
  ghost predicate CacheTrue(s: Sys) {
    && (forall v | v in s.cache :: IsReplay(s, v, s.cache[v]))
    && (forall id | id in s.requests && s.requests[id].Loaded? && s.requests[id].immutable ::
          IsReplay(s, s.requests[id].version, s.requests[id].result))
  }

  lemma ReplayStaysTrue(s: Sys, s': Sys, v: nat, result: State)
    requires IsReplay(s, v, result)
    requires Select(s'.db.versions, s'.db.edits, v) == Select(s.db.versions, s.db.edits, v)
    ensures IsReplay(s', v, result)
  {
    var rows :| MayReturn(s.db, v, rows) && rows != [] && result == ReplayAll(EMPTY, EditsOf(rows));
    assert MayReturn(s'.db, v, rows);
  }

  /** What a step may add to the loaded rebuilds. */
  lemma LoadedIsReplay(s: Sys, step: Step, s': Sys, id: nat)
    requires NextStep(s, step, s')
    requires id in s'.requests && s'.requests[id].Loaded? && s'.requests[id].immutable
    ensures Get(s.requests, id) == Some(s'.requests[id]) || IsReplay(s, s'.requests[id].version, s'.requests[id].result)
  {
    if step.Load? {
      assert MayReturn(s.db, s.requests[step.id].version, step.rows);
    }
  }

  /** What a step may add to the cache. */
  lemma CachedIsReplay(s: Sys, step: Step, s': Sys, v: nat)
    requires CacheTrue(s) && NextStep(s, step, s') && v in s'.cache
    ensures IsReplay(s, v, s'.cache[v])
  {
    if step.Show? {
      assert ShowStep(s, step.id, s');
    }
  }

  lemma CacheBelow(s: Sys, step: Step, s': Sys, v: nat)
    requires Inv(s) && NextStep(s, step, s') && v in s'.cache
    ensures v < s.db.currentVersion
  {
    if v !in s.cache {
      assert ShowStep(s, step.id, s');
      assert RequestOk(s, s.requests[step.id]);
    }
  }

  /** A rebuild of a frozen version was checked, or was loaded after it was checked. */
  lemma ImmutableOrigin(s: Sys, step: Step, s': Sys, id: nat)
    requires NextStep(s, step, s') && id in s'.requests && Frozen(s'.requests[id])
    ensures id in s.requests
    ensures || s.requests[id] == s'.requests[id]
            || (Frozen(s.requests[id]) && s.requests[id].version == s'.requests[id].version)
            || (HasVersion(s.db, s'.requests[id].version) && s'.requests[id].version < s.db.currentVersion)
  {
  }

  predicate Frozen(r: Request) {
    (r.Checked? || r.Loaded?) && r.immutable
  }

  lemma FrozenBelow(s: Sys, step: Step, s': Sys, id: nat)
    requires Inv(s) && NextStep(s, step, s') && id in s'.requests && Frozen(s'.requests[id])
    ensures s'.requests[id].version < s.db.currentVersion
  {
    ImmutableOrigin(s, step, s', id);
    assert RequestOk(s, s.requests[id]);
  }

  lemma CacheStep(s: Sys, step: Step, s': Sys)
    requires Inv(s) && CacheTrue(s) && NextStep(s, step, s')
    ensures CacheTrue(s')
  {
    forall v | v in s'.cache ensures IsReplay(s', v, s'.cache[v]) {
      CachedIsReplay(s, step, s', v);
      CacheBelow(s, step, s', v);
      FrozenStep(s, step, s', v);
      ReplayStaysTrue(s, s', v, s'.cache[v]);
    }
    forall id | id in s'.requests && s'.requests[id].Loaded? && s'.requests[id].immutable
      ensures IsReplay(s', s'.requests[id].version, s'.requests[id].result) {
      LoadedStep(s, step, s', id);
    }
  }

  lemma LoadedStep(s: Sys, step: Step, s': Sys, id: nat)
    requires Inv(s) && CacheTrue(s) && NextStep(s, step, s')
    requires id in s'.requests && s'.requests[id].Loaded? && s'.requests[id].immutable
    ensures IsReplay(s', s'.requests[id].version, s'.requests[id].result)
  {
    var r := s'.requests[id];
    LoadedIsReplay(s, step, s', id);
    FrozenBelow(s, step, s', id);
    FrozenStep(s, step, s', r.version);
    ReplayStaysTrue(s, s', r.version, r.result);
  }

  /** Cached rebuilds never need invalidation: over any run, a hit is what a fresh replay may give. */
  lemma {:induction false} CacheRun(run: seq<Sys>, steps: seq<Step>, n: nat)
    requires IsRun(run, steps) && n <= |steps|
    ensures CacheTrue(run[n])
  {
    if n > 0 {
      CacheRun(run, steps, n - 1);
      InvRun(run, steps, n - 1);
      CacheStep(run[n - 1], steps[n - 1], run[n]);
    }
  }

  /** Every version that is cached, or about to be, exists. */
  ghost predicate CacheNamed(s: Sys) {
    && (forall v | v in s.cache :: HasVersion(s.db, v))
    && (forall id {:trigger RequestNamed(s, s.requests[id])} | id in s.requests :: RequestNamed(s, s.requests[id]))
  }

  ghost predicate RequestNamed(s: Sys, r: Request) {
    match r
    case Checked(v, immutable) => immutable ==> HasVersion(s.db, v)
    case Loaded(v, immutable, _) => immutable ==> HasVersion(s.db, v)
    case _ => true
  }

  lemma NamedRequestStep(s: Sys, step: Step, s': Sys, id: nat)
    requires Inv(s) && CacheNamed(s) && NextStep(s, step, s') && id in s'.requests
    ensures RequestNamed(s', s'.requests[id])
  {
    if Frozen(s'.requests[id]) {
      ImmutableOrigin(s, step, s', id);
      FrozenBelow(s, step, s', id);
      assert RequestNamed(s, s.requests[id]);
      VersionStays(s, step, s', s'.requests[id].version);
    }
  }

  lemma NamedStep(s: Sys, step: Step, s': Sys)
    requires Inv(s) && CacheNamed(s) && NextStep(s, step, s')
    ensures CacheNamed(s')
  {
    forall v | v in s'.cache ensures HasVersion(s'.db, v) {
      CacheBelow(s, step, s', v);
      if v !in s.cache {
        assert ShowStep(s, step.id, s') && RequestNamed(s, s.requests[step.id]);
      }
      VersionStays(s, step, s', v);
    }
    forall id | id in s'.requests ensures RequestNamed(s', s'.requests[id]) {
      NamedRequestStep(s, step, s', id);
    }
  }

  lemma {:induction false} NamedRun(run: seq<Sys>, steps: seq<Step>, n: nat)
    requires IsRun(run, steps) && n <= |steps|
    ensures CacheNamed(run[n])
  {
    if n > 0 {
      NamedRun(run, steps, n - 1);
      InvRun(run, steps, n - 1);
      NamedStep(run[n - 1], steps[n - 1], run[n]);
    }
  }

  /**
    Over careful runs a cached version still exists, and a hit equals every fresh replay of it: the
    state of the save that was committed as that version.
   */
  lemma CacheHitIsSaved(run: seq<Sys>, steps: seq<Step>, n: nat, v: nat, rows: seq<Row>)
    requires IsCarefulRun(run, steps) && n <= |steps|
    requires v in run[n].cache && MayReturn(run[n].db, v, rows)
    ensures HasVersion(run[n].db, v) && 1 <= v <= |run[n].log| && run[n].log[v - 1].expected == v - 1
    ensures run[n].cache[v] == Rebuilt(run[n].db, rows) == run[n].log[v - 1].after
  {
    InvRun(run, steps, n);
    GoodRun(run, steps, n);
    CacheRun(run, steps, n);
    NamedRun(run, steps, n);
    RowsLoggedRun(run, steps, n);
    var rows' :| MayReturn(run[n].db, v, rows') && rows' != [] && run[n].cache[v] == ReplayAll(EMPTY, EditsOf(rows'));
    RebuildIsSaved(run[n], v, rows);
    RebuildIsSaved(run[n], v, rows');
  }

  /** Over careful runs every existing version rebuilds to the state of the save that was committed as that version. */
  lemma VersionIsSaved(run: seq<Sys>, steps: seq<Step>, n: nat, v: nat, rows: seq<Row>)
    requires IsCarefulRun(run, steps) && n <= |steps|
    requires HasVersion(run[n].db, v) && MayReturn(run[n].db, v, rows)
    ensures 1 <= v <= |run[n].log| && run[n].log[v - 1].expected == v - 1
    ensures Rebuilt(run[n].db, rows) == run[n].log[v - 1].after
  {
    InvRun(run, steps, n);
    GoodRun(run, steps, n);
    RowsLoggedRun(run, steps, n);
    RebuildIsSaved(run[n], v, rows);
  }

  // ---- Exactly when a write keeps the refinement ----

  lemma {:induction false} JoinAllSorted(nums: map<nat, nat>, log: seq<Batch>)
    requires KeysRise(nums, log)
    ensures RowsSorted(JoinAll(nums, log))
  {
    if log != [] {
      var b := log[|log| - 1];
      JoinAllSorted(nums, log[..|log| - 1]);
      JoinAllBelow(nums, log[..|log| - 1], nums[b.rowId], b.editedAt);
      var front := JoinAll(nums, log[..|log| - 1]);
      assert forall i | 0 <= i < |front| :: front[i] in front;
    }
  }

  /** The rows in commit order are one of the possible answers. */
  lemma CommitOrderMayReturn(db: Db, log: seq<Batch>, v: nat)
    requires KeysRise(Numbers(db.versions), log) && db.edits == LogRows(log)
    ensures MayReturn(db, v, Select(db.versions, db.edits, v))
  {
    var n := Cut(Numbers(db.versions), log, v);
    SelectIsJoin(db.versions, log, v);
    KeysRisePrefix(Numbers(db.versions), log, n);
    JoinAllSorted(Numbers(db.versions), log[..n]);
  }

  /** What an accepted commit of a good request adds to the log. */
  lemma CommitAdds(s: Sys, id: nat, newId: nat, s': Sys)
    requires Good(s) && CommitStep(s, id, newId, s') && Accepts(s, Commit(id, newId))
    ensures var save, b := s.requests[id].save, NewBatch(s.requests[id], newId);
            && s'.log == s.log + [b] && s'.db.cachedState == save.state == b.after
            && Normal(b.after) && VersionedUrn(b.urn)
            && ListsDiff(s.log[|s.log| - 1].after, b.after, b.changes)
            && b.edits == EncodeAll(b.urn, b.user, b.changes)
  {
    assert RequestIsGood(s.db.currentVersion, s.db.cachedState, s.requests[id]);
  }

  /** After any commit on a good state, rebuilding gives the replayed diff. */
  lemma RebuildAfterCommit(s: Sys, id: nat, newId: nat, s': Sys, rows: seq<Row>)
    requires Inv(s') && Good(s) && CommitStep(s, id, newId, s') && Accepts(s, Commit(id, newId))
    requires MayReturn(s'.db, s'.db.currentVersion, rows)
    ensures rows != [] && Rebuilt(s'.db, rows) == Replayed(s.db.cachedState, s.requests[id].save.state)
  {
    CommitAdds(s, id, newId, s');
    KeysRiseInInv(s');
    ReturnedIsJoin(s'.db, s'.log, s'.db.currentVersion, rows);
    CurrentCut(s');
    AfterLastSave(Numbers(s'.db.versions), s.log, NewBatch(s.requests[id], newId), rows);
  }

  lemma CurrentCut(s: Sys)
    requires Inv(s)
    ensures s.log[..Cut(Numbers(s.db.versions), s.log, s.db.currentVersion)] == s.log
  {
    assert Numbers(s.db.versions)[s.log[|s.log| - 1].rowId] <= s.db.currentVersion;
  }

  lemma AfterLastSave(nums: map<nat, nat>, log: seq<Batch>, b: Batch, rows: seq<Row>)
    requires FaithfulLog(log) && KeysRise(nums, log + [b])
    requires Normal(b.after) && VersionedUrn(b.urn) && ListsDiff(log[|log| - 1].after, b.after, b.changes)
    requires b.edits == EncodeAll(b.urn, b.user, b.changes)
    requires RowsSorted(rows) && multiset(rows) == multiset(JoinAll(nums, log + [b]))
    ensures rows != [] && ReplayAll(EMPTY, EditsOf(rows)) == Replayed(log[|log| - 1].after, b.after)
  {
    var log' := log + [b];
    assert log'[..|log|] == log;
    SplitLast(nums, log', rows);
    var n := |JoinAll(nums, log)|;
    assert KeysRise(nums, log) by {
      forall i | 0 <= i < |log| ensures log[i].rowId in nums { assert log'[i].rowId in nums; }
      forall i, j | 0 <= i < j < |log| ensures log[i].editedAt < log[j].editedAt &&
          nums[log[i].rowId] <= nums[log[j].rowId] {
        assert log'[i].editedAt < log'[j].editedAt;
      }
    }
    ReplayLog(nums, log, rows[..n]);
    NormalAlong(log, |log| - 1);
    ReplayLast(nums, b, log[|log| - 1].after, rows, n);
  }

  /** An accepted commit keeps the refinement exactly when its diff takes no lossy branch. */
  lemma CommitRefinesIff(s: Sys, id: nat, newId: nat, s': Sys)
    requires Inv(s) && Good(s) && NextStep(s, Commit(id, newId), s') && Accepts(s, Commit(id, newId))
    ensures Refines(s') <==> Faithful(s.db.cachedState, s.requests[id].save.state)
  {
    InvStep(s, Commit(id, newId), s');
    var prev, next := s.db.cachedState, s.requests[id].save.state;
    CommitAdds(s, id, newId, s');
    CachedIsNormal(s);
    ReplayedIsNewIff(prev, next);
    KeysRiseInInv(s');
    CommitOrderMayReturn(s'.db, s'.log, s'.db.currentVersion);
    forall rows | MayReturn(s'.db, s'.db.currentVersion, rows)
      ensures Rebuilt(s'.db, rows) == Replayed(prev, next) {
      RebuildAfterCommit(s, id, newId, s', rows);
    }
  }

  lemma OverwriteRefines(s: Sys, state: State, s': Sys)
    requires Inv(s) && Good(s) && s'.db == s.db.(cachedState := state)
    ensures Refines(s') <==> state == s.db.cachedState
  {
    var v := s.db.currentVersion;
    GoodRefines(s);
    KeysRiseInInv(s);
    CommitOrderMayReturn(s.db, s.log, v);
    var rows := Select(s.db.versions, s.db.edits, v);
    RebuildUpTo(s, v, rows);
    assert MayReturn(s'.db, v, rows) && Rebuilt(s'.db, rows) == Rebuilt(s.db, rows);
    if state == s.db.cachedState {
      assert s'.db == s.db;
    }
  }

  /**
    The overwrite without edits keeps the refinement exactly when comparing again, at the write, finds
    nothing lost.
   */
  lemma OverwriteRefinesIff(s: Sys, id: nat, s': Sys)
    requires Inv(s) && Good(s) && NextStep(s, Overwrite(id), s')
    ensures var state := s.requests[id].save.state;
            Refines(s') <==> ListsDiff(s.db.cachedState, state, []) && Faithful(s.db.cachedState, state)
  {
    var state := s.requests[id].save.state;
    assert RequestIsGood(s.db.currentVersion, s.db.cachedState, s.requests[id]);
    CachedIsNormal(s);
    OverwriteRefines(s, state, s');
    if ListsDiff(s.db.cachedState, state, []) && Faithful(s.db.cachedState, state) {
      NoChangesSameState(s.db.cachedState, state);
    } else {
      SameStateNoChanges(state);
    }
  }
}
