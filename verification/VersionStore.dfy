/**
  The version store of one assessment as a state machine. Every request is split at its awaits:
  the read of the assessment row, the read of the newest version row, the start of the
  transaction (which fixes the timestamp of its rows), and the transaction itself. Steps of
  different requests interleave freely, and the clock moves at every step.
 */
module VersionStore {
  import opened Wrappers
  import opened FieldKeys
  import opened States
  import opened Edits
  import opened Replay

  const CONSOLIDATION_WINDOW_MS := 15 * 60 * 1000

  // ---- Rows ----

  /** An empty description stands for none: the source only tests whether there is one. */
  datatype VersionRow = VersionRow(version: nat, createdBy: string, createdAt: nat, description: string)

  datatype EditRow = EditRow(versionId: nat, editedAt: nat, edit: EditRecord)

  datatype Db = Db(currentVersion: nat, cachedState: State, versions: map<nat, VersionRow>, edits: seq<EditRow>)

  /** The body of a save that passed validation. */
  datatype Save = Save(user: string, urn: string, state: State, expected: nat, description: string, force: bool)

  /** What the read of the newest version row decided. */
  datatype Plan = Plan(last: Option<nat>, consolidate: bool)

  datatype Request =
    | Received(save: Save)
    | Compared(save: Save, readAt: nat, changes: seq<Change>)
    | Overwriting(save: Save)
    | Planned(save: Save, readAt: nat, changes: seq<Change>, plan: Plan)
    | Started(save: Save, readAt: nat, changes: seq<Change>, plan: Plan, startedAt: nat)
    | Answered(accepted: bool)
    | Viewing(version: nat)
    | Checked(version: nat, immutable: bool)
    | Loaded(version: nat, immutable: bool, result: State)
    | Shown(version: nat, result: State)

  /** One committed save. `after` and `changes` are history: no step reads them. */
  datatype Batch = Batch(rowId: nat, expected: nat, editedAt: nat, edits: seq<EditRecord>,
                         urn: string, user: string, changes: seq<Change>, after: State)

  /** `log` and `committedAt` are history variables. */
  datatype Sys = Sys(db: Db, now: nat, requests: map<nat, Request>, cache: map<nat, State>,
                     log: seq<Batch>, committedAt: nat)

  function RowsOf(rowId: nat, at: nat, edits: seq<EditRecord>): seq<EditRow> {
    seq(|edits|, i requires 0 <= i < |edits| => EditRow(rowId, at, edits[i]))
  }

  predicate Newest(versions: map<nat, VersionRow>, id: nat) {
    id in versions && forall r | r in versions :: versions[r].version <= versions[id].version
  }

  predicate CanConsolidate(db: Db, save: Save, last: nat, now: nat)
    requires last in db.versions
  {
    var row := db.versions[last];
    && row.version != 1
    && row.createdBy == save.user
    && !save.force
    && save.description == ""
    && row.description == ""
    && now - row.createdAt < CONSOLIDATION_WINDOW_MS
  }

  /** The row a commit writes to. */
  function Target(plan: Plan, newId: nat): nat {
    if plan.consolidate && plan.last.Some? then plan.last.value else newId
  }

  /** The transaction, once its conditional UPDATE has matched the assessment row. */
  function Committed(db: Db, save: Save, edits: seq<EditRecord>, plan: Plan, at: nat, newId: nat): Db {
    var nextVersion := save.expected + 1;
    var rowId := Target(plan, newId);
    var versions :=
      if plan.consolidate && plan.last.Some? then
        if rowId in db.versions then db.versions[rowId := db.versions[rowId].(version := nextVersion)] else db.versions
      else
        db.versions[rowId := VersionRow(nextVersion, save.user, at, save.description)];
    Db(nextVersion, save.state, versions, db.edits + RowsOf(rowId, at, edits))
  }

  // ---- Rebuilding ----

  /** A row of the join that rebuildState selects. */
  datatype Row = Row(version: nat, editedAt: nat, edit: EditRecord)

  /** The joined rows up to a version, in insertion order. */
  function Select(versions: map<nat, VersionRow>, edits: seq<EditRow>, upTo: nat): seq<Row> {
    if edits == [] then []
    else
      var e := edits[|edits| - 1];
      var rest := Select(versions, edits[..|edits| - 1], upTo);
      if e.versionId in versions && versions[e.versionId].version <= upTo
      then rest + [Row(versions[e.versionId].version, e.editedAt, e.edit)]
      else rest
  }

  predicate RowLeq(a: Row, b: Row) {
    a.version < b.version || (a.version == b.version && a.editedAt <= b.editedAt)
  }

  predicate RowsSorted(rows: seq<Row>) {
    forall i, j | 0 <= i < j < |rows| :: RowLeq(rows[i], rows[j])
  }

  /** What the database may return: the selected rows, ordered by version and then time, ties in any order. */
  ghost predicate MayReturn(db: Db, upTo: nat, rows: seq<Row>) {
    multiset(rows) == multiset(Select(db.versions, db.edits, upTo)) && RowsSorted(rows)
  }

  function EditsOf(rows: seq<Row>): (r: seq<EditRecord>)
    ensures |r| == |rows|
  {
    seq(|rows|, i requires 0 <= i < |rows| => rows[i].edit)
  }

  const EMPTY := State(map[], {})

  /** The replay of the returned rows, with the fallback for an empty result. */
  function Rebuilt(db: Db, rows: seq<Row>): State {
    if rows == [] then db.cachedState else ReplayAll(EMPTY, EditsOf(rows))
  }

  // ---- Steps ----

  datatype Step =
    | Receive(id: nat, save: Save)
    | Compare(id: nat, changes: seq<Change>)
    | Overwrite(id: nat)
    | PlanSave(id: nat, last: Option<nat>)
    | Begin(id: nat)
    | Commit(id: nat, newId: nat)
    | Describe(version: nat, description: string)
    | View(id: nat, version: nat)
    | Check(id: nat)
    | Load(id: nat, rows: seq<Row>)
    | LoadCached(id: nat)
    | Show(id: nat)
    | Evict(version: nat)

  ghost predicate HasVersion(db: Db, v: nat) {
    exists r :: r in db.versions && db.versions[r].version == v
  }

  function WithRequest(s: Sys, id: nat, r: Request, now: nat): Sys {
    s.(requests := s.requests[id := r], now := now)
  }

  predicate OnlyMovesRequest(step: Step) {
    !step.Overwrite? && !step.Commit? && !step.Describe? && !step.Show? && !step.Evict?
  }

  /** The request that a reading step leaves behind for its id. */
  ghost predicate Moves(s: Sys, step: Step, now: nat, after: Request)
    requires OnlyMovesRequest(step)
  {
    if step.Receive? then step.id !in s.requests && after == Received(step.save)
    else if step.View? then step.id !in s.requests && after == Viewing(step.version)
    else step.id in s.requests && Continues(s, step, now, s.requests[step.id], after)
  }

  ghost predicate Continues(s: Sys, step: Step, now: nat, r: Request, after: Request)
    requires OnlyMovesRequest(step) && !step.Receive? && !step.View?
  {
    match step
    case Compare(_, changes) => r.Received? && Compares(s.db, r.save, changes, now, after)
    case PlanSave(_, last) => r.Compared? && Plans(s.db, r, last, now, after)
    case Begin(_) => r.Planned? && after == Started(r.save, r.readAt, r.changes, r.plan, now)
    case Check(_) =>
      && r.Viewing? && HasVersion(s.db, r.version)
      && after == Checked(r.version, r.version < s.db.currentVersion)
    case Load(_, rows) =>
      && r.Checked? && MayReturn(s.db, r.version, rows)
      && after == Loaded(r.version, r.immutable && rows != [], Rebuilt(s.db, rows))
    case LoadCached(_) =>
      r.Checked? && r.immutable && r.version in s.cache && after == Shown(r.version, s.cache[r.version])
  }

  /** The read of the assessment row: stale saves fail at once, the others are compared with the cached state. */
  ghost predicate Compares(db: Db, save: Save, changes: seq<Change>, now: nat, after: Request) {
    if db.currentVersion != save.expected then
      after == Answered(false)
    else
      && ListsDiff(db.cachedState, save.state, changes)
      && after == if changes == [] && !save.force then Overwriting(save) else Compared(save, now, changes)
  }

  /** The read of the newest version row. */
  ghost predicate Plans(db: Db, r: Request, last: Option<nat>, now: nat, after: Request)
    requires r.Compared?
  {
    && (last.None? ==> db.versions == map[])
    && (last.Some? ==> Newest(db.versions, last.value))
    && after == Planned(r.save, r.readAt, r.changes,
                        Plan(last, last.Some? && CanConsolidate(db, r.save, last.value, now)))
  }

  /** The log entry of a commit. */
  function NewBatch(r: Request, newId: nat): Batch
    requires r.Started?
  {
    Batch(Target(r.plan, newId), r.save.expected, r.startedAt, EncodeAll(r.save.urn, r.save.user, r.changes),
          r.save.urn, r.save.user, r.changes, r.save.state)
  }

  function AfterCommit(s: Sys, id: nat, newId: nat, now: nat): Sys
    requires id in s.requests && s.requests[id].Started?
  {
    var r := s.requests[id];
    var b := NewBatch(r, newId);
    Sys(Committed(s.db, r.save, b.edits, r.plan, r.startedAt, newId), now,
        s.requests[id := Answered(true)], s.cache, s.log + [b], now)
  }

  ghost predicate CommitStep(s: Sys, id: nat, newId: nat, s': Sys) {
    && id in s.requests && s.requests[id].Started?
    && newId !in s.db.versions
    && if s.db.currentVersion != s.requests[id].save.expected then
         s' == WithRequest(s, id, Answered(false), s'.now)
       else
         s' == AfterCommit(s, id, newId, s'.now)
  }

  function Described(versions: map<nat, VersionRow>, v: nat, description: string): (r: map<nat, VersionRow>)
    ensures r.Keys == versions.Keys
  {
    map id | id in versions ::
      if versions[id].version == v then versions[id].(description := description) else versions[id]
  }

  ghost predicate NextStep(s: Sys, step: Step, s': Sys) {
    && s.now < s'.now
    && if OnlyMovesRequest(step) then
         && step.id in s'.requests
         && Moves(s, step, s'.now, s'.requests[step.id])
         && s' == WithRequest(s, step.id, s'.requests[step.id], s'.now)
       else
         WriteStep(s, step, s')
  }

  ghost predicate WriteStep(s: Sys, step: Step, s': Sys)
    requires !OnlyMovesRequest(step)
  {
    match step
    case Overwrite(id) => OverwriteStep(s, id, s')
    case Commit(id, newId) => CommitStep(s, id, newId, s')
    case Describe(v, description) =>
      s' == s.(db := s.db.(versions := Described(s.db.versions, v, description)), now := s'.now)
    case Show(id) => ShowStep(s, id, s')
    case Evict(v) => s' == s.(cache := s.cache - {v}, now := s'.now)
  }

  /** The update without edits: it sets the cached state and tests nothing. */
  ghost predicate OverwriteStep(s: Sys, id: nat, s': Sys) {
    && id in s.requests && s.requests[id].Overwriting?
    && s' == WithRequest(s, id, Answered(true), s'.now).(db := s.db.(cachedState := s.requests[id].save.state))
  }

  ghost predicate ShowStep(s: Sys, id: nat, s': Sys) {
    && id in s.requests && s.requests[id].Loaded?
    && var r := s.requests[id];
    s' == WithRequest(s, id, Shown(r.version, r.result), s'.now)
          .(cache := if r.immutable then s.cache[r.version := r.result] else s.cache)
  }

  /** A freshly created assessment: version 1 with the initial state as its only edit. */
  ghost predicate Init(s: Sys) {
    exists initial: State, user: string ::
      var edit := EditRecord("__initial__", InitialState(initial), user);
      s == Sys(Db(1, initial, map[0 := VersionRow(1, user, 0, "")], RowsOf(0, 0, [edit])), 0, map[], map[],
               [Batch(0, 0, 0, [edit], "", user, [], initial)], 0)
  }

  ghost predicate IsRun(run: seq<Sys>, steps: seq<Step>) {
    && |run| == |steps| + 1
    && Init(run[0])
    && forall i | 0 <= i < |steps| :: NextStep(run[i], steps[i], run[i + 1])
  }

  // ---- What every step keeps, whatever is saved ----

  function LogRows(log: seq<Batch>): seq<EditRow> {
    if log == [] then []
    else
      var b := log[|log| - 1];
      LogRows(log[..|log| - 1]) + RowsOf(b.rowId, b.editedAt, b.edits)
  }

  /** The version numbers by row id: what the invariants need of the version table. */
  function Numbers(versions: map<nat, VersionRow>): (nums: map<nat, nat>)
    ensures nums.Keys == versions.Keys
  {
    map r | r in versions :: versions[r].version
  }

  /** Version numbers are unique and none is above the current version; row 0 stays version 1. */
  predicate VersionsOk(nums: map<nat, nat>, current: nat) {
    && (forall a, b | a in nums && b in nums && a != b :: nums[a] != nums[b])
    && (forall r | r in nums :: 1 <= nums[r] <= current)
    && 0 in nums && nums[0] == 1
  }

  predicate IsTop(nums: map<nat, nat>, current: nat, id: nat) {
    id in nums && nums[id] == current
  }

  /** The rows of the committed saves carry versions and times that follow the commit order. */
  predicate LogOk(nums: map<nat, nat>, current: nat, log: seq<Batch>, committedAt: nat) {
    && 1 <= |log| == current
    && (forall i | 0 <= i < |log| :: log[i].rowId in nums && log[i].expected == i && log[i].editedAt <= committedAt)
    && (forall i, j | 0 <= i < j < |log| :: log[i].editedAt < log[j].editedAt)
    && (forall i, j | 0 <= i < j < |log| :: nums[log[i].rowId] <= nums[log[j].rowId])
    && IsTop(nums, current, log[|log| - 1].rowId)
    && log[0].rowId == 0
  }

  /**
    A save in flight read a version that is not ahead of the store, and not before the last commit if
    it is current.
   */
  predicate SaveOk(s: Sys, save: Save, readAt: nat) {
    && save.expected <= s.db.currentVersion
    && readAt <= s.now
    && (save.expected == s.db.currentVersion ==> s.committedAt < readAt)
  }

  /** If the lock can still succeed, the row read for consolidation is still the newest. */
  predicate PlanOk(s: Sys, save: Save, plan: Plan) {
    save.expected == s.db.currentVersion ==>
      && plan.last.Some? && IsTop(Numbers(s.db.versions), s.db.currentVersion, plan.last.value)
      && (plan.consolidate ==> s.db.currentVersion != 1)
  }

  predicate RequestOk(s: Sys, r: Request) {
    match r
    case Compared(save, readAt, _) => SaveOk(s, save, readAt)
    case Planned(save, readAt, _, plan) => SaveOk(s, save, readAt) && PlanOk(s, save, plan)
    case Started(save, readAt, _, plan, startedAt) =>
      SaveOk(s, save, readAt) && PlanOk(s, save, plan) && readAt < startedAt <= s.now
    case Checked(v, immutable) => 1 <= v <= s.db.currentVersion && (immutable ==> v < s.db.currentVersion)
    case Loaded(v, immutable, _) => 1 <= v <= s.db.currentVersion && (immutable ==> v < s.db.currentVersion)
    case _ => true
  }

  predicate Inv(s: Sys) {
    && VersionsOk(Numbers(s.db.versions), s.db.currentVersion)
    && LogOk(Numbers(s.db.versions), s.db.currentVersion, s.log, s.committedAt)
    && s.committedAt <= s.now
    && s.db.edits == LogRows(s.log)
    && (forall id | id in s.requests :: RequestOk(s, s.requests[id]))
    && (forall v | v in s.cache :: 1 <= v < s.db.currentVersion)
  }

  lemma InvInit(s: Sys)
    requires Init(s)
    ensures Inv(s)
  {
    assert s.log[..0] == [];
    assert LogRows(s.log) == RowsOf(0, 0, s.log[0].edits);
  }

  /** Only commits move the version numbers and the log. */
  predicate SameRows(s: Sys, s': Sys) {
    && Numbers(s'.db.versions) == Numbers(s.db.versions)
    && s'.db.currentVersion == s.db.currentVersion
    && s'.db.edits == s.db.edits
    && s'.log == s.log && s'.committedAt == s.committedAt
    && s.now < s'.now
  }

  lemma RequestKept(s: Sys, s': Sys, r: Request)
    requires SameRows(s, s') && RequestOk(s, r)
    ensures RequestOk(s', r)
  {
  }

  /** A step that leaves those alone keeps the invariant as soon as what it writes is sound. */
  lemma InvSameRows(s: Sys, s': Sys)
    requires Inv(s) && SameRows(s, s')
    requires forall i | i in s'.requests :: Get(s.requests, i) == Some(s'.requests[i]) || RequestOk(s', s'.requests[i])
    requires forall v | v in s'.cache :: 1 <= v < s.db.currentVersion
    ensures Inv(s')
  {
    forall i | i in s'.requests ensures RequestOk(s', s'.requests[i]) {
      if Get(s.requests, i) == Some(s'.requests[i]) {
        RequestKept(s, s', s.requests[i]);
      }
    }
  }

  lemma InvRequest(s: Sys, id: nat, r: Request, s': Sys)
    requires Inv(s) && s.now < s'.now
    requires s' == WithRequest(s, id, r, s'.now)
    requires RequestOk(s', r)
    ensures Inv(s')
  {
    InvSameRows(s, s');
  }

  lemma InvPlan(s: Sys, r: Request, last: Option<nat>, now: nat, after: Request, s': Sys)
    requires Inv(s) && r.Compared? && RequestOk(s, r) && Plans(s.db, r, last, now, after)
    requires SameRows(s, s')
    ensures RequestOk(s', after)
  {
    var top := s.log[|s.log| - 1].rowId;
    assert IsTop(Numbers(s.db.versions), s.db.currentVersion, top);
    assert last.Some?;
    assert s.db.versions[top].version <= s.db.versions[last.value].version;
  }

  lemma InvMove(s: Sys, step: Step, s': Sys)
    requires Inv(s) && OnlyMovesRequest(step) && NextStep(s, step, s')
    ensures Inv(s')
  {
    var after := s'.requests[step.id];
    if step.id in s.requests {
      assert RequestOk(s, s.requests[step.id]);
    }
    if step.PlanSave? {
      InvPlan(s, s.requests[step.id], step.last, s'.now, after, s');
    }
    InvRequest(s, step.id, after, s');
  }

  lemma InvDescribe(s: Sys, v: nat, description: string, s': Sys)
    requires Inv(s) && s.now < s'.now
    requires s' == s.(db := s.db.(versions := Described(s.db.versions, v, description)), now := s'.now)
    ensures Inv(s')
  {
    assert Numbers(s'.db.versions) == Numbers(s.db.versions);
    InvSameRows(s, s');
  }

  lemma InvShow(s: Sys, id: nat, s': Sys)
    requires Inv(s) && s.now < s'.now && ShowStep(s, id, s')
    ensures Inv(s')
  {
    assert RequestOk(s, s.requests[id]);
    InvSameRows(s, s');
  }

  // ---- The transaction ----

  /** Version numbers after a commit, whichever branch it took: the target row is the new top, the others stay below. */
  lemma CommittedNumbers(db: Db, save: Save, edits: seq<EditRecord>, plan: Plan, at: nat, newId: nat)
    requires VersionsOk(Numbers(db.versions), db.currentVersion) && newId !in db.versions
    requires save.expected == db.currentVersion >= 1
    requires plan.last.Some? && IsTop(Numbers(db.versions), db.currentVersion, plan.last.value)
    requires plan.consolidate ==> db.currentVersion != 1
    ensures var db' := Committed(db, save, edits, plan, at, newId);
            && Numbers(db'.versions) == Numbers(db.versions)[Target(plan, newId) := db.currentVersion + 1]
            && VersionsOk(Numbers(db'.versions), db'.currentVersion)
            && IsTop(Numbers(db'.versions), db'.currentVersion, Target(plan, newId))
  {
  }

  lemma CommittedLog(nums: map<nat, nat>, current: nat, log: seq<Batch>, committedAt: nat, target: nat, b: Batch,
                     at: nat)
    requires VersionsOk(nums, current) && LogOk(nums, current, log, committedAt)
    requires b.rowId == target && b.expected == current && committedAt < b.editedAt <= at
    requires target in nums ==> nums[target] == current && current != 1
    ensures LogOk(nums[target := current + 1], current + 1, log + [b], at)
  {
    var log', nums' := log + [b], nums[target := current + 1];
    forall i, j | 0 <= i < j < |log'| ensures nums'[log'[i].rowId] <= nums'[log'[j].rowId] {
      if j < |log| {
        assert nums[log[i].rowId] <= nums[log[j].rowId];
      }
    }
  }

  lemma CommitRequests(s: Sys, s': Sys, r: Request)
    requires RequestOk(s, r)
    requires s'.db.currentVersion == s.db.currentVersion + 1 && s.now < s'.now
    ensures RequestOk(s', r)
  {
  }

  /** The rows and the log after an accepted commit. */
  lemma CommitRows(s: Sys, r: Request, newId: nat, now: nat)
    requires VersionsOk(Numbers(s.db.versions), s.db.currentVersion)
    requires LogOk(Numbers(s.db.versions), s.db.currentVersion, s.log, s.committedAt)
    requires r.Started? && RequestOk(s, r) && newId !in s.db.versions && s.now < now
    requires s.db.currentVersion == r.save.expected
    ensures var b := NewBatch(r, newId);
            var db' := Committed(s.db, r.save, b.edits, r.plan, r.startedAt, newId);
            && VersionsOk(Numbers(db'.versions), s.db.currentVersion + 1)
            && LogOk(Numbers(db'.versions), s.db.currentVersion + 1, s.log + [b], now)
            && Numbers(db'.versions) == Numbers(s.db.versions)[b.rowId := s.db.currentVersion + 1]
            && (b.rowId in s.db.versions ==> s.db.versions[b.rowId].version == s.db.currentVersion)
  {
    var b := NewBatch(r, newId);
    CommittedNumbers(s.db, r.save, b.edits, r.plan, r.startedAt, newId);
    CommittedLog(Numbers(s.db.versions), s.db.currentVersion, s.log, s.committedAt, b.rowId, b, now);
  }

  lemma LogRowsAppend(log: seq<Batch>, b: Batch)
    ensures LogRows(log + [b]) == LogRows(log) + RowsOf(b.rowId, b.editedAt, b.edits)
  {
    assert (log + [b])[..|log|] == log;
  }

  lemma AcceptedRequests(s: Sys, id: nat, newId: nat, now: nat)
    requires Inv(s) && s.now < now
    requires id in s.requests && s.requests[id].Started? && newId !in s.db.versions
    requires s.db.currentVersion == s.requests[id].save.expected
    ensures var s' := AfterCommit(s, id, newId, now);
            forall i | i in s'.requests :: RequestOk(s', s'.requests[i])
  {
    var s' := AfterCommit(s, id, newId, now);
    forall i | i in s'.requests ensures RequestOk(s', s'.requests[i]) {
      if i != id {
        CommitRequests(s, s', s.requests[i]);
      }
    }
  }

  lemma InvAccepted(s: Sys, id: nat, newId: nat, now: nat)
    requires Inv(s) && s.now < now
    requires id in s.requests && s.requests[id].Started? && newId !in s.db.versions
    requires s.db.currentVersion == s.requests[id].save.expected
    ensures Inv(AfterCommit(s, id, newId, now))
  {
    var r := s.requests[id];
    var b := NewBatch(r, newId);
    assert RequestOk(s, r);
    CommitRows(s, r, newId, now);
    LogRowsAppend(s.log, b);
    AcceptedRequests(s, id, newId, now);
    var s' := AfterCommit(s, id, newId, now);
    assert s'.db == Committed(s.db, r.save, b.edits, r.plan, r.startedAt, newId);
    assert s'.log == s.log + [b];
  }

  lemma InvCommit(s: Sys, id: nat, newId: nat, s': Sys)
    requires Inv(s) && s.now < s'.now && CommitStep(s, id, newId, s')
    ensures Inv(s')
  {
    if s.db.currentVersion != s.requests[id].save.expected {
      InvRequest(s, id, Answered(false), s');
    } else {
      InvAccepted(s, id, newId, s'.now);
    }
  }

  lemma InvOverwrite(s: Sys, id: nat, s': Sys)
    requires Inv(s) && s.now < s'.now && OverwriteStep(s, id, s')
    ensures Inv(s')
  {
    InvSameRows(s, s');
  }

  /** Every step keeps the invariant. */
  lemma InvStep(s: Sys, step: Step, s': Sys)
    requires Inv(s) && NextStep(s, step, s')
    ensures Inv(s')
  {
    match step
    case Overwrite(id) => InvOverwrite(s, id, s');
    case Commit(id, newId) => InvCommit(s, id, newId, s');
    case Describe(v, description) => InvDescribe(s, v, description, s');
    case Show(id) => InvShow(s, id, s');
    case Evict(v) => InvSameRows(s, s');
    case _ => InvMove(s, step, s');
  }

  /** Over any run, whatever the interleaving. */
  lemma {:induction false} InvRun(run: seq<Sys>, steps: seq<Step>, n: nat)
    requires IsRun(run, steps) && n <= |steps|
    ensures Inv(run[n])
  {
    if n == 0 {
      InvInit(run[0]);
    } else {
      InvRun(run, steps, n - 1);
      InvStep(run[n - 1], steps[n - 1], run[n]);
    }
  }

  // ---- The lock ----

  ghost predicate Accepts(s: Sys, step: Step) {
    && step.Commit? && step.id in s.requests && s.requests[step.id].Started?
    && s.db.currentVersion == s.requests[step.id].save.expected
  }

  /** A step moves the current version by exactly one if it is an accepted commit, and not at all otherwise. */
  lemma VersionMoves(s: Sys, step: Step, s': Sys)
    requires NextStep(s, step, s')
    ensures s'.db.currentVersion == s.db.currentVersion + if Accepts(s, step) then 1 else 0
  {
  }

  lemma {:induction false} VersionMonotone(run: seq<Sys>, steps: seq<Step>, m: nat, n: nat)
    requires IsRun(run, steps) && m <= n <= |steps|
    ensures run[m].db.currentVersion <= run[n].db.currentVersion
  {
    if m < n {
      VersionMonotone(run, steps, m, n - 1);
      VersionMoves(run[n - 1], steps[n - 1], run[n]);
    }
  }

  /** Of all saves with the same expected version, whatever their interleaving, at most one commits. */
  lemma AtMostOneCommits(run: seq<Sys>, steps: seq<Step>, i: nat, j: nat)
    requires IsRun(run, steps) && i < j < |steps|
    requires Accepts(run[i], steps[i]) && Accepts(run[j], steps[j])
    ensures run[i].requests[steps[i].id].save.expected < run[j].requests[steps[j].id].save.expected
  {
    VersionMoves(run[i], steps[i], run[i + 1]);
    VersionMonotone(run, steps, i + 1, j);
  }

  /** Whenever the lock succeeds, the version row read before the transaction is still the newest one. */
  lemma PlannedRowIsNewest(run: seq<Sys>, steps: seq<Step>, i: nat)
    requires IsRun(run, steps) && i < |steps| && Accepts(run[i], steps[i])
    ensures var plan := run[i].requests[steps[i].id].plan;
            && plan.last.Some? && Newest(run[i].db.versions, plan.last.value)
            && run[i].db.versions[plan.last.value].version == run[i].db.currentVersion
  {
    InvRun(run, steps, i);
    var s := run[i];
    assert RequestOk(s, s.requests[steps[i].id]);
    forall r | r in s.db.versions ensures s.db.versions[r].version <= s.db.currentVersion {
      assert Numbers(s.db.versions)[r] <= s.db.currentVersion;
    }
  }

  /** In every reachable state version numbers are unique and the greatest one is the current version. */
  lemma GreatestIsCurrent(run: seq<Sys>, steps: seq<Step>, n: nat)
    requires IsRun(run, steps) && n <= |steps|
    ensures var db := run[n].db;
            && (exists id :: Newest(db.versions, id) && db.versions[id].version == db.currentVersion)
            && forall a, b | a in db.versions && b in db.versions && a != b ::
                 db.versions[a].version != db.versions[b].version
  {
    InvRun(run, steps, n);
    var s := run[n];
    var nums := Numbers(s.db.versions);
    var top := s.log[|s.log| - 1].rowId;
    assert IsTop(nums, s.db.currentVersion, top);
    forall r | r in s.db.versions ensures s.db.versions[r].version <= s.db.versions[top].version {
      assert nums[r] <= s.db.currentVersion;
    }
    assert Newest(s.db.versions, top);
    forall a, b | a in s.db.versions && b in s.db.versions && a != b
      ensures s.db.versions[a].version != s.db.versions[b].version {
      assert nums[a] != nums[b];
    }
  }

  // ---- Which save a version number names ----

  /** The row of save i has the number that save gave it, unless the next save went into the same row. */
  predicate NumberKept(nums: map<nat, nat>, log: seq<Batch>, i: nat)
    requires i < |log|
  {
    || (i + 1 < |log| && log[i + 1].rowId == log[i].rowId)
    || (log[i].rowId in nums && nums[log[i].rowId] == i + 1)
  }

  predicate Logged(log: seq<Batch>, r: nat) {
    exists i :: 0 <= i < |log| && log[i].rowId == r
  }

  /** Every version row has a save, and is numbered by its last one. */
  predicate RowsLogged(nums: map<nat, nat>, log: seq<Batch>) {
    && (forall i {:trigger NumberKept(nums, log, i)} | 0 <= i < |log| :: NumberKept(nums, log, i))
    && (forall r {:trigger Logged(log, r)} | r in nums :: Logged(log, r))
  }

  lemma RowsLoggedInit(s: Sys)
    requires Init(s)
    ensures RowsLogged(Numbers(s.db.versions), s.log)
  {
    assert s.log[0].rowId == 0;
  }

  lemma CommittedRows(nums: map<nat, nat>, current: nat, log: seq<Batch>, committedAt: nat, target: nat, b: Batch)
    requires VersionsOk(nums, current) && LogOk(nums, current, log, committedAt) && RowsLogged(nums, log)
    requires b.rowId == target && (target in nums ==> nums[target] == current)
    ensures RowsLogged(nums[target := current + 1], log + [b])
  {
    var log', nums' := log + [b], nums[target := current + 1];
    forall i | 0 <= i < |log'| ensures NumberKept(nums', log', i) {
      if i < |log| {
        assert NumberKept(nums, log, i);
      }
    }
    forall r | r in nums' ensures Logged(log', r) {
      if r == target {
        assert log'[|log|].rowId == r;
      } else {
        assert Logged(log, r);
        var i :| 0 <= i < |log| && log[i].rowId == r;
        assert log'[i].rowId == r;
      }
    }
  }

  /** Without an accepted commit the numbers and the log stay. */
  lemma NumbersSame(s: Sys, step: Step, s': Sys)
    requires NextStep(s, step, s') && !Accepts(s, step)
    ensures Numbers(s'.db.versions) == Numbers(s.db.versions) && s'.log == s.log
  {
    if step.Describe? {
      assert Numbers(s'.db.versions) == Numbers(s.db.versions);
    }
  }

  /** With one, the row written to gets the next number; if it existed it was the newest. */
  lemma NumbersMove(s: Sys, step: Step, s': Sys) returns (b: Batch)
    requires Inv(s) && NextStep(s, step, s') && Accepts(s, step)
    ensures s'.log == s.log + [b]
    ensures Numbers(s'.db.versions) == Numbers(s.db.versions)[b.rowId := s.db.currentVersion + 1]
    ensures b.rowId in s.db.versions ==> s.db.versions[b.rowId].version == s.db.currentVersion
  {
    var r := s.requests[step.id];
    assert RequestOk(s, r);
    b := NewBatch(r, step.newId);
    CommitRows(s, r, step.newId, s'.now);
  }

  /** One more log entry, whose row gets the next number; if the row existed it was the newest. */
  predicate NextNumber(s: Sys, s': Sys, b: Batch) {
    var nums := Numbers(s.db.versions);
    && s'.log == s.log + [b]
    && Numbers(s'.db.versions) == nums[b.rowId := s.db.currentVersion + 1]
    && (b.rowId in nums ==> nums[b.rowId] == s.db.currentVersion)
  }

  /** What a step does to the numbers and the log. */
  ghost predicate Numbered(s: Sys, s': Sys) {
    || (Numbers(s'.db.versions) == Numbers(s.db.versions) && s'.log == s.log)
    || exists b: Batch :: NextNumber(s, s', b)
  }

  lemma NumbersStep(s: Sys, step: Step, s': Sys)
    requires Inv(s) && NextStep(s, step, s')
    ensures Numbered(s, s')
  {
    if Accepts(s, step) {
      var b := NumbersMove(s, step, s');
      assert NextNumber(s, s', b);
    } else {
      NumbersSame(s, step, s');
    }
  }

  lemma RowsLoggedAfter(s: Sys, s': Sys)
    requires Inv(s) && RowsLogged(Numbers(s.db.versions), s.log) && Numbered(s, s')
    ensures RowsLogged(Numbers(s'.db.versions), s'.log)
  {
    var nums, nums' := Numbers(s.db.versions), Numbers(s'.db.versions);
    if !(nums' == nums && s'.log == s.log) {
      var b: Batch :| NextNumber(s, s', b);
      CommittedRows(nums, s.db.currentVersion, s.log, s.committedAt, b.rowId, b);
    }
  }

  lemma RowsLoggedStep(s: Sys, step: Step, s': Sys)
    requires Inv(s) && NextStep(s, step, s') && RowsLogged(Numbers(s.db.versions), s.log)
    ensures RowsLogged(Numbers(s'.db.versions), s'.log)
  {
    NumbersStep(s, step, s');
    RowsLoggedAfter(s, s');
  }

  lemma {:induction false} RowsLoggedRun(run: seq<Sys>, steps: seq<Step>, n: nat)
    requires IsRun(run, steps) && n <= |steps|
    ensures RowsLogged(Numbers(run[n].db.versions), run[n].log)
  {
    if n == 0 {
      RowsLoggedInit(run[0]);
    } else {
      InvRun(run, steps, n - 1);
      RowsLoggedRun(run, steps, n - 1);
      RowsLoggedStep(run[n - 1], steps[n - 1], run[n]);
    }
  }

  /** A version below the current one does not lose its number. */
  lemma VersionStays(s: Sys, step: Step, s': Sys, v: nat)
    requires Inv(s) && NextStep(s, step, s') && v < s.db.currentVersion && HasVersion(s.db, v)
    ensures HasVersion(s'.db, v)
  {
    var r :| r in s.db.versions && s.db.versions[r].version == v;
    assert Numbers(s.db.versions)[r] == v;
    if Accepts(s, step) {
      var b := NumbersMove(s, step, s');
    } else {
      NumbersSame(s, step, s');
    }
    NumberNames(s'.db, r, v);
  }

  lemma NumberNames(db: Db, r: nat, v: nat)
    requires r in Numbers(db.versions) && Numbers(db.versions)[r] == v
    ensures HasVersion(db, v)
  {
    assert r in db.versions && db.versions[r].version == v;
  }

  // ---- Frozen history ----

  lemma {:induction false} SelectKept(versions: map<nat, VersionRow>, versions': map<nat, VersionRow>,
                                      edits: seq<EditRow>, v: nat)
    requires forall i | 0 <= i < |edits| ::
               var id := edits[i].versionId;
               && id in versions && id in versions'
               && (versions[id].version == versions'[id].version ||
                   (versions[id].version > v && versions'[id].version > v))
    ensures Select(versions, edits, v) == Select(versions', edits, v)
  {
    if edits != [] {
      SelectKept(versions, versions', edits[..|edits| - 1], v);
    }
  }

  lemma {:induction false} SelectAppendedAbove(versions: map<nat, VersionRow>, edits: seq<EditRow>,
                                               more: seq<EditRow>, v: nat)
    requires forall i | 0 <= i < |more| :: more[i].versionId in versions && versions[more[i].versionId].version > v
    ensures Select(versions, edits + more, v) == Select(versions, edits, v)
  {
    if more == [] {
      assert edits + more == edits;
    } else {
      assert (edits + more)[..|edits + more| - 1] == edits + more[..|more| - 1];
      SelectAppendedAbove(versions, edits, more[..|more| - 1], v);
    }
  }

  lemma {:induction false} LogRowsIds(log: seq<Batch>, nums: map<nat, nat>)
    requires forall i | 0 <= i < |log| :: log[i].rowId in nums
    ensures forall i | 0 <= i < |LogRows(log)| :: LogRows(log)[i].versionId in nums
  {
    if log != [] {
      LogRowsIds(log[..|log| - 1], nums);
    }
  }

  lemma FrozenCommit(s: Sys, r: Request, newId: nat, now: nat, v: nat)
    requires Inv(s) && s.now < now && v < s.db.currentVersion
    requires r.Started? && RequestOk(s, r) && newId !in s.db.versions && s.db.currentVersion == r.save.expected
    ensures var db' := Committed(s.db, r.save, NewBatch(r, newId).edits, r.plan, r.startedAt, newId);
            Select(db'.versions, db'.edits, v) == Select(s.db.versions, s.db.edits, v)
  {
    var b := NewBatch(r, newId);
    var db' := Committed(s.db, r.save, b.edits, r.plan, r.startedAt, newId);
    CommitRows(s, r, newId, now);
    LogRowsIds(s.log, Numbers(s.db.versions));
    var nums, nums' := Numbers(s.db.versions), Numbers(db'.versions);
    forall i | 0 <= i < |s.db.edits|
      ensures var id := s.db.edits[i].versionId;
              && id in s.db.versions && id in db'.versions
              && (s.db.versions[id].version == db'.versions[id].version ||
                  (s.db.versions[id].version > v && db'.versions[id].version > v)) {
      var id := s.db.edits[i].versionId;
      assert nums'[id] == if id == b.rowId then s.db.currentVersion + 1 else nums[id];
    }
    SelectKept(s.db.versions, db'.versions, s.db.edits, v);
    assert nums'[b.rowId] > v;
    SelectAppendedAbove(db'.versions, s.db.edits, RowsOf(b.rowId, r.startedAt, b.edits), v);
  }

  /** No step changes the edits up to a version that lies strictly below the current one. */
  lemma FrozenStep(s: Sys, step: Step, s': Sys, v: nat)
    requires Inv(s) && NextStep(s, step, s') && v < s.db.currentVersion
    ensures Select(s'.db.versions, s'.db.edits, v) == Select(s.db.versions, s.db.edits, v)
    ensures v < s'.db.currentVersion
  {
    VersionMoves(s, step, s');
    if step.Describe? {
      LogRowsIds(s.log, Numbers(s.db.versions));
      SelectKept(s.db.versions, s'.db.versions, s.db.edits, v);
    } else if Accepts(s, step) {
      assert RequestOk(s, s.requests[step.id]);
      FrozenCommit(s, s.requests[step.id], step.newId, s'.now, v);
    }
  }

  lemma FrozenInRun(run: seq<Sys>, steps: seq<Step>, n: nat, v: nat)
    requires IsRun(run, steps) && n < |steps| && v < run[n].db.currentVersion
    ensures v < run[n + 1].db.currentVersion
    ensures Select(run[n + 1].db.versions, run[n + 1].db.edits, v) == Select(run[n].db.versions, run[n].db.edits, v)
  {
    InvRun(run, steps, n);
    FrozenStep(run[n], steps[n], run[n + 1], v);
  }

  function SelectedAt(s: Sys, v: nat): seq<Row> {
    Select(s.db.versions, s.db.edits, v)
  }

  /** Frozen history over runs: saves, consolidations and description patches leave it alone for good. */
  lemma {:induction false} FrozenRun(run: seq<Sys>, steps: seq<Step>, m: nat, n: nat, v: nat)
    requires IsRun(run, steps) && m <= n <= |steps| && v < run[m].db.currentVersion
    ensures SelectedAt(run[n], v) == SelectedAt(run[m], v)
    ensures v < run[n].db.currentVersion
    decreases n
  {
    if m < n {
      FrozenRun(run, steps, m, n - 1, v);
      FrozenInRun(run, steps, n - 1, v);
    }
  }
}
