/**
  Which version row a save goes to, told from the rows, the log and the save alone: over every run
  and every interleaving, what decided at the read of the newest row decides what is written.
 */
module Consolidation {
  import opened Wrappers
  import opened States
  import opened Edits
  import opened VersionStore

  // ---- Who made a row ----

  /** Rows are not removed, and keep who made them and when. */
  predicate OriginKept(versions: map<nat, VersionRow>, versions': map<nat, VersionRow>) {
    forall r | r in versions ::
      && r in versions'
      && versions'[r].createdBy == versions[r].createdBy && versions'[r].createdAt == versions[r].createdAt
  }

  lemma OriginStep(s: Sys, step: Step, s': Sys)
    requires NextStep(s, step, s')
    ensures OriginKept(s.db.versions, s'.db.versions)
  {
  }

  predicate MadeBy(versions: map<nat, VersionRow>, r: nat, user: string) {
    r in versions && versions[r].createdBy == user
  }

  /** A request that will consolidate found a row of its own user. */
  predicate PlanIsOwn(versions: map<nat, VersionRow>, r: Request) {
    (r.Planned? || r.Started?) && r.plan.consolidate ==>
      r.plan.last.Some? && MadeBy(versions, r.plan.last.value, r.save.user)
  }

  predicate OwnRows(s: Sys) {
    && (forall i | 0 <= i < |s.log| :: MadeBy(s.db.versions, s.log[i].rowId, s.log[i].user))
    && (forall id | id in s.requests :: PlanIsOwn(s.db.versions, s.requests[id]))
  }

  /** What a step leaves of a request for the plan: the same, no plan, or one just made. */
  lemma PlansMove(s: Sys, step: Step, s': Sys, id: nat)
    requires NextStep(s, step, s') && id in s'.requests
    requires id in s.requests ==> PlanIsOwn(s.db.versions, s.requests[id])
    ensures PlanIsOwn(s'.db.versions, s'.requests[id])
  {
    OriginStep(s, step, s');
  }

  lemma OwnStep(s: Sys, step: Step, s': Sys)
    requires OwnRows(s) && NextStep(s, step, s')
    ensures OwnRows(s')
  {
    OriginStep(s, step, s');
    forall id | id in s'.requests ensures PlanIsOwn(s'.db.versions, s'.requests[id]) {
      PlansMove(s, step, s', id);
    }
    forall i | 0 <= i < |s'.log| ensures MadeBy(s'.db.versions, s'.log[i].rowId, s'.log[i].user) {
      if i < |s.log| {
        assert s'.log[i] == s.log[i];
        assert MadeBy(s.db.versions, s.log[i].rowId, s.log[i].user);
      } else {
        assert PlanIsOwn(s.db.versions, s.requests[step.id]);
      }
    }
  }

  lemma {:induction false} OwnRowsRun(run: seq<Sys>, steps: seq<Step>, n: nat)
    requires IsRun(run, steps) && n <= |steps|
    ensures OwnRows(run[n])
  {
    if n > 0 {
      OwnRowsRun(run, steps, n - 1);
      OwnStep(run[n - 1], steps[n - 1], run[n]);
    }
  }

  /** No save ever goes into a version row of another user. */
  lemma RowsHaveOneAuthor(run: seq<Sys>, steps: seq<Step>, n: nat)
    requires IsRun(run, steps) && n <= |steps|
    ensures forall i | 0 <= i < |run[n].log| ::
              var b := run[n].log[i];
              b.rowId in run[n].db.versions && run[n].db.versions[b.rowId].createdBy == b.user
  {
    OwnRowsRun(run, steps, n);
    forall i | 0 <= i < |run[n].log|
      ensures var b := run[n].log[i];
              b.rowId in run[n].db.versions && run[n].db.versions[b.rowId].createdBy == b.user {
      assert MadeBy(run[n].db.versions, run[n].log[i].rowId, run[n].log[i].user);
    }
  }

  // ---- Where a plan comes from ----

  /** Request `id` read the newest version row in state k, and planned what it planned there. */
  ghost predicate PlannedAt(run: seq<Sys>, steps: seq<Step>, id: nat, k: nat, save: Save, plan: Plan)
    requires k < |steps| && |run| == |steps| + 1
  {
    && steps[k] == PlanSave(id, plan.last)
    && id in run[k].requests && run[k].requests[id].Compared? && run[k].requests[id].save == save
    && id in run[k + 1].requests
    && Plans(run[k].db, run[k].requests[id], plan.last, run[k + 1].now, run[k + 1].requests[id])
    && run[k + 1].requests[id].plan == plan
  }

  /** A request with a plan had it before, or just made it. */
  lemma PlanStep(s: Sys, step: Step, s': Sys, id: nat)
    requires NextStep(s, step, s') && id in s'.requests
    requires s'.requests[id].Planned? || s'.requests[id].Started?
    ensures id in s.requests
    ensures var r, r' := s.requests[id], s'.requests[id];
            || ((r.Planned? || r.Started?) && r.save == r'.save && r.plan == r'.plan)
            || (step == PlanSave(id, r'.plan.last) && r.Compared? && r.save == r'.save &&
                Plans(s.db, r, r'.plan.last, s'.now, r'))
  {
  }

  lemma {:induction false} PlanOrigin(run: seq<Sys>, steps: seq<Step>, id: nat, n: nat) returns (k: nat)
    requires IsRun(run, steps) && n <= |steps| && id in run[n].requests
    requires run[n].requests[id].Planned? || run[n].requests[id].Started?
    ensures k < n && PlannedAt(run, steps, id, k, run[n].requests[id].save, run[n].requests[id].plan)
  {
    PlanStep(run[n - 1], steps[n - 1], run[n], id);
    var r, r' := run[n - 1].requests[id], run[n].requests[id];
    if (r.Planned? || r.Started?) && r.save == r'.save && r.plan == r'.plan {
      k := PlanOrigin(run, steps, id, n - 1);
    } else {
      k := n - 1;
    }
  }

  // ---- What a commit writes ----

  /** The rows of an accepted commit: one version row, the edit rows below it, and the assessment row. */
  lemma AcceptedWrites(s: Sys, step: Step, s': Sys)
    requires NextStep(s, step, s') && Accepts(s, step)
    requires s.requests[step.id].plan.last.Some? && s.requests[step.id].plan.last.value in s.db.versions
    ensures var r := s.requests[step.id];
            var last := r.plan.last.value;
            && s'.db.currentVersion == r.save.expected + 1 && s'.db.cachedState == r.save.state
            && s'.log == s.log + [s'.log[|s.log|]]
            && var row := s'.log[|s.log|].rowId;
               && s'.db.edits == s.db.edits + seq(|r.changes|, i requires 0 <= i < |r.changes| =>
                    EditRow(row, r.startedAt, Encode(r.save.urn, r.save.user, r.changes[i])))
               && (r.plan.consolidate ==>
                     && row == last
                     && s'.db.versions == s.db.versions[last := s.db.versions[last].(version := r.save.expected + 1)])
               && (!r.plan.consolidate ==>
                     && row !in s.db.versions
                     && s'.db.versions == s.db.versions[row :=
                          VersionRow(r.save.expected + 1, r.save.user, r.startedAt, r.save.description)])
  {
    var r := s.requests[step.id];
    var b := NewBatch(r, step.newId);
    assert s'.log[|s.log|] == b;
    assert RowsOf(b.rowId, r.startedAt, b.edits) == seq(|r.changes|, i requires 0 <= i < |r.changes| =>
      EditRow(b.rowId, r.startedAt, Encode(r.save.urn, r.save.user, r.changes[i])));
  }

  /**
    When a save consolidates, in every run: an accepted commit adds no version row exactly when, at
    its read of the newest row, that row was not version 1, was made by the same user less than 15
    minutes before, neither had a description, and no new version was forced. It then renumbers that
    very row, and otherwise adds its own.
   */
  lemma ConsolidatesIff(run: seq<Sys>, steps: seq<Step>, i: nat) returns (k: nat)
    requires IsRun(run, steps) && i < |steps| && Accepts(run[i], steps[i])
    ensures k < i && steps[k].PlanSave? && steps[k].id == steps[i].id && steps[k].last.Some?
    ensures steps[k].id in run[k].requests && run[k].requests[steps[k].id].Compared?
    ensures run[k].requests[steps[k].id].save == run[i].requests[steps[i].id].save
    ensures var save := run[i].requests[steps[i].id].save;
            var last := steps[k].last.value;
            var read, before, after := run[k].db.versions, run[i].db.versions, run[i + 1].db.versions;
            && Newest(read, last) && Newest(before, last)
            && (after.Keys == before.Keys <==>
                && read[last].version != 1
                && read[last].createdBy == save.user
                && !save.force
                && save.description == "" && read[last].description == ""
                && run[k + 1].now - read[last].createdAt < 15 * 60 * 1000)
            && (after.Keys == before.Keys ==> after == before[last := before[last].(version := save.expected + 1)])
            && (after.Keys != before.Keys ==>
                  exists row: nat ::
                    && row !in before
                    && after == before[row := VersionRow(save.expected + 1, save.user,
                                                         run[i].requests[steps[i].id].startedAt, save.description)])
  {
    var id := steps[i].id;
    k := PlanOrigin(run, steps, id, i);
    var r := run[i].requests[id];
    PlannedRowIsNewest(run, steps, i);
    AcceptedWrites(run[i], steps[i], run[i + 1]);
    var before, after := run[i].db.versions, run[i + 1].db.versions;
    if !r.plan.consolidate {
      var row := run[i + 1].log[|run[i].log|].rowId;
      assert row in after && row !in before;
    } else {
      assert after.Keys == before.Keys;
    }
  }

  // ---- Saves without changes ----

  /** A save on its way to a commit has changes or is forced; one on its way to the overwrite is not forced. */
  predicate HasReason(r: Request) {
    match r
    case Compared(save, _, changes) => changes != [] || save.force
    case Planned(save, _, changes, _) => changes != [] || save.force
    case Started(save, _, changes, _, _) => changes != [] || save.force
    case Overwriting(save) => !save.force
    case _ => true
  }

  lemma ReasonStep(s: Sys, step: Step, s': Sys, id: nat)
    requires NextStep(s, step, s') && id in s'.requests
    requires id in s.requests ==> HasReason(s.requests[id])
    ensures HasReason(s'.requests[id])
  {
  }

  lemma {:induction false} ReasonRun(run: seq<Sys>, steps: seq<Step>, n: nat, id: nat)
    requires IsRun(run, steps) && n <= |steps| && id in run[n].requests
    ensures HasReason(run[n].requests[id])
  {
    if n > 0 {
      if id in run[n - 1].requests {
        ReasonRun(run, steps, n - 1, id);
      }
      ReasonStep(run[n - 1], steps[n - 1], run[n], id);
    }
  }

  /** Without a change nothing but a forced save makes a version, and a forced save never takes the overwrite. */
  lemma NoEmptyVersions(run: seq<Sys>, steps: seq<Step>, i: nat)
    requires IsRun(run, steps) && i < |steps|
    ensures Accepts(run[i], steps[i]) ==>
              run[i].requests[steps[i].id].changes != [] || run[i].requests[steps[i].id].save.force
    ensures steps[i].Overwrite? ==>
              && steps[i].id in run[i].requests && run[i].requests[steps[i].id].Overwriting?
              && !run[i].requests[steps[i].id].save.force
  {
    assert NextStep(run[i], steps[i], run[i + 1]);
    if Accepts(run[i], steps[i]) || steps[i].Overwrite? {
      ReasonRun(run, steps, i, steps[i].id);
    }
  }

  /**
    The first read of a save decides: a stale one fails; one that is not forced and whose state
    differs nowhere takes the overwrite; all others go on to a version.
   */
  lemma CompareOutcome(s: Sys, step: Step, s': Sys)
    requires NextStep(s, step, s') && step.Compare?
    ensures step.id in s.requests && s.requests[step.id].Received? && step.id in s'.requests
    ensures var save, r := s.requests[step.id].save, s'.requests[step.id];
            && (r == Answered(false) <==> s.db.currentVersion != save.expected)
            && (r == Overwriting(save) <==>
                && s.db.currentVersion == save.expected && !save.force
                && forall e :: !RecordOf(s.db.cachedState, save.state, save.urn, save.user, e))
            && (!r.Answered? && !r.Overwriting? ==> r.Compared? && r.save == save)
  {
    var save := s.requests[step.id].save;
    if s.db.currentVersion == save.expected {
      RecordsAreExact(s.db.cachedState, save.state, save.urn, save.user, step.changes);
      var edits := EncodeAll(save.urn, save.user, step.changes);
      if step.changes != [] {
        assert edits[0] in edits;
      }
    }
  }
}
