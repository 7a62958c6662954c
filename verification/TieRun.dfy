/**
  A run of the version store in which the order of two tied edits decides what a rebuild gives:
  after a silent save of the first answer in a group, the next save changes that answer and adds
  an instance.
 */
module TieRun {
  import opened Wrappers
  import opened InstanceIds
  import opened FieldKeys
  import opened States
  import opened Edits
  import opened Replay
  import opened DiffReplay
  import opened VersionStore
  import opened StoreExamples
  import opened TieOrder
  import ElementViews

  const FIELD := SetField("2.1", "2.1.1", 0, Some(A), Some(B))
  const ADDED := Add("2.1", 1, map[])

  // ---- The diff of the second save ----

  lemma PlainKeysAgree(ch: Change)
    ensures !InPlainDiff(FIRST.answers, SECOND.answers, ch)
  {
    if ch.SetPlain? && ch.key != "2.1" {
      assert Get(FIRST.answers, ch.key) == None && Get(SECOND.answers, ch.key) == None;
    }
  }

  lemma GroupChanges(ch: Change)
    requires ch.SetField? || ch.Add? || ch.Remove?
    ensures InDiff(FIRST, SECOND, ch) <==> ch == FIELD || ch == ADDED
  {
    FirstElementsAt(ch.index);
    if ch.group != "2.1" {
      assert ElementsAt(FIRST.answers, ch.group) == [] && ElementsAt(SECOND.answers, ch.group) == [];
    }
  }

  lemma SecondDiff()
    ensures ListsDiff(FIRST, SECOND, [FIELD, ADDED])
  {
    forall ch ensures ch in [FIELD, ADDED] <==> InDiff(FIRST, SECOND, ch) {
      if ch.SetField? || ch.Add? || ch.Remove? {
        GroupChanges(ch);
      } else {
        PlainKeysAgree(ch);
      }
    }
  }

  // ---- The two replays ----

  lemma Outside()
    ensures OutsideKey(FIELD) != "2.1" && ParseInstanceId(OutsideKey(FIELD)) == InstanceId("2.1.1", Some(0))
  {
    ParseOfBuild("2.1.1", Some(0));
    ParseOfBuild("2.1", None);
  }

  /** With the field first, the answer lands outside of the group. */
  lemma FieldThenGroup()
    ensures OutsideKey(FIELD) in ApplyAll(EMPTY, [FIELD, ADDED]).answers
  {
    Outside();
    assert Apply(EMPTY, FIELD).answers == Put(EMPTY.answers, OutsideKey(FIELD), Some(B));
    TwoThenRest(EMPTY, [FIELD, ADDED]);
  }

  /** With the group first, it lands inside. */
  lemma GroupThenField()
    ensures OutsideKey(FIELD) !in ApplyAll(EMPTY, [ADDED, FIELD]).answers
  {
    Outside();
    var two := Apply(EMPTY, ADDED).answers;
    assert two.Keys == {"2.1"} && IsArray(two, "2.1");
    ElementViews.NearestGroupOfChild(two, "2.1.1", "2.1", 5);
    TwoThenRest(EMPTY, [ADDED, FIELD]);
  }

  // ---- The run ----

  function Silent(): Save { Save("a", URN, FIRST, 1, "", false) }
  function Later(): Save { Save("b", URN, SECOND, 1, "", false) }
  function Both(): seq<Change> { [FIELD, ADDED] }

  function Z1(): Sys { WithRequest(S0(), 1, Received(Silent()), 1) }
  function Z2(): Sys { WithRequest(Z1(), 1, Overwriting(Silent()), 2) }
  function Z3(): Sys { WithRequest(Z2(), 1, Answered(true), 3).(db := Z2().db.(cachedState := FIRST)) }
  function Z4(): Sys { WithRequest(Z3(), 2, Received(Later()), 4) }
  function Z5(): Sys { WithRequest(Z4(), 2, Compared(Later(), 5, Both()), 5) }
  function Z6(): Sys { WithRequest(Z5(), 2, Planned(Later(), 5, Both(), FirstPlan()), 6) }
  function Z7(): Sys { WithRequest(Z6(), 2, Started(Later(), 5, Both(), FirstPlan(), 7), 7) }
  function Z8(): Sys { AfterCommit(Z7(), 2, 1, 8) }

  lemma SilentCompare()
    ensures NextStep(Z1(), Compare(1, []), Z2())
  {
    FirstInstanceIsSilent();
  }

  lemma SilentSteps()
    ensures NextStep(S0(), Receive(1, Silent()), Z1())
    ensures NextStep(Z2(), Overwrite(1), Z3())
  {
    assert OverwriteStep(Z2(), 1, Z3());
  }

  lemma LaterSteps()
    ensures NextStep(Z3(), Receive(2, Later()), Z4())
    ensures NextStep(Z4(), Compare(2, Both()), Z5())
    ensures NextStep(Z5(), PlanSave(2, Some(0)), Z6())
  {
    SecondDiff();
    assert Newest(Z5().db.versions, 0);
    assert Plans(Z5().db, Z5().requests[2], Some(0), 6, Planned(Later(), 5, Both(), FirstPlan()));
  }

  lemma LastSteps()
    ensures NextStep(Z6(), Begin(2), Z7())
    ensures NextStep(Z7(), Commit(2, 1), Z8())
  {
    assert CommitStep(Z7(), 2, 1, Z8());
  }

  function StateAt(n: nat): Sys {
    if n == 0 then S0() else if n == 1 then Z1() else if n == 2 then Z2() else if n == 3 then Z3()
    else if n == 4 then Z4() else if n == 5 then Z5() else if n == 6 then Z6() else if n == 7 then Z7() else Z8()
  }

  function StepAt(n: nat): Step {
    if n == 0 then Receive(1, Silent()) else if n == 1 then Compare(1, []) else if n == 2 then Overwrite(1)
    else if n == 3 then Receive(2, Later()) else if n == 4 then Compare(2, Both())
    else if n == 5 then PlanSave(2, Some(0)) else if n == 6 then Begin(2) else Commit(2, 1)
  }

  function Run(): seq<Sys> { seq(9, n requires 0 <= n < 9 => StateAt(n)) }
  function RunSteps(): seq<Step> { seq(8, n requires 0 <= n < 8 => StepAt(n)) }

  lemma NextAt(n: nat)
    requires n < 8
    ensures NextStep(StateAt(n), StepAt(n), StateAt(n + 1))
  {
    if n == 1 {
      SilentCompare();
    } else if n < 3 {
      SilentSteps();
    } else if n < 6 {
      LaterSteps();
    } else {
      LastSteps();
    }
  }

  lemma RunIsRun()
    ensures IsRun(Run(), RunSteps())
  {
    StartIsInit();
    forall n: nat | n < 8 ensures NextStep(Run()[n], RunSteps()[n], Run()[n + 1]) {
      NextAt(n);
    }
  }

  // ---- What the database may return ----

  /** The three rows, with the two of the second save in the given order. */
  function Rows(a: Change, b: Change): seq<Row> {
    [Row(1, 0, S0().log[0].edits[0]), Row(2, 7, Encode(URN, "b", a)), Row(2, 7, Encode(URN, "b", b))]
  }

  lemma SelectThree(versions: map<nat, VersionRow>, e0: EditRow, e1: EditRow, e2: EditRow)
    requires e0.versionId in versions && e1.versionId in versions && e2.versionId in versions
    requires versions[e0.versionId].version <= 2 && versions[e1.versionId].version <= 2 &&
               versions[e2.versionId].version <= 2
    ensures Select(versions, [e0, e1, e2], 2) ==
            [Row(versions[e0.versionId].version, e0.editedAt, e0.edit),
             Row(versions[e1.versionId].version, e1.editedAt, e1.edit),
             Row(versions[e2.versionId].version, e2.editedAt, e2.edit)]
  {
    assert [e0, e1, e2][..2] == [e0, e1] && [e0, e1][..1] == [e0] && [e0][..0] == [];
    assert Select(versions, [e0], 2) == [Row(versions[e0.versionId].version, e0.editedAt, e0.edit)];
    assert Select(versions, [e0, e1], 2) == Select(versions, [e0],
                                                   2) + [Row(versions[e1.versionId].version, e1.editedAt, e1.edit)];
  }

  /** The tables after the second save. */
  predicate BothSaved(db: Db) {
    && 0 in db.versions && db.versions[0].version == 1 && 1 in db.versions && db.versions[1].version == 2
    && db.currentVersion == 2
    && db.edits == [EditRow(0, 0, S0().log[0].edits[0]), EditRow(1, 7, Encode(URN, "b", FIELD)),
                    EditRow(1, 7, Encode(URN, "b", ADDED))]
  }

  /** A commit on a store with one version and one edit. */
  lemma FirstCommit(db: Db, save: Save, e: EditRow, x: EditRecord, y: EditRecord, at: nat)
    requires db.versions.Keys == {0} && db.versions[0].version == 1 && db.edits == [e] && save.expected == 1
    ensures var db' := Committed(db, save, [x, y], Plan(Some(0), false), at, 1);
            && 0 in db'.versions && db'.versions[0].version == 1 && 1 in db'.versions && db'.versions[1].version == 2
            && db'.currentVersion == 2 && db'.edits == [e, EditRow(1, at, x), EditRow(1, at, y)]
  {
    assert RowsOf(1, at, [x, y]) == [EditRow(1, at, x), EditRow(1, at, y)];
  }

  lemma StillFirst()
    ensures Z7().db == S0().db.(cachedState := FIRST)
    ensures S0().db.versions.Keys == {0} && S0().db.versions[0].version == 1
    ensures S0().db.edits == [EditRow(0, 0, S0().log[0].edits[0])]
  {
  }

  lemma LastCommit()
    ensures Z8().db == Committed(Z7().db, Later(), EncodeAll(URN, "b", Both()), FirstPlan(), 7, 1)
  {
    assert Z7().requests[2] == Started(Later(), 5, Both(), FirstPlan(), 7);
  }

  lemma EncodePair(urn: string, user: string, a: Change, b: Change)
    ensures EncodeAll(urn, user, [a, b]) == [Encode(urn, user, a), Encode(urn, user, b)]
  {
  }

  lemma CommitGives(db: Db)
    requires db == S0().db.(cachedState := FIRST)
    ensures var db' := Committed(db, Later(), EncodeAll(URN, "b", Both()), FirstPlan(), 7, 1);
              BothSaved(db') && db'.cachedState == SECOND
  {
    EncodePair(URN, "b", FIELD, ADDED);
    FirstCommit(db, Later(), EditRow(0, 0, S0().log[0].edits[0]), Encode(URN, "b", FIELD), Encode(URN, "b", ADDED), 7);
  }

  lemma SecondCommit()
    ensures BothSaved(Z8().db) && Z8().db.cachedState == SECOND
  {
    StillFirst();
    CommitGives(Z7().db);
    LastCommit();
  }

  lemma SwapLast<T>(x: T, y: T, z: T)
    ensures multiset([x, y, z]) == multiset([x, z, y])
  {
    assert [x, y, z] == [x] + [y] + [z] && [x, z, y] == [x] + [z] + [y];
  }

  lemma TiedRows(x: Row, y: Row, z: Row)
    requires x.version < y.version && y.version == z.version && y.editedAt == z.editedAt
    ensures RowsSorted([x, y, z])
  {
  }

  lemma MayReturnSwapped(db: Db, v: nat, x: Row, y: Row, z: Row)
    requires Select(db.versions, db.edits, v) == [x, y, z]
    requires x.version < y.version && y.version == z.version && y.editedAt == z.editedAt
    ensures MayReturn(db, v, [x, y, z]) && MayReturn(db, v, [x, z, y])
  {
    TiedRows(x, y, z);
    TiedRows(x, z, y);
    SwapLast(x, y, z);
  }

  lemma BothMayReturn(db: Db)
    requires BothSaved(db)
    ensures MayReturn(db, db.currentVersion, Rows(FIELD, ADDED)) && MayReturn(db, db.currentVersion, Rows(ADDED, FIELD))
  {
    var rows := Rows(FIELD, ADDED);
    SelectThree(db.versions, db.edits[0], db.edits[1], db.edits[2]);
    MayReturnSwapped(db, 2, rows[0], rows[1], rows[2]);
  }

  lemma ReplayAfterInit(e: EditRecord, edits: seq<EditRecord>)
    requires e.kind == InitialState(EMPTY)
    ensures ReplayAll(EMPTY, [e] + edits) == ReplayAll(EMPTY, edits)
  {
    ReplayConcat(EMPTY, [e], edits);
    assert [e][..0] == [];
    assert ReplayAll(EMPTY, [e]) == ApplyEdit(ReplayAll(EMPTY, []), e);
  }

  lemma EditsOfThree(x: Row, y: Row, z: Row)
    ensures EditsOf([x, y, z]) == [x.edit] + [y.edit, z.edit]
  {
  }

  lemma ReplaysPair(db: Db, urn: string, user: string, x: Row, y: Row, z: Row, a: Change, b: Change)
    requires CleanChange(a) && CleanChange(b) && VersionedUrn(urn) && x.edit.kind == InitialState(EMPTY)
    requires y.edit == Encode(urn, user, a) && z.edit == Encode(urn, user, b)
    ensures Rebuilt(db, [x, y, z]) == ApplyAll(EMPTY, [a, b])
  {
    EditsOfThree(x, y, z);
    EncodePair(urn, user, a, b);
    ReplayAfterInit(x.edit, [y.edit, z.edit]);
    ReplayEncoded(EMPTY, urn, user, [a, b]);
  }

  /** Rebuilding is replaying the two changes on the empty state, in the order of the rows. */
  lemma RebuildsToChanges(db: Db, a: Change, b: Change)
    requires CleanChange(a) && CleanChange(b)
    ensures Rebuilt(db, Rows(a, b)) == ApplyAll(EMPTY, [a, b])
  {
    VersionedUrnExamples();
    var rows := Rows(a, b);
    ReplaysPair(db, URN, "b", rows[0], rows[1], rows[2], a, b);
  }

  lemma RebuildsDiffer(db: Db)
    ensures Rebuilt(db, Rows(FIELD, ADDED)) != Rebuilt(db, Rows(ADDED, FIELD))
  {
    RebuildsToChanges(db, FIELD, ADDED);
    RebuildsToChanges(db, ADDED, FIELD);
    FieldThenGroup();
    GroupThenField();
  }

  ghost predicate Reachable(s: Sys) {
    exists run, steps, n: nat :: IsRun(run, steps) && n < |run| && run[n] == s
  }

  lemma Z8Reachable()
    ensures Reachable(Z8())
  {
    RunIsRun();
    assert Run()[8] == Z8();
  }

  /**
    A reachable state for whose current version the database may return the rows of the last save in
    two orders that rebuild to different states. The condition for a free order fails: the base of
    the replay has no group, and the save both makes it and changes a field of it.
   */
  lemma TieOrderMatters() returns (s: Sys, rows: seq<Row>, rows': seq<Row>)
    ensures Reachable(s) && MayReturn(s.db, s.db.currentVersion, rows) && MayReturn(s.db, s.db.currentVersion, rows')
    ensures Rebuilt(s.db, rows) != Rebuilt(s.db, rows')
    ensures ListsDiff(FIRST, SECOND, Both()) && s.db.cachedState == SECOND
    ensures rows == Rows(FIELD, ADDED) && rows' == Rows(ADDED, FIELD) && !TieOrder.AllSettled(EMPTY.answers, Both())
  {
    s, rows, rows' := Z8(), Rows(FIELD, ADDED), Rows(ADDED, FIELD);
    Z8Reachable();
    SecondCommit();
    BothMayReturn(s.db);
    RebuildsDiffer(s.db);
    SecondDiff();
    NotSettled();
  }

  lemma NotSettled()
    ensures !TieOrder.AllSettled(EMPTY.answers, Both())
  {
    assert FIELD in Both() && ADDED in Both();
    assert !TieOrder.Settled(EMPTY.answers, Both(), FIELD);
  }
}
