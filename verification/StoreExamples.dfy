/** Concrete inputs on which the lossy branches and the untested overwrite break the refinement. */
module StoreExamples {
  import opened Wrappers
  import opened InstanceIds
  import opened FieldKeys
  import opened States
  import opened Edits
  import opened Replay
  import opened DiffReplay
  import opened VersionStore
  import opened Rebuild
  import opened StoreRuns

  const URN := "urn:nl:dpia:3.0"
  const X := Leaf(Answer(Text("x"), "t"))
  const WITH_X := State(map["1" := X], {})

  /** One user's save that changes nothing, and another's that sets field 1. */
  function Idle(): Save { Save("a", URN, EMPTY, 1, "", false) }
  function Typing(): Save { Save("b", URN, WITH_X, 1, "", false) }

  lemma TypingDiff()
    ensures ListsDiff(EMPTY, WITH_X, [SetPlain("1", None, Some(X))])
    ensures Normal(EMPTY) && Normal(WITH_X) && VersionedUrn(URN) && Faithful(EMPTY, WITH_X)
  {
    VersionedUrnExamples();
    var chs := [SetPlain("1", None, Some(X))];
    forall ch ensures ch in chs <==> InDiff(EMPTY, WITH_X, ch) {
      assert Get(EMPTY.answers, "1") == None && Get(WITH_X.answers, "1") == Some(X);
    }
  }

  function Chs(): seq<Change> { [SetPlain("1", None, Some(X))] }
  function FirstPlan(): Plan { Plan(Some(0), false) }

  function S0(): Sys {
    var edit := EditRecord("__initial__", InitialState(EMPTY), "a");
    Sys(Db(1, EMPTY, map[0 := VersionRow(1, "a", 0, "")], RowsOf(0, 0, [edit])),
        0, map[], map[], [Batch(0, 0, 0, [edit], "", "a", [], EMPTY)], 0)
  }
  function S1(): Sys { WithRequest(S0(), 1, Received(Idle()), 1) }
  function S2(): Sys { WithRequest(S1(), 2, Received(Typing()), 2) }
  function S3(): Sys { WithRequest(S2(), 1, Overwriting(Idle()), 3) }
  function S4(): Sys { WithRequest(S3(), 2, Compared(Typing(), 4, Chs()), 4) }
  function S5(): Sys { WithRequest(S4(), 2, Planned(Typing(), 4, Chs(), FirstPlan()), 5) }
  function S6(): Sys { WithRequest(S5(), 2, Started(Typing(), 4, Chs(), FirstPlan(), 6), 6) }
  function S7(): Sys { AfterCommit(S6(), 2, 1, 7) }
  function S8(): Sys { WithRequest(S7(), 1, Answered(true), 8).(db := S7().db.(cachedState := EMPTY)) }

  lemma Steps012()
    ensures NextStep(S0(), Receive(1, Idle()), S1())
    ensures NextStep(S1(), Receive(2, Typing()), S2())
    ensures NextStep(S2(), Compare(1, []), S3())
  {
    SameStateNoChanges(EMPTY);
  }

  lemma Steps345()
    ensures NextStep(S3(), Compare(2, Chs()), S4())
    ensures NextStep(S4(), PlanSave(2, Some(0)), S5())
    ensures NextStep(S5(), Begin(2), S6())
  {
    TypingDiff();
    assert Newest(S4().db.versions, 0);
    assert !CanConsolidate(S4().db, Typing(), 0, 5);
    assert Plans(S4().db, S4().requests[2], Some(0), 5, Planned(Typing(), 4, Chs(), FirstPlan()));
  }

  lemma Steps67()
    ensures NextStep(S6(), Commit(2, 1), S7())
    ensures NextStep(S7(), Overwrite(1), S8())
    ensures Careful(S6(), Commit(2, 1))
    ensures S7().db.cachedState == WITH_X
  {
    TypingDiff();
    assert CommitStep(S6(), 2, 1, S7());
    assert S7().requests[1] == Overwriting(Idle());
    assert OverwriteStep(S7(), 1, S8());
  }

  function StateAt(n: nat): Sys {
    if n == 0 then S0() else if n == 1 then S1() else if n == 2 then S2() else if n == 3 then S3()
    else if n == 4 then S4() else if n == 5 then S5() else if n == 6 then S6() else S7()
  }

  function StepAt(n: nat): Step {
    if n == 0 then Receive(1, Idle()) else if n == 1 then Receive(2, Typing())
    else if n == 2 then Compare(1, []) else if n == 3 then Compare(2, Chs())
    else if n == 4 then PlanSave(2, Some(0)) else if n == 5 then Begin(2) else Commit(2, 1)
  }

  lemma StepIsCareful(n: nat)
    requires n < 7
    ensures NextStep(StateAt(n), StepAt(n), StateAt(n + 1)) && Careful(StateAt(n), StepAt(n))
  {
    TypingDiff();
    if n < 3 {
      Steps012();
    } else if n < 6 {
      Steps345();
    } else {
      Steps67();
    }
  }

  function Before(): seq<Sys> { seq(8, n requires 0 <= n < 8 => StateAt(n)) }
  function BeforeSteps(): seq<Step> { seq(7, n requires 0 <= n < 7 => StepAt(n)) }

  lemma BeforeIsCareful()
    ensures IsCarefulRun(Before(), BeforeSteps())
  {
    StartIsInit();
    forall n: nat | n < 7
      ensures NextStep(Before()[n], BeforeSteps()[n], Before()[n + 1]) && Careful(Before()[n], BeforeSteps()[n]) {
      StepIsCareful(n);
    }
  }

  lemma StartIsInit()
    ensures Init(S0()) && Normal(S0().db.cachedState)
  {
  }

  /**
    A run in which the overwrite without edits destroys a save: a idles and b types, both on version 1;
    a's request finds no edits, b's save commits as version 2, then a's update runs. Every step but
    the last is careful, and after the last one the log no longer replays to the cached state.
   */
  lemma StaleOverwriteLosesSave()
    ensures IsCarefulRun(Before(), BeforeSteps())
    ensures NextStep(S7(), Overwrite(1), S8())
    ensures S7().db.cachedState == WITH_X && S8().db.cachedState == EMPTY
    ensures Refines(S7()) && !Refines(S8())
  {
    BeforeIsCareful();
    Steps67();
    BeforeIsGood();
    OverwriteBreaks(S7(), S8());
  }

  lemma BeforeIsGood()
    ensures Inv(S7()) && Good(S7()) && Refines(S7())
  {
    BeforeIsCareful();
    assert Before()[7] == StateAt(7) == S7();
    WholeRunRefinement(Before(), BeforeSteps(), 7);
    GoodRun(Before(), BeforeSteps(), 7);
    InvRun(Before(), BeforeSteps(), 7);
  }

  lemma OverwriteBreaks(s: Sys, s': Sys)
    requires Inv(s) && Good(s) && s.db.cachedState == WITH_X
    requires NextStep(s, Overwrite(1), s') && s.requests[1].save == Idle()
    ensures !Refines(s')
  {
    OverwriteRefinesIff(s, 1, s');
    EmptyDiffersFromTyped();
  }

  lemma EmptyDiffersFromTyped()
    ensures !ListsDiff(WITH_X, EMPTY, [])
  {
    assert InDiff(WITH_X, EMPTY, SetPlain("1", Some(X), None));
  }

  // ---- Element 0 of a new group ----

  const A := Leaf(Answer(Text("a"), "t"))
  const B := Leaf(Answer(Text("b"), "t"))
  const FIRST := State(map["2.1" := Group([Element(0, map["2.1.1" := A])])], {})
  const SECOND := State(map["2.1" := Group([Element(0, map["2.1.1" := B]), Element(1, map[])])], {})

  lemma FirstElementsAt(i: nat)
    ensures At(FIRST.answers, "2.1", i) == if i == 0 then Some(map["2.1.1" := A]) else None
    ensures At(SECOND.answers, "2.1", i) == if i == 0 then Some(map["2.1.1" := B]) else if i == 1 then Some(map[])
              else None
  {
    var one, two := ElementsAt(FIRST.answers, "2.1"), ElementsAt(SECOND.answers, "2.1");
    FieldsAtHas(one, i);
    FieldsAtHas(two, i);
    FieldsAtSorted(one, 0);
    FieldsAtSorted(two, 0);
    FieldsAtSorted(two, 1);
  }

  /**
    The first answer in a repeatable group is saved without a single edit, although the state
    changes: the save takes the overwrite branch and the version stays the same.
   */
  lemma FirstInstanceIsSilent()
    ensures ListsDiff(EMPTY, FIRST, []) && EMPTY != FIRST && !Faithful(EMPTY, FIRST)
  {
    forall ch ensures !InDiff(EMPTY, FIRST, ch) {
      if ch.SetField? || ch.Add? || ch.Remove? {
        FirstElementsAt(ch.index);
        assert ElementsAt(EMPTY.answers, ch.group) == [];
        if ch.group != "2.1" {
          assert ElementsAt(FIRST.answers, ch.group) == [];
        }
      }
    }
    assert EMPTY.answers != FIRST.answers by {
      assert "2.1" in FIRST.answers && "2.1" !in EMPTY.answers;
    }
    assert IsArray(FIRST.answers, "2.1");
    FirstElementsAt(0);
    assert FieldsAt(FIRST.answers["2.1"].elements, 0).Some?;
  }
}
