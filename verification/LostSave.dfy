/**
  The first answer in a repeatable group, saved while another client is at work: the server finds
  no change in the payload, keeps its version, and the other client's next save deletes the answer
  unasked.
 */
module LostSave {
  import opened Wrappers
  import opened InstanceIds
  import opened States
  import opened Edits
  import opened Replay
  import opened DiffReplay
  import opened Schema
  import opened Grouping
  import opened Flattening
  import opened VersionStore
  import opened StoreExamples
  import opened FieldMerge
  import opened ApiClient
  import opened MergeLaws
  import opened Payloads
  import C = Collaboration

  /** A plain task, and a repeatable task with one field. */
  const TASKS: FlatTasks := map[
    "1" := FlatTask(None, [], false, []),
    "2.1" := FlatTask(None, ["2.1.1"], true, []),
    "2.1.1" := FlatTask(Some("2.1"), [], false, [])
  ]

  const DEFAULTS := {InstanceId("2.1", Some(0))}

  /** The flat key of the field. */
  function Key(): string { BuildInstanceId("2.1.1", Some(0)) }

  function Grouped(): Flat { Flat(map[Key() := Answer(Text("a"), "t")], {}) }
  function Typed(): Flat { Flat(map["1" := Answer(Text("x"), "t")], {}) }

  lemma TasksLinked()
    ensures Linked(TASKS)
    ensures forall c :: RepeatableParent(TASKS, c) == if c == "2.1.1" then Some("2.1") else None
  {
    assert TASKS.Keys == {"1", "2.1", "2.1.1"};
    assert "2.1.1" in TASKS["2.1"].childrenIds;
  }

  lemma KeyParses()
    ensures ParseInstanceId(Key()) == InstanceId("2.1.1", Some(0))
    ensures ParseInstanceId("1") == InstanceId("1", None)
    ensures Key() != "1"
  {
    ParseOfBuild("2.1.1", Some(0));
    ParseOfBuild("1", None);
  }

  lemma OneIndex(p: string)
    ensures IndicesOf(DEFAULTS, p) == if p == "2.1" then {0} else {}
  {
    if p == "2.1" {
      assert InstanceId("2.1", Some(0)) in DEFAULTS && InstanceId("2.1", Some(0)).index.value in IndicesOf(DEFAULTS, p);
    }
  }

  lemma NothingInGroups(store: Flat)
    requires Linked(TASKS) && forall k | k in store.answers :: PlaceOf(TASKS, k).AsIs?
    ensures IsGrouping(TASKS, Leaves(store.answers), DEFAULTS, Leaves(store.answers))
    ensures ReadsBack(TASKS, store, DEFAULTS)
  {
    var flat := Leaves(store.answers);
    forall p ensures !Opened(TASKS, flat, DEFAULTS, p) {
      OneIndex(p);
    }
  }

  lemma EmptyHolds()
    ensures Linked(TASKS) && Holds(TASKS, EMPTY, NOTHING) && Normal(EMPTY)
  {
    TasksLinked();
    NothingInGroups(NOTHING);
    assert Leaves(NOTHING.answers) == EMPTY.answers;
    assert IsPayload(TASKS, NOTHING, DEFAULTS, EMPTY);
  }

  lemma TypedPayload()
    ensures Linked(TASKS) && IsPayload(TASKS, Typed(), DEFAULTS, WITH_X) && ReadsBack(TASKS, Typed(), DEFAULTS)
  {
    TasksLinked();
    KeyParses();
    NothingInGroups(Typed());
    assert Leaves(Typed().answers) == WITH_X.answers;
  }

  /** Flat answers with one key, which belongs to element 0 of the group. */
  predicate OneKey(flat: map<string, Entry>, key: string)
    requires Linked(TASKS)
  {
    flat == map[key := A] && PlaceOf(TASKS, key) == InGroup("2.1", 0, "2.1.1")
  }

  lemma OneAnswer(flat: map<string, Entry>, key: string, p: string, i: nat)
    requires Linked(TASKS) && OneKey(flat, key)
    ensures HasAnswer(TASKS, flat, p, i) <==> p == "2.1" && i == 0
    ensures Opened(TASKS, flat, DEFAULTS, p) <==> p == "2.1"
  {
    OneIndex(p);
    assert key in flat;
    assert HasAnswer(TASKS, flat, "2.1", 0);
  }

  lemma OneCell(flat: map<string, Entry>, key: string, i: nat)
    requires Linked(TASKS) && OneKey(flat, key)
    ensures At(FIRST.answers, "2.1", i).Some? <==> HasAnswer(TASKS, flat, "2.1", i) || i in IndicesOf(DEFAULTS, "2.1")
    ensures At(FIRST.answers, "2.1", i).Some? ==>
              CollectsFields(TASKS, flat, "2.1", i, At(FIRST.answers, "2.1", i).value)
  {
    OneAnswer(flat, key, "2.1", i);
    OneIndex("2.1");
    FirstElementsAt(i);
    assert key in flat;
  }

  lemma OneKeyGrouping(flat: map<string, Entry>, key: string)
    requires Linked(TASKS) && OneKey(flat, key)
    ensures IsGrouping(TASKS, flat, DEFAULTS, FIRST.answers)
  {
    var g := FIRST.answers;
    forall k | !Opened(TASKS, flat, DEFAULTS, k)
      ensures Get(g, k) == if PlaceOf(TASKS, k).AsIs? then Get(flat, k) else None {
      OneAnswer(flat, key, k, 0);
    }
    forall p | Opened(TASKS, flat, DEFAULTS, p) ensures p == "2.1" {
      OneAnswer(flat, key, p, 0);
    }
    assert IsArray(g, "2.1") && StrictlySorted(g["2.1"].elements);
    forall i: nat
      ensures At(g, "2.1", i).Some? <==> HasAnswer(TASKS, flat, "2.1", i) || i in IndicesOf(DEFAULTS, "2.1")
      ensures At(g, "2.1", i).Some? ==> CollectsFields(TASKS, flat, "2.1", i, At(g, "2.1", i).value) {
      OneCell(flat, key, i);
    }
  }

  lemma GroupedPayload()
    ensures Linked(TASKS) && IsPayload(TASKS, Grouped(), DEFAULTS, FIRST) && ReadsBack(TASKS, Grouped(), DEFAULTS)
  {
    TasksLinked();
    KeyParses();
    assert OneKey(Leaves(Grouped().answers), Key());
    OneKeyGrouping(Leaves(Grouped().answers), Key());
    BuildOfParse(Key());
  }

  // ---- The run ----

  const NOTHING_READ := Fetched(NOTHING, false)

  function T0(): C.Sys { C.Sys(TASKS, C.Server(1, EMPTY), map[], map[1 := NOTHING]) }
  function T1(): C.Sys { C.WithClient(T0(), 1, C.Fresh(1, NOTHING)) }
  function T2(): C.Sys { C.WithClient(T1(), 2, C.Fresh(1, NOTHING)) }
  function T3(): C.Sys { C.WithClient(T2(), 1, C.Fresh(1, NOTHING).(store := Grouped())) }
  function T4(): C.Sys { C.WithClient(T3(), 2, C.Fresh(1, NOTHING).(store := Typed())) }
  ghost function T5(): C.Sys { C.AfterPut(T4(), 1, C.Sending(C.Fresh(1, NOTHING).(store := Grouped())), FIRST) }
  ghost function T6(): C.Sys { C.AfterPut(T5(), 2, Second(), WITH_X) }

  /** What the second client sends. */
  function Second(): C.ClientState { C.Sending(C.Fresh(1, NOTHING).(store := Typed())) }

  function TypingStates(): seq<C.Sys> { [T0(), T1(), T2(), T3(), T4()] }
  function TypingSteps(): seq<C.Step> {
    [C.Join(1, NOTHING_READ), C.Join(2, NOTHING_READ), C.Edit(1, Grouped()), C.Edit(2, Typed())]
  }

  lemma BothJoin()
    ensures C.Started(T0())
    ensures C.NextStep(T0(), C.Join(1, NOTHING_READ), T1()) && C.NextStep(T1(), C.Join(2, NOTHING_READ), T2())
  {
    EmptyHolds();
    ContentIsRead(TASKS, EMPTY, NOTHING);
    assert Holds(TASKS, EMPTY, T0().contents[1]);
  }

  lemma BothType()
    ensures C.NextStep(T2(), C.Edit(1, Grouped()), T3()) && C.NextStep(T3(), C.Edit(2, Typed()), T4())
  {
  }

  lemma TypingStep(k: nat)
    requires k < 4
    ensures C.NextStep(TypingStates()[k], TypingSteps()[k], TypingStates()[k + 1]) &&
              C.Careful(TypingStates()[k], TypingSteps()[k])
  {
    BothJoin();
    BothType();
  }

  lemma TypingRun()
    ensures C.Run(TypingStates(), TypingSteps())
  {
    BothJoin();
    forall k | 0 <= k < |TypingSteps()|
      ensures C.NextStep(TypingStates()[k], TypingSteps()[k], TypingStates()[k + 1])
      ensures C.Careful(TypingStates()[k], TypingSteps()[k]) {
      TypingStep(k);
    }
  }

  /** The first client's save: accepted, and the server finds no change. */
  lemma FirstSave()
    ensures C.NextStep(T4(), C.Save(1, DEFAULTS, FIRST), T5())
    ensures NoChange(EMPTY, FIRST) && T5().server == C.Server(1, FIRST)
    ensures T5().tasks == TASKS && 2 in T5().clients && T5().clients[2] == C.Fresh(1, NOTHING).(store := Typed())
  {
    GroupedPayload();
    FirstInstanceIsSilent();
    DiffIsExact(NOTHING, Grouped(), AnswerField(Key()));
  }

  /** The second client's save: accepted too, since the version is still its own, and noticed. */
  lemma SecondSave()
    ensures C.NextStep(T5(), C.Save(2, DEFAULTS, WITH_X), T6())
    ensures C.AcceptedPut(T5(), C.Save(2, DEFAULTS, WITH_X))
    ensures T6().server.stored == WITH_X
  {
    FirstSave();
    TypedPayload();
    DiffIsExact(NOTHING, Typed(), AnswerField("1"));
  }

  lemma WhatIsRead(read: Fetched)
    ensures Reads(FIRST, read) ==> Key() in read.flat.answers
    ensures Reads(WITH_X, read) ==> Key() !in read.flat.answers
  {
    KeyParses();
    if Reads(FIRST, read) {
      GroupedPayload();
      assert Holds(TASKS, FIRST, Grouped());
      ReadIsContent(TASKS, FIRST, Grouped(), read);
    }
    if Reads(WITH_X, read) {
      TypedPayload();
      assert Holds(TASKS, WITH_X, Typed());
      ReadIsContent(TASKS, WITH_X, Typed(), read);
    }
  }

  /**
    The run: both clients join and type; the first saves its answer in the new group and the
    server stores it under the same version; the second, who never touched that field and is not
    rejected, saves, and the answer is gone.
   */
  lemma UnnoticedSaveIsLost(was: Fetched, now: Fetched)
    requires Reads(T5().server.stored, was) && Reads(T6().server.stored, now)
    ensures C.Run(TypingStates(), TypingSteps()) && TypingStates()[4] == T4()
    ensures C.NextStep(T4(), C.Save(1, DEFAULTS, FIRST), T5()) && C.NextStep(T5(), C.Save(2, DEFAULTS, WITH_X), T6())
    ensures T5().server.version == T4().server.version
    ensures Key() in was.flat.answers && Key() !in now.flat.answers
    ensures !Changed(Second().base, Second().edited, AnswerField(Key())) && !C.NothingLost(Second(), was.flat, now.flat)
    ensures !C.Careful(T4(), C.Save(1, DEFAULTS, FIRST))
  {
    TypingRun();
    FirstSave();
    SecondSave();
    WhatIsRead(was);
    WhatIsRead(now);
    NotTouched();
    NotCareful();
    assert Changed(was.flat, now.flat, AnswerField(Key()));
  }

  lemma NotTouched()
    ensures C.AcceptedPut(T5(), C.Save(2, DEFAULTS, WITH_X))
    ensures C.Sender(T5(), C.Save(2, DEFAULTS, WITH_X)) == Second()
    ensures !Changed(Second().base, Second().edited, AnswerField(Key()))
  {
    SecondSave();
    FirstSave();
    KeyParses();
  }

  lemma NotCareful()
    ensures !C.Careful(T4(), C.Save(1, DEFAULTS, FIRST))
  {
    TasksLinked();
    FirstInstanceIsSilent();
  }
}
