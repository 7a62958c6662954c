/**
  Any number of clients saving to one server under the version lock: save, rejection, merge or
  dialog, retry. The server keeps the grouped state, compares every accepted payload with it and
  raises the version if it finds a change. A save and its reply are one step; a client may edit
  while it waits for the state to merge with, or for the user's choices.
 */
module Collaboration {
  import opened Wrappers
  import opened InstanceIds
  import opened States
  import opened DiffReplay
  import opened Schema
  import opened Flattening
  import opened FieldMerge
  import opened ApiClient
  import opened MergeLaws
  import opened Payloads

  datatype Server = Server(version: nat, stored: State)

  datatype Phase = Ready | Rejected | Asking(server: Fetched, version: nat, conflicts: set<Field>) | Merged

  /** `baseVersion`, `edited`, `chosen` and `yielded` are history: what the decisions were, for the statements below. */
  datatype ClientState = ClientState(phase: Phase, store: Flat, base: Flat, known: nat, pending: Changes,
                                     baseVersion: nat, edited: Flat, chosen: set<Field>, yielded: set<Field>)

  /** `contents` is history: the flat state behind what the server had at each version. */
  datatype Sys = Sys(tasks: FlatTasks, server: Server, clients: map<nat, ClientState>, contents: map<nat, Flat>)

  datatype Step =
    | Join(id: nat, read: Fetched)
    | Edit(id: nat, store: Flat)
    | Save(id: nat, existing: set<InstanceId>, payload: State)
    | Fetch(id: nat, read: Fetched, merged: Flat)
    | Resolve(id: nat, choices: map<Field, Choice>, resolved: Flat)
    | Retry(id: nat, existing: set<InstanceId>, payload: State)

  function Fresh(version: nat, content: Flat): ClientState {
    ClientState(Ready, content, content, version, map[], version, content, {}, {})
  }

  // ---- Steps ----

  function WithClient(s: Sys, id: nat, c: ClientState): Sys {
    s.(clients := s.clients[id := c])
  }

  /** A client's request to store its state on top of the version it knows. */
  predicate Accepts(s: Sys, c: ClientState) {
    c.known == s.server.version
  }

  /** The lock, the comparison, and the write; without a change the payload is stored all the same. */
  ghost function AfterPut(s: Sys, id: nat, c: ClientState, payload: State): Sys {
    if !Accepts(s, c) then
      WithClient(s, id, c.(phase := Rejected))
    else
      var version := if NoChange(s.server.stored, payload) then s.server.version else s.server.version + 1;
      Sys(s.tasks, Server(version, payload), s.clients[id := Fresh(version, c.store)], s.contents[version := c.store])
  }

  ghost predicate PutStep(s: Sys, id: nat, c: ClientState, existing: set<InstanceId>, payload: State, s': Sys) {
    Linked(s.tasks) && IsPayload(s.tasks, c.store, existing, payload) && s' == AfterPut(s, id, c, payload)
  }

  /** What saveAppState sends: the pending changes are taken against the baseline. */
  function Sending(c: ClientState): ClientState {
    c.(pending := DiffOf(c.base, c.store), edited := c.store, chosen := {}, yielded := {})
  }

  ghost predicate FetchStep(s: Sys, id: nat, c: ClientState, read: Fetched, merged: Flat, s': Sys) {
    var conflicts := set f | f in c.pending && Conflicts(c.pending, DiffOf(c.base, read.flat), f);
    && Reads(s.server.stored, read)
    && if conflicts == {} then
         && Overlaid(Applied(c.store, read), c.pending, merged)
         && s' == WithClient(s, id, c.(phase := Merged, store := merged, known := s.server.version, chosen := {},
                                       yielded := {}))
       else
         s' == WithClient(s, id, c.(phase := Asking(read, s.server.version, conflicts)))
  }

  ghost predicate ResolveStep(s: Sys, id: nat, c: ClientState, choices: map<Field, Choice>, resolved: Flat, s': Sys)
    requires c.phase.Asking?
  {
    var chosen := set f | f in c.phase.conflicts && f in choices && choices[f] == Mine;
    && Overlaid(Applied(c.store, c.phase.server), Kept(c.pending, c.phase.conflicts, choices), resolved)
    && s' == WithClient(s, id, c.(phase := Merged, store := resolved, known := c.phase.version,
                                  chosen := chosen, yielded := c.phase.conflicts - chosen))
  }

  ghost predicate NextStep(s: Sys, step: Step, s': Sys) {
    match step
    case Join(id, read) =>
      id !in s.clients && Reads(s.server.stored, read) && s' == WithClient(s, id, Fresh(s.server.version, read.flat))
    case Edit(id, store) =>
      id in s.clients && !s.clients[id].phase.Merged? && s' == WithClient(s, id, s.clients[id].(store := store))
    case Save(id, existing, payload) =>
      && id in s.clients && s.clients[id].phase.Ready?
      && var c := Sending(s.clients[id]);
         if c.pending == map[] then s' == WithClient(s, id, c) else PutStep(s, id, c, existing, payload, s')
    case Fetch(id, read, merged) =>
      id in s.clients && s.clients[id].phase.Rejected? && FetchStep(s, id, s.clients[id], read, merged, s')
    case Resolve(id, choices, resolved) =>
      id in s.clients && s.clients[id].phase.Asking? && ResolveStep(s, id, s.clients[id], choices, resolved, s')
    case Retry(id, existing, payload) =>
      id in s.clients && s.clients[id].phase.Merged? && PutStep(s, id, s.clients[id], existing, payload, s')
  }

  /** A server without clients, whose state reads back as the recorded content. */
  ghost predicate Started(s: Sys) {
    && Linked(s.tasks) && Normal(s.server.stored)
    && s.clients == map[] && s.contents.Keys == {s.server.version}
    && Holds(s.tasks, s.server.stored, s.contents[s.server.version])
  }

  // ---- The conditions ----

  /**
    What an accepted payload must be like: in normal form, of a store that reads back, and if the
    server finds no change in it, then not because of a lossy branch of the comparison.
   */
  ghost predicate PayloadOk(s: Sys, c: ClientState, existing: set<InstanceId>, payload: State) {
    Accepts(s, c) && Linked(s.tasks) ==>
      && Normal(payload) && ReadsBack(s.tasks, c.store, existing)
      && (NoChange(s.server.stored, payload) ==> Faithful(s.server.stored, payload))
  }

  /** The guards: sound payloads, and no merge that keeps a local field because the server's component is empty. */
  ghost predicate Careful(s: Sys, step: Step) {
    match step
    case Save(id, existing, payload) => id in s.clients ==> PayloadOk(s, s.clients[id], existing, payload)
    case Retry(id, existing, payload) => id in s.clients ==> PayloadOk(s, s.clients[id], existing, payload)
    case Fetch(id, read, _) => id in s.clients ==> NothingStale(s.clients[id].store, read, s.clients[id].pending)
    case Resolve(id, choices, _) =>
      id in s.clients && s.clients[id].phase.Asking? ==>
        NothingStale(s.clients[id].store, s.clients[id].phase.server,
                     Kept(s.clients[id].pending, s.clients[id].phase.conflicts, choices))
    case _ => true
  }

  // ---- The invariant ----

  /** The payload is the content with my edits since the baseline, except the fields that I yielded. */
  ghost predicate IsMerge(c: ClientState, content: Flat, payload: Flat) {
    forall f :: Value(payload, f) == Value(if Changed(c.base, c.edited, f) && f !in c.yielded then c.edited
                                           else content, f)
  }

  /** Where both sides changed a field, I yielded, I chose mine, or the values shown are the same. */
  ghost predicate ConflictsSettled(c: ClientState, content: Flat) {
    forall f {:trigger Changed(c.base, content, f)} | Changed(c.base, content, f) && Changed(c.base, c.edited, f) ::
      f in c.yielded || f in c.chosen || !Contradict(c.edited, content, f)
  }

  ghost predicate ClientOk(s: Sys, c: ClientState) {
    && c.known in s.contents && c.baseVersion in s.contents
    && c.base == s.contents[c.baseVersion]
    && match c.phase
       case Ready => c.baseVersion == c.known
       case Rejected => c.pending == DiffOf(c.base, c.edited)
       case Asking(server, version, conflicts) =>
         && c.pending == DiffOf(c.base, c.edited)
         && version in s.contents && server.flat == s.contents[version] && FetchedOk(server)
         && forall f :: f in conflicts <==> Conflicts(c.pending, DiffOf(c.base, server.flat), f)
       case Merged =>
         && c.pending == DiffOf(c.base, c.edited)
         && IsMerge(c, s.contents[c.known], c.store) && ConflictsSettled(c, s.contents[c.known])
  }

  /** The content at the current version. */
  function Content(s: Sys): Flat
    requires s.server.version in s.contents
  {
    s.contents[s.server.version]
  }

  ghost predicate Inv(s: Sys) {
    && Linked(s.tasks) && Normal(s.server.stored)
    && s.server.version in s.contents && Holds(s.tasks, s.server.stored, Content(s))
    && (forall v | v in s.contents :: v <= s.server.version)
    && (forall id {:trigger ClientOk(s, s.clients[id])} | id in s.clients :: ClientOk(s, s.clients[id]))
  }

  /** Other clients are fine as long as the recorded contents stay. */
  lemma ClientKept(s: Sys, s': Sys, c: ClientState)
    requires ClientOk(s, c) && forall v | v in s.contents :: v in s'.contents && s'.contents[v] == s.contents[v]
    ensures ClientOk(s', c)
  {
  }

  lemma OthersKept(s: Sys, s': Sys, id: nat)
    requires Inv(s) && forall v | v in s.contents :: v in s'.contents && s'.contents[v] == s.contents[v]
    requires forall j | j in s'.clients && j != id :: j in s.clients && s'.clients[j] == s.clients[j]
    ensures forall j {:trigger ClientOk(s', s'.clients[j])} | j in s'.clients && j != id :: ClientOk(s', s'.clients[j])
  {
    forall j | j in s'.clients && j != id ensures ClientOk(s', s'.clients[j]) {
      ClientKept(s, s', s.clients[j]);
    }
  }

  lemma InvPut(s: Sys, id: nat, c: ClientState, existing: set<InstanceId>, payload: State)
    requires Inv(s) && id in s.clients && IsPayload(s.tasks, c.store, existing, payload) &&
               PayloadOk(s, c, existing, payload)
    requires Accepts(s, c) || ClientOk(s, c.(phase := Rejected))
    ensures Inv(AfterPut(s, id, c, payload))
  {
    var s' := AfterPut(s, id, c, payload);
    if !Accepts(s, c) {
      OthersKept(s, s', id);
      ClientKept(s, s', c.(phase := Rejected));
    } else {
      assert Holds(s.tasks, payload, c.store);
      if NoChange(s.server.stored, payload) {
        UnnoticedIff(s.tasks, s.server.stored, Content(s), c.store, existing, payload);
      }
      OthersKept(s, s', id);
    }
  }

  lemma InvSave(s: Sys, step: Step, s': Sys)
    requires Inv(s) && step.Save? && NextStep(s, step, s') && Careful(s, step)
    ensures Inv(s')
  {
    assert ClientOk(s, s.clients[step.id]);
    var c := Sending(s.clients[step.id]);
    if c.pending == map[] {
      OthersKept(s, s', step.id);
    } else {
      InvPut(s, step.id, c, step.existing, step.payload);
    }
  }

  lemma FetchMerges(s: Sys, c: ClientState, read: Fetched, merged: Flat)
    requires Inv(s) && ClientOk(s, c) && c.phase.Rejected? && read.flat == Content(s) && FetchedOk(read)
    requires forall f | f in c.pending :: !Conflicts(c.pending, DiffOf(c.base, read.flat), f)
    requires Overlaid(Applied(c.store, read), c.pending, merged)
    requires NothingStale(c.store, read, c.pending)
    ensures ClientOk(s, c.(phase := Merged, store := merged, known := s.server.version, chosen := {}, yielded := {}))
  {
    var content := read.flat;
    var c' := c.(phase := Merged, store := merged, known := s.server.version, chosen := {}, yielded := {});
    OverlayLaw(c.store, read, c.pending, merged);
    forall f ensures Value(merged, f) == Value(if Changed(c.base, c.edited, f) then c.edited else content, f)
             ensures Changed(c.base, content, f) && Changed(c.base, c.edited, f) ==>
                       !Contradict(c.edited, content, f) {
      DiffIsExact(c.base, c.edited, f);
      ConflictsExact(c.base, c.edited, content, f);
    }
    assert IsMerge(c', content, merged) && ConflictsSettled(c', content);
  }

  lemma InvFetch(s: Sys, step: Step, s': Sys)
    requires Inv(s) && step.Fetch? && NextStep(s, step, s') && Careful(s, step)
    ensures Inv(s')
  {
    var c, read := s.clients[step.id], step.read;
    assert ClientOk(s, c);
    ReadIsContent(s.tasks, s.server.stored, Content(s), read);
    var conflicts := set f | f in c.pending && Conflicts(c.pending, DiffOf(c.base, read.flat), f);
    OthersKept(s, s', step.id);
    if conflicts == {} {
      assert forall f | f in c.pending && Conflicts(c.pending, DiffOf(c.base, read.flat), f) :: f in conflicts;
      FetchMerges(s, c, read, step.merged);
    }
    ClientKept(s, s', s'.clients[step.id]);
  }

  lemma ResolveMerges(s: Sys, c: ClientState, choices: map<Field, Choice>, chosen: set<Field>, resolved: Flat)
    requires ClientOk(s, c) && c.phase.Asking?
    requires chosen == set f | f in c.phase.conflicts && f in choices && choices[f] == Mine
    requires Overlaid(Applied(c.store, c.phase.server), Kept(c.pending, c.phase.conflicts, choices), resolved)
    requires NothingStale(c.store, c.phase.server, Kept(c.pending, c.phase.conflicts, choices))
    ensures ClientOk(s, c.(phase := Merged, store := resolved, known := c.phase.version,
                           chosen := chosen, yielded := c.phase.conflicts - chosen))
  {
    var content, kept := c.phase.server.flat, Kept(c.pending, c.phase.conflicts, choices);
    var c' := c.(phase := Merged, store := resolved, known := c.phase.version,
                 chosen := chosen, yielded := c.phase.conflicts - chosen);
    OverlayLaw(c.store, c.phase.server, kept, resolved);
    forall f ensures Value(resolved, f) == Value(if Changed(c.base, c.edited, f) && f !in c'.yielded then c.edited
                                                 else content, f)
             ensures Changed(c.base, content, f) && Changed(c.base, c.edited, f) ==>
                       f in c'.yielded || f in chosen || !Contradict(c.edited, content, f) {
      DiffIsExact(c.base, c.edited, f);
      ConflictsExact(c.base, c.edited, content, f);
    }
    assert IsMerge(c', content, resolved) && ConflictsSettled(c', content);
  }

  lemma InvResolve(s: Sys, step: Step, s': Sys)
    requires Inv(s) && step.Resolve? && NextStep(s, step, s') && Careful(s, step)
    ensures Inv(s')
  {
    var c := s.clients[step.id];
    assert ClientOk(s, c);
    var chosen := set f | f in c.phase.conflicts && f in step.choices && step.choices[f] == Mine;
    ResolveMerges(s, c, step.choices, chosen, step.resolved);
    OthersKept(s, s', step.id);
    ClientKept(s, s', s'.clients[step.id]);
  }

  /** Every step keeps the invariant; in particular a ready client's baseline is the server's content at its version. */
  lemma InvNext(s: Sys, step: Step, s': Sys)
    requires Inv(s) && NextStep(s, step, s') && Careful(s, step)
    ensures Inv(s')
  {
    match step
    case Join(id, read) =>
      ReadIsContent(s.tasks, s.server.stored, Content(s), read);
      OthersKept(s, s', id);
    case Edit(id, _) =>
      assert ClientOk(s, s.clients[id]);
      OthersKept(s, s', id);
    case Save(_, _, _) => InvSave(s, step, s');
    case Fetch(_, _, _) => InvFetch(s, step, s');
    case Resolve(_, _, _) => InvResolve(s, step, s');
    case Retry(id, existing, payload) =>
      assert ClientOk(s, s.clients[id]);
      InvPut(s, id, s.clients[id], existing, payload);
  }

  // ---- Every run ----

  /** A run from a server without clients, every step careful. */
  ghost predicate Run(states: seq<Sys>, steps: seq<Step>) {
    && |states| == |steps| + 1 && Started(states[0])
    && forall k {:trigger steps[k]} | 0 <= k < |steps| ::
         NextStep(states[k], steps[k], states[k + 1]) && Careful(states[k], steps[k])
  }

  lemma {:induction false} InvRun(states: seq<Sys>, steps: seq<Step>, k: nat)
    requires Run(states, steps) && k < |states|
    ensures Inv(states[k])
  {
    if k > 0 {
      InvRun(states, steps, k - 1);
      InvNext(states[k - 1], steps[k - 1], states[k]);
    }
  }

  /**
    In every state of a run, a client that is not in the middle of a save has the server's content at
    its version as baseline.
   */
  lemma BaselineIsServerContent(states: seq<Sys>, steps: seq<Step>, k: nat, id: nat)
    requires Run(states, steps) && k < |states| && id in states[k].clients && states[k].clients[id].phase.Ready?
    ensures var c := states[k].clients[id];
            c.known in states[k].contents && c.base == states[k].contents[c.known] &&
                c.known <= states[k].server.version &&
            (c.known == states[k].server.version ==> forall read | Reads(states[k].server.stored, read) ::
             c.base == read.flat)
  {
    var s := states[k];
    InvRun(states, steps, k);
    assert ClientOk(s, s.clients[id]);
    forall read | Reads(s.server.stored, read) ensures read.flat == Content(s) {
      ReadIsContent(s.tasks, s.server.stored, Content(s), read);
    }
  }

  /** The step is a save or retry that the server accepts. */
  predicate AcceptedPut(s: Sys, step: Step) {
    match step
    case Save(id, _, _) =>
      id in s.clients && s.clients[id].phase.Ready? && Sending(s.clients[id]).pending != map[] &&
          Accepts(s, s.clients[id])
    case Retry(id, _, _) => id in s.clients && s.clients[id].phase.Merged? && Accepts(s, s.clients[id])
    case _ => false
  }

  /** The client whose state is sent, with what it decided. */
  function Sender(s: Sys, step: Step): ClientState
    requires AcceptedPut(s, step)
  {
    if step.Save? then Sending(s.clients[step.id]) else s.clients[step.id]
  }

  /**
    From `was` to `now` only fields change that the client edited since its baseline and did not
    yield; where somebody else had changed the same field, the user chose mine or the shown value
    is the same; and the client's other edits all arrive.
   */
  ghost predicate NothingLost(c: ClientState, was: Flat, now: Flat) {
    && (forall f :: Changed(was, now, f) ==>
          Changed(c.base, c.edited, f) && f !in c.yielded && Value(now, f) == Value(c.edited, f))
    && (forall f :: Changed(was, now, f) && Changed(c.base, was, f) ==>
          f in c.chosen || !Contradict(now, was, f))
    && (forall f :: Changed(c.base, c.edited, f) && f !in c.yielded ==> Value(now, f) == Value(c.edited, f))
  }

  lemma MergeLosesNothing(c: ClientState, was: Flat)
    requires IsMerge(c, was, c.store) && ConflictsSettled(c, was)
    ensures NothingLost(c, was, c.store)
  {
    assert forall f :: Value(c.store, f) == Value(if Changed(c.base, c.edited, f) && f !in c.yielded then c.edited
                                                  else was, f);
  }

  lemma EditsLoseNothing(c: ClientState)
    requires c.edited == c.store && c.yielded == {}
    ensures NothingLost(c, c.base, c.store)
  {
  }

  /**
    In answers and marks: what somebody else wrote after the client's baseline goes only where the
    user chose mine. An answer goes when another value, or none, takes its place. A mark never does.
   */
  ghost predicate OverwritesWereChosen(c: ClientState, was: Flat, now: Flat) {
    && (forall k | k in was.answers && was.answers[k].value != Cleared &&
          !(k in c.base.answers && c.base.answers[k] == was.answers[k]) &&
          !(k in now.answers && now.answers[k].value == was.answers[k].value) ::
          AnswerField(k) in c.chosen)
    && (forall k | k in c.base.answers && (k !in was.answers || was.answers[k].value == Cleared) &&
          !(k in was.answers && c.base.answers[k] == was.answers[k]) &&
          k in now.answers && now.answers[k].value != Cleared ::
          AnswerField(k) in c.chosen)
    && (forall t | (t in c.base.completed) != (t in was.completed) :: (t in now.completed) == (t in was.completed))
  }

  lemma LostByChoice(c: ClientState, was: Flat, now: Flat)
    requires NothingLost(c, was, now)
    ensures OverwritesWereChosen(c, was, now)
  {
    forall k | (k in was.answers || k in now.answers || k in c.base.answers) &&
        Contradict(now, was, AnswerField(k)) && Changed(c.base, was, AnswerField(k))
      ensures AnswerField(k) in c.chosen {
      assert Changed(was, now, AnswerField(k));
    }
    forall t | (t in c.base.completed) != (t in was.completed)
      ensures (t in now.completed) == (t in was.completed) {
      assert Changed(was, now, CompletedField(t)) <==> (t in was.completed) != (t in now.completed);
    }
  }

  /** No silent lost update, at one step: about what anybody reads from the server before and after. */
  lemma AcceptedIsMerge(s: Sys, step: Step, s': Sys, was: Fetched, now: Fetched)
    requires Inv(s) && NextStep(s, step, s') && Careful(s, step) && AcceptedPut(s, step)
    requires Reads(s.server.stored, was) && Reads(s'.server.stored, now)
    ensures NothingLost(Sender(s, step), was.flat, now.flat)
  {
    var c := Sender(s, step);
    assert ClientOk(s, s.clients[step.id]);
    InvNext(s, step, s');
    ReadIsContent(s.tasks, s.server.stored, Content(s), was);
    ReadIsContent(s'.tasks, s'.server.stored, Content(s'), now);
    assert now.flat == c.store && s.contents[c.known] == was.flat;
    if step.Retry? {
      MergeLosesNothing(c, was.flat);
    } else {
      EditsLoseNothing(c);
    }
  }

  /** No silent lost update, over every run of any number of clients. */
  lemma NoSilentLostUpdate(states: seq<Sys>, steps: seq<Step>, k: nat, was: Fetched, now: Fetched)
    requires Run(states, steps) && k < |steps| && AcceptedPut(states[k], steps[k])
    requires Reads(states[k].server.stored, was) && Reads(states[k + 1].server.stored, now)
    ensures NothingLost(Sender(states[k], steps[k]), was.flat, now.flat)
    ensures OverwritesWereChosen(Sender(states[k], steps[k]), was.flat, now.flat)
  {
    InvRun(states, steps, k);
    AcceptedIsMerge(states[k], steps[k], states[k + 1], was, now);
    LostByChoice(Sender(states[k], steps[k]), was.flat, now.flat);
  }

  /** The stored state only ever changes in accepted saves; the version rises exactly when a change is found. */
  lemma OnlySavesChangeContent(s: Sys, step: Step, s': Sys)
    requires NextStep(s, step, s')
    ensures !AcceptedPut(s, step) ==> s'.server == s.server && s'.contents == s.contents
    ensures AcceptedPut(s, step) ==> IsPayload(s.tasks, Sender(s, step).store, step.existing, s'.server.stored)
    ensures AcceptedPut(s, step) ==>
              s'.server.version == if NoChange(s.server.stored, s'.server.stored) then s.server.version
                  else s.server.version + 1
  {
  }

  // ---- Exactly when an unnoticed save is harmless ----

  /** The step is an accepted save in which the server finds no change; the rest of the guards hold. */
  ghost predicate Unnoticed(s: Sys, step: Step) {
    && AcceptedPut(s, step) && Linked(s.tasks) && NoChange(s.server.stored, step.payload)
    && Normal(step.payload) && ReadsBack(s.tasks, Sender(s, step).store, step.existing)
  }

  /**
    An unnoticed save leaves the version alone, so the other clients at that version are not told.
    Their baseline is still what the server holds exactly when the comparison took no lossy branch.
   */
  lemma UnnoticedKeepsBaselines(s: Sys, step: Step, s': Sys, id: nat, now: Fetched)
    requires Inv(s) && NextStep(s, step, s') && Unnoticed(s, step)
    requires id in s.clients && id != step.id && s.clients[id].phase.Ready? && s.clients[id].known == s.server.version
    requires Reads(s'.server.stored, now)
    ensures s'.clients[id] == s.clients[id] && Accepts(s', s'.clients[id])
    ensures s'.clients[id].base == now.flat <==> Faithful(s.server.stored, step.payload)
  {
    assert ClientOk(s, s.clients[id]);
    UnnoticedIff(s.tasks, s.server.stored, Content(s), Sender(s, step).store, step.existing, step.payload);
    assert Holds(s.tasks, s'.server.stored, Sender(s, step).store);
    ReadIsContent(s.tasks, s'.server.stored, Sender(s, step).store, now);
  }
}
