/**
  What the client's merges amount to, field by field: mine where I changed it, theirs elsewhere,
  and exactly when that holds.
 */
module MergeLaws {
  import opened Wrappers
  import opened States
  import opened FieldMerge
  import opened ApiClient

  // ---- The conflict path ----

  /**
    An empty server component holds no surprise: every local field of the kind is one that I keep.
   */
  predicate NothingStale(local: Flat, server: Fetched, kept: Changes) {
    && (server.hasAnswers || forall k | k in local.answers :: AnswerField(k) in kept)
    && (server.flat.completed != {} || forall t | t in local.completed :: CompletedField(t) in kept)
  }

  /** Field by field: the kept value, or else the server's. */
  ghost predicate KeptOverServer(server: Flat, kept: Changes, r: Flat) {
    forall f :: Value(r, f) == if f in kept then kept[f] else Value(server, f)
  }

  /**
    Applying the server state and replaying what I keep gives "mine if kept, else theirs" exactly
    when no local field survives only because the server's component is empty.
   */
  lemma OverlayLaw(local: Flat, server: Fetched, kept: Changes, r: Flat)
    requires FetchedOk(server) && Overlaid(Applied(local, server), kept, r)
    ensures KeptOverServer(server.flat, kept, r) <==> NothingStale(local, server, kept)
  {
    if NothingStale(local, server, kept) {
      forall f ensures Value(r, f) == if f in kept then kept[f] else Value(server.flat, f) {
        match f
        case AnswerField(k) => assert f in kept || server.hasAnswers || k !in local.answers;
        case CompletedField(t) => assert f in kept || server.flat.completed != {} || t !in local.completed;
      }
    }
    if KeptOverServer(server.flat, kept, r) {
      forall k | !server.hasAnswers && k in local.answers ensures AnswerField(k) in kept {
        assert Value(r, AnswerField(k)) == if AnswerField(k) in kept then kept[AnswerField(k)]
            else Value(server.flat, AnswerField(k));
      }
      forall t | server.flat.completed == {} && t in local.completed ensures CompletedField(t) in kept {
        assert Value(r, CompletedField(t)) == if CompletedField(t) in kept then kept[CompletedField(t)]
            else Value(server.flat, CompletedField(t));
      }
    }
  }

  /**
    The automatic merge, with the store as it was sent and as it is when the server state arrives:
    what was sent if I had changed the field since the baseline, else theirs.
   */
  lemma MergeLaw(base: Flat, sent: Flat, current: Flat, server: Fetched, r: Flat)
    requires FetchedOk(server) && Overlaid(Applied(current, server), DiffOf(base, sent), r)
    ensures (forall f :: Value(r, f) == Value(if Changed(base, sent, f) then sent else server.flat, f))
       <==> NothingStale(current, server, DiffOf(base, sent))
  {
    OverlayLaw(current, server, DiffOf(base, sent), r);
    forall f ensures (if f in DiffOf(base, sent) then DiffOf(base, sent)[f] else Value(server.flat, f))
                  == Value(if Changed(base, sent, f) then sent else server.flat, f) {
      DiffIsExact(base, sent, f);
    }
  }

  /** Every edit made after the request is still there. */
  ghost predicate LateEditsKept(sent: Flat, current: Flat, r: Flat) {
    forall f :: Changed(sent, current, f) ==> Value(r, f) == Value(current, f)
  }

  /**
    Edits typed between the request and the merge are not replayed: they all survive exactly when
    each is on a field that I had not sent, and agrees with the server.
   */
  lemma LateEditsLaw(base: Flat, sent: Flat, current: Flat, server: Fetched, r: Flat)
    requires FetchedOk(server) && Overlaid(Applied(current, server), DiffOf(base, sent), r)
    requires NothingStale(current, server, DiffOf(base, sent))
    ensures LateEditsKept(sent, current, r) <==>
            forall f :: Changed(sent, current, f) ==> !Changed(base, sent, f) && !Changed(current, server.flat, f)
  {
    MergeLaw(base, sent, current, server, r);
    forall f | Changed(sent, current, f)
      ensures Value(r, f) == Value(current, f) <==> !Changed(base, sent, f) && !Changed(current, server.flat, f) {
      assert Value(r, f) == Value(if Changed(base, sent, f) then sent else server.flat, f);
    }
  }

  /**
    A conflict is reported for exactly the fields that both sides changed to different values: marks
    that differ, and answers of which one is there, not cleared, and not matched by the other.
   */
  lemma ConflictsExact(base: Flat, local: Flat, server: Flat, f: Field)
    ensures Conflicts(DiffOf(base, local), DiffOf(base, server), f) <==>
            && Changed(base, local, f) && Changed(base, server, f)
            && match f
               case CompletedField(t) => (t in local.completed) != (t in server.completed)
               case AnswerField(k) =>
                 || (k in local.answers && local.answers[k].value != Cleared &&
                     !(k in server.answers && server.answers[k].value == local.answers[k].value))
                 || (k in server.answers && server.answers[k].value != Cleared &&
                     !(k in local.answers && local.answers[k].value == server.answers[k].value))
    ensures Conflicts(DiffOf(base, local), DiffOf(base, server), f) <==>
            Changed(base, local, f) && Changed(base, server, f) && Contradict(local, server, f)
  {
    DiffIsExact(base, local, f);
    DiffIsExact(base, server, f);
  }

  /** Mine after the dialog: changed by me, and not in conflict or chosen as mine. */
  predicate MineAfter(base: Flat, local: Flat, conflicts: set<Field>, choices: map<Field, Choice>, f: Field) {
    Changed(base, local, f) && (f !in conflicts || (f in choices && choices[f] == Mine))
  }

  /** After the dialog the choices decide the conflicting fields, and nothing else, however long it was open. */
  lemma ResolutionLaw(base: Flat, sent: Flat, current: Flat, server: Fetched, conflicts: set<Field>,
                      choices: map<Field, Choice>, r: Flat)
    requires FetchedOk(server) && Overlaid(Applied(current, server), Kept(DiffOf(base, sent), conflicts, choices), r)
    ensures (forall f :: Value(r, f) == Value(if MineAfter(base, sent, conflicts, choices, f) then sent
                                              else server.flat, f))
       <==> NothingStale(current, server, Kept(DiffOf(base, sent), conflicts, choices))
  {
    var kept := Kept(DiffOf(base, sent), conflicts, choices);
    OverlayLaw(current, server, kept, r);
    forall f ensures (if f in kept then kept[f] else Value(server.flat, f))
                  == Value(if MineAfter(base, sent, conflicts, choices, f) then sent else server.flat, f) {
      DiffIsExact(base, sent, f);
    }
  }

  /**
    Edits typed before the dialog is answered survive exactly when each agrees with the server and is
    not on a field of mine that stays.
   */
  lemma LateEditsInDialog(base: Flat, sent: Flat, current: Flat, server: Fetched, conflicts: set<Field>,
                          choices: map<Field, Choice>, r: Flat)
    requires FetchedOk(server) && Overlaid(Applied(current, server), Kept(DiffOf(base, sent), conflicts, choices), r)
    requires NothingStale(current, server, Kept(DiffOf(base, sent), conflicts, choices))
    ensures LateEditsKept(sent, current, r) <==>
            forall f :: Changed(sent, current, f) ==>
              !MineAfter(base, sent, conflicts, choices, f) && !Changed(current, server.flat, f)
  {
    ResolutionLaw(base, sent, current, server, conflicts, choices, r);
    forall f | Changed(sent, current, f)
      ensures Value(r, f) == Value(current, f) <==>
              !MineAfter(base, sent, conflicts, choices, f) && !Changed(current, server.flat, f) {
      assert Value(r, f) == Value(if MineAfter(base, sent, conflicts, choices, f) then sent else server.flat, f);
    }
  }

  // ---- The deferred path ----

  /** The store after a poll, from the store before it. */
  ghost predicate Polled(base: Flat, before: Flat, server: Flat, active: Field -> bool, after: Flat) {
    Overlaid(before, Part(DiffOf(base, server), active, false), after)
  }

  lemma PolledValue(base: Flat, before: Flat, server: Flat, active: Field -> bool, after: Flat, f: Field)
    requires Polled(base, before, server, active, after)
    ensures Value(after, f) == Value(if Changed(base, server, f) && !active(f) then server else before, f)
  {
    DiffIsExact(base, server, f);
  }

  /**
    After a poll the store is the new baseline. It differs from the server on the fields set
    aside that differ, and on my unsent edits of fields that the server did not change: those are
    now part of the baseline, so no later diff will find them.
   */
  lemma PollAbsorbs(base: Flat, before: Flat, server: Flat, active: Field -> bool, after: Flat, f: Field)
    requires Polled(base, before, server, active, after)
    ensures Changed(after, server, f) <==>
            if Changed(base, server, f) then active(f) && Changed(before, server, f) else Changed(base, before, f)
    ensures !Changed(after, after, f)
  {
    PolledValue(base, before, server, active, after, f);
  }

  /** What the merge law asks for across a poll: my last edit if I made one, else theirs. */
  function Wanted(base: Flat, before: Flat, after: Flat, now: Flat, server: Flat, f: Field): FieldValue {
    if Changed(after, now, f) then Value(now, f)
    else if Changed(base, before, f) then Value(before, f)
    else Value(server, f)
  }

  /**
    Poll, more edits, then the merge of what was set aside: the merge law holds exactly when no
    unsent edit from before the poll met a different server change and was not made again.
   */
  lemma DeferredLaw(base: Flat, before: Flat, server: Flat, active: Field -> bool, after: Flat, now: Flat, r: Flat)
    requires Polled(base, before, server, active, after)
    requires Overlaid2(now, Part(DiffOf(base, server), active, true), DiffOf(after, now), r)
    ensures (forall f :: Value(r, f) == Wanted(base, before, after, now, server, f)) <==>
            (forall f :: Changed(base, before, f) && Changed(base, server, f) && !Changed(after, now, f) ==>
             !Changed(before, server, f))
  {
    forall f ensures Value(r, f) == Wanted(base, before, after, now, server, f) <==>
                     (Changed(base, before, f) && Changed(base, server, f) && !Changed(after, now, f) ==>
                      !Changed(before, server, f)) {
      PolledValue(base, before, server, active, after, f);
      DiffIsExact(base, server, f);
      DiffIsExact(after, now, f);
    }
  }

  /** Without unsent edits at the poll: mine if I changed it since, else theirs. */
  lemma DeferredLawClean(base: Flat, server: Flat, active: Field -> bool, after: Flat, now: Flat, r: Flat)
    requires Polled(base, base, server, active, after)
    requires Overlaid2(now, Part(DiffOf(base, server), active, true), DiffOf(after, now), r)
    ensures forall f :: Value(r, f) == Value(if Changed(after, now, f) then now else server, f)
  {
    DeferredLaw(base, base, server, active, after, now, r);
    forall f ensures Value(r, f) == Value(if Changed(after, now, f) then now else server, f) {
      assert Value(r, f) == Wanted(base, base, after, now, server, f);
    }
  }

  /** With a dialog in between: the choices decide the conflicting fields, and nothing else. */
  lemma DeferredResolutionLaw(base: Flat, server: Flat, active: Field -> bool, after: Flat, now: Flat,
                              conflicts: set<Field>, choices: map<Field, Choice>, r: Flat)
    requires Polled(base, base, server, active, after)
    requires forall f :: f in conflicts <==> Conflicts(DiffOf(after, now), Part(DiffOf(base, server), active, true), f)
    requires Overlaid2(now, Part(DiffOf(base, server), active, true), Kept(DiffOf(after, now), conflicts, choices), r)
    ensures forall f :: Value(r, f) == Value(if MineAfter(after, now, conflicts, choices, f) then now else server, f)
  {
    forall f ensures Value(r, f) == Value(if MineAfter(after, now, conflicts, choices, f) then now else server, f) {
      PolledValue(base, base, server, active, after, f);
      DiffIsExact(base, server, f);
      DiffIsExact(after, now, f);
    }
  }

  /**
    Leaving the section instead: my edits since the poll are lost exactly where the server changed
    the same active field differently.
   */
  lemma NavigateLaw(base: Flat, server: Flat, active: Field -> bool, after: Flat, now: Flat, r: Flat)
    requires Polled(base, base, server, active, after)
    requires Overlaid(now, Part(DiffOf(base, server), active, true), r)
    ensures (forall f :: Value(r, f) == Value(if Changed(after, now, f) then now else server, f)) <==>
            (forall f :: Changed(after, now, f) && Changed(base, server, f) && active(f) ==> !Changed(now, server, f))
  {
    forall f ensures Value(r, f) == Value(if Changed(after, now, f) then now else server, f) <==>
                     (Changed(after, now, f) && Changed(base, server, f) && active(f) ==> !Changed(now, server, f)) {
      PolledValue(base, base, server, active, after, f);
      DiffIsExact(base, server, f);
    }
  }

  // ---- The client at work ----

  /** The server state arrives at a client that has sent one store and now holds another. */
  method MeetServerState(c: Client, ghost base: Flat, ghost sent: Flat, typed: Flat, fetched: Fetched, version: nat)
    requires c.Valid() && c.baseline == Some(base) && c.pending == DiffOf(base, sent) && c.dialog == Closed &&
               FetchedOk(fetched)
    modifies c
    ensures c.Valid() && c.baseline == Some(base) && c.pending == DiffOf(base, sent)
    ensures c.dialog == Closed ==>
              && c.knownVersion == Some(version)
              && ((forall f :: Value(c.store, f) == Value(if Changed(base, sent, f) then sent else fetched.flat, f))
                  <==> NothingStale(typed, fetched, DiffOf(base, sent)))
    ensures c.dialog != Closed ==>
              && c.dialog.OverServer? && c.dialog.server == fetched && c.store == typed
              && forall f :: f in c.dialog.conflicts <==>
                   Changed(base, sent, f) && Changed(base, fetched.flat, f)
                   && Contradict(sent, fetched.flat, f)
  {
    c.store := typed;
    c.HandleConflict(fetched, version);
    if c.dialog == Closed {
      MergeLaw(base, sent, typed, fetched, c.store);
    } else {
      forall f ensures f in c.dialog.conflicts <==>
                       Changed(base, sent, f) && Changed(base, fetched.flat, f)
                       && Contradict(sent, fetched.flat, f) {
        ConflictsExact(base, sent, fetched.flat, f);
      }
    }
  }

  /**
    A save that meets a newer version, with whatever has been typed until the fetched state arrives.
    Either the store becomes the merge of what was sent, under the exact condition for that, or the
    dialog shows exactly the fields changed on both sides to different values.
   */
  method SaveThenConflict(c: Client, typed: Flat, fetched: Fetched, version: nat) returns (action: SaveAction)
    requires c.Valid() && c.baseline.Some? && c.knownVersion.Some? && c.deferred == map[] && c.dialog == Closed
    requires FetchedOk(fetched)
    modifies c
    ensures c.Valid() && c.baseline == old(c.baseline)
    ensures action.Put? ==> action.payload == old(c.store) && action.expected == old(c.knownVersion).value
    ensures action.Put? && c.dialog == Closed ==>
              && c.knownVersion == Some(version)
              && ((forall f :: Value(c.store, f) ==
                     Value(if Changed(c.baseline.value, old(c.store), f) then old(c.store) else fetched.flat, f))
                  <==> NothingStale(typed, fetched, DiffOf(c.baseline.value, old(c.store))))
    ensures action.Put? && c.dialog != Closed ==>
              && c.dialog.OverServer? && c.dialog.server == fetched && c.store == typed
              && c.pending == DiffOf(c.baseline.value, old(c.store))
              && forall f :: f in c.dialog.conflicts <==>
                   Changed(c.baseline.value, old(c.store), f) && Changed(c.baseline.value, fetched.flat, f)
                   && Contradict(old(c.store), fetched.flat, f)
    ensures !action.Put? ==> c.store == old(c.store) && c.dialog == Closed
  {
    ghost var base, sent := c.baseline.value, c.store;
    action := c.BeginSave();
    if action.Put? {
      MeetServerState(c, base, sent, typed, fetched, version);
    }
  }

  /** Then the answer to the dialog, again with whatever has been typed until it comes. */
  method AnswerDialog(c: Client, ghost sent: Flat, typed: Flat, choices: map<Field, Choice>)
    requires c.Valid() && c.baseline.Some? && c.dialog.OverServer? && FetchedOk(c.dialog.server)
    requires c.pending == DiffOf(c.baseline.value, sent)
    modifies c
    ensures c.Valid() && c.dialog == Closed && c.knownVersion == Some(old(c.dialog).version) &&
              c.baseline == old(c.baseline)
    ensures (forall f :: Value(c.store, f) ==
               Value(if MineAfter(c.baseline.value, sent, old(c.dialog).conflicts, choices, f) then sent
                     else old(c.dialog).server.flat, f))
       <==> NothingStale(typed, old(c.dialog).server,
                         Kept(DiffOf(c.baseline.value, sent), old(c.dialog).conflicts, choices))
  {
    ghost var base, dialog := c.baseline.value, c.dialog;
    c.store := typed;
    c.Resolve(choices);
    ResolutionLaw(base, sent, typed, dialog.server, dialog.conflicts, choices, c.store);
  }

  /**
    After a merge of deferred changes the next save has no field to send, although the store now
    holds my edits and the server does not. It is sent only if instances were added or removed.
   */
  method DeferredMergeIsNotSent(c: Client) returns (merged: bool, action: SaveAction)
    requires c.Valid() && c.deferred != map[]
    modifies c
    ensures merged <==> forall f :: !Conflicts(DiffOf(old(c.baseline).value, old(c.store)), old(c.deferred), f)
    ensures merged ==> c.pending == map[] && c.baseline == Some(c.store)
    ensures merged ==> (action == Idle <==> !old(c.instancesDirty) || old(c.deferredVersion).None?)
    ensures merged && action != Idle ==> action == Put(old(c.deferredVersion).value, c.store)
    ensures merged ==> forall f :: Changed(old(c.baseline).value, old(c.store), f) ==>
              Value(c.store, f) == Value(old(c.store), f)
    ensures !merged ==> action == SaveAction.Deferred && c.store == old(c.store)
  {
    ghost var base, local := c.baseline.value, c.store;
    merged := c.ApplyDeferred();
    action := c.BeginSave();
    if merged {
      NoDiff(c.store);
      forall f | Changed(base, local, f) ensures Value(c.store, f) == Value(local, f) {
        DiffIsExact(base, local, f);
      }
    }
  }

  /**
    An edit made while a save is under way is not sent either: the reply makes it part of the
    baseline, so the next save finds nothing although the server never saw it.
   */
  method EditInFlightIsNotSent(c: Client, typed: Flat, version: nat) returns (first: SaveAction, second: SaveAction)
    requires c.Valid() && c.baseline.Some? && c.deferred == map[]
    modifies c
    ensures first.Put? ==> first.payload == old(c.store)
    ensures first.Put? ==> second == Idle && c.store == typed && c.baseline == Some(typed)
  {
    first := c.BeginSave();
    second := Idle;
    if first.Put? {
      c.store := typed;
      c.SaveAccepted(version);
      second := c.BeginSave();
      NoDiff(typed);
    }
  }
}
