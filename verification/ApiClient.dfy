/**
  The persistence object of one client: its baseline, pending and deferred changes, updated in
  place around the requests to the server. A request and its reply are separate calls; what the
  server answers is a parameter.
 */
module ApiClient {
  import opened Wrappers
  import opened States
  import opened FieldMerge

  /** A fetched state, flattened; `hasAnswers` tells whether its answers component had any key before flattening. */
  datatype Fetched = Fetched(flat: Flat, hasAnswers: bool)

  predicate FetchedOk(s: Fetched) {
    s.flat.answers != map[] ==> s.hasAnswers
  }

  /** applyStateToStores: an empty component of the server state leaves the local one in place. */
  function Applied(local: Flat, server: Fetched): Flat {
    Flat(if server.hasAnswers then server.flat.answers else local.answers,
         if server.flat.completed != {} then server.flat.completed else local.completed)
  }

  datatype Choice = Mine | Theirs

  datatype Dialog =
    | Closed
    | OverServer(server: Fetched, version: nat, conflicts: set<Field>)
    | OverDeferred(conflicts: set<Field>)

  datatype SaveAction = Idle | Deferred | Put(expected: nat, payload: Flat)

  /** The pending changes that stay mine: those without a conflict, and those chosen as mine. */
  function Kept(pending: Changes, conflicts: set<Field>, choices: map<Field, Choice>): Changes {
    map f | f in pending && (f !in conflicts || (f in choices && choices[f] == Mine)) :: pending[f]
  }

  lemma NoDiff(s: Flat)
    ensures DiffOf(s, s) == map[]
  {
  }

  /** First the deferred changes, then my changes on top. */
  ghost predicate Overlaid2(s: Flat, theirs: Changes, mine: Changes, r: Flat) {
    forall f :: Value(r, f) == if f in mine then mine[f] else if f in theirs then theirs[f] else Value(s, f)
  }

  /** The changes whose field is (or is not) in the active section. */
  function Part(changes: Changes, active: Field -> bool, inside: bool): Changes {
    map f | f in changes && active(f) == inside :: changes[f]
  }

  class Client {
    var store: Flat
    var baseline: Option<Flat>
    var knownVersion: Option<nat>
    var pending: Changes
    var instancesDirty: bool
    var deferred: Changes
    var deferredVersion: Option<nat>
    var dialog: Dialog

    predicate Valid()
      reads this
    {
      AllFit(pending) && AllFit(deferred) && (deferred != map[] ==> baseline.Some?)
    }

    constructor (s: Flat, version: Option<nat>)
      ensures Valid() && store == s && baseline == None && knownVersion == version && pending == map[] &&
                deferred == map[]
      ensures dialog == Closed && !instancesDirty && deferredVersion == None
    {
      store, baseline, knownVersion, pending := s, None, version, map[];
      instancesDirty, deferred, deferredVersion, dialog := false, map[], None, Closed;
    }

    method UpdatePendingChanges()
      requires Valid()
      modifies this`pending
      ensures Valid()
      ensures pending == if baseline.Some? then DiffOf(baseline.value, store) else old(pending)
    {
      if baseline.None? {
        return;
      }
      pending := ComputeFieldDiff(baseline, Some(store));
      DiffFits(baseline.value, store);
    }

    /** saveAppState up to the request: what is sent, if anything. */
    method BeginSave() returns (action: SaveAction)
      requires Valid()
      modifies this`pending
      ensures Valid()
      ensures deferred != map[] ==> action == SaveAction.Deferred && pending == old(pending)
      ensures deferred == map[] ==> pending == if baseline.Some? then DiffOf(baseline.value, store) else old(pending)
      ensures deferred == map[] ==>
                action == if (pending == map[] && !instancesDirty) || knownVersion.None? then Idle
                    else Put(knownVersion.value, store)
    {
      if deferred != map[] {
        return SaveAction.Deferred;
      }
      UpdatePendingChanges();
      if pending == map[] && !instancesDirty {
        return Idle;
      }
      if knownVersion.None? {
        return Idle;
      }
      action := Put(knownVersion.value, store);
    }

    /** After an accepted request: whatever the store holds now becomes the baseline. */
    method SaveAccepted(version: nat)
      modifies this`knownVersion, this`baseline, this`pending, this`instancesDirty
      ensures knownVersion == Some(version) && baseline == Some(store) && pending == map[] && !instancesDirty
    {
      knownVersion := Some(version);
      baseline := Some(store);
      pending := map[];
      instancesDirty := false;
    }

    /** After the second request, that of a merged or resolved state, has been accepted. */
    method RetryAccepted(version: nat)
      modifies this`knownVersion, this`baseline, this`pending
      ensures knownVersion == Some(version) && baseline == Some(store) && pending == map[]
    {
      knownVersion := Some(version);
      baseline := Some(store);
      pending := map[];
    }

    /**
      handleConflict up to the second request, after the server state has been fetched: without
      conflicts the server state is taken over with my changes on top, otherwise the dialog opens.
     */
    method HandleConflict(fetched: Fetched, version: nat)
      requires Valid()
      modifies this`store, this`knownVersion, this`dialog
      ensures Valid()
      ensures var theirs := DiffOf(baseline.GetOr(NOTHING), fetched.flat);
                if forall f :: !Conflicts(pending, theirs, f) then
                  && Overlaid(Applied(old(store), fetched), pending, store)
                  && knownVersion == Some(version) && dialog == old(dialog)
                else
                  && store == old(store) && knownVersion == old(knownVersion)
                  && dialog.OverServer? && dialog.server == fetched && dialog.version == version
                  && forall f :: f in dialog.conflicts <==> Conflicts(pending, theirs, f)
    {
      var theirs := ComputeFieldDiff(baseline, Some(fetched.flat));
      var conflicts := FindConflicts(pending, theirs);
      if conflicts == {} {
        store := Applied(store, fetched);
        store := ApplyChanges(store, pending);
        knownVersion := Some(version);
      } else {
        dialog := OverServer(fetched, version, conflicts);
      }
    }

    /** The answer to the dialog over a fetched state, up to the next request. */
    method Resolve(choices: map<Field, Choice>)
      requires Valid() && dialog.OverServer?
      modifies this`store, this`knownVersion, this`dialog
      ensures Valid() && dialog == Closed && knownVersion == Some(old(dialog).version)
      ensures Overlaid(Applied(old(store), old(dialog).server), Kept(pending, old(dialog).conflicts, choices), store)
    {
      store := Applied(store, dialog.server);
      var quiet := map f | f in pending && f !in dialog.conflicts :: pending[f];
      store := ApplyChanges(store, quiet);
      var chosen := map f | f in choices && choices[f] == Mine && f in pending :: pending[f];
      store := ApplyChanges(store, chosen);
      knownVersion := Some(dialog.version);
      dialog := Closed;
    }

    /** The server's changes, part by part: the ones outside the active section at once, the others set aside. */
    method TakeOver(theirs: Changes, version: nat, active: Field -> bool)
      requires Valid() && AllFit(theirs)
      modifies this`store, this`baseline, this`pending, this`deferred, this`deferredVersion
      ensures Valid() && Overlaid(old(store), Part(theirs, active, false), store)
      ensures baseline == Some(store) && pending == map[]
      ensures deferred == if Part(theirs, active, true) != map[] then Part(theirs, active, true) else old(deferred)
      ensures deferredVersion == if Part(theirs, active, true) != map[] then Some(version) else old(deferredVersion)
    {
      var aside := Part(theirs, active, true);
      store := ApplyChanges(store, Part(theirs, active, false));
      baseline := Some(store);
      if aside != map[] {
        deferred := aside;
        deferredVersion := Some(version);
      }
      UpdatePendingChanges();
      NoDiff(store);
    }

    /**
      handleRemoteChange, after the server state has been fetched. Changes outside the active
      section are written straight into the store, changes inside it are set aside, and in both
      cases the store as it is now becomes the baseline.
     */
    method HandleRemoteChange(fetched: Fetched, version: nat, active: Field -> bool)
      requires Valid()
      modifies this`store, this`baseline, this`pending, this`deferred, this`deferredVersion, this`knownVersion
      ensures Valid()
      ensures knownVersion == if dialog == Closed then Some(version) else old(knownVersion)
      ensures var theirs := DiffOf(old(baseline).GetOr(NOTHING), fetched.flat);
              if dialog != Closed || theirs == map[] then
                unchanged(`store, `baseline, `pending, `deferred, `deferredVersion)
              else
                && Overlaid(old(store), Part(theirs, active, false), store)
                && baseline == Some(store) && pending == map[]
                && deferred == (if Part(theirs, active, true) != map[] then Part(theirs, active, true)
                                else old(deferred))
                && deferredVersion == if Part(theirs, active, true) != map[] then Some(version)
                    else old(deferredVersion)
    {
      if dialog != Closed {
        return;
      }
      var theirs := ComputeFieldDiff(baseline, Some(fetched.flat));
      knownVersion := Some(version);
      if theirs == map[] {
        return;
      }
      DiffFits(baseline.GetOr(NOTHING), fetched.flat);
      TakeOver(theirs, version, active);
    }

    /** applyDeferredChangesInner: merge what was set aside, or open the dialog. */
    method ApplyDeferred() returns (merged: bool)
      requires Valid()
      modifies this
      ensures Valid()
      ensures old(deferred) == map[] ==> merged && unchanged(this)
      ensures old(deferred) != map[] ==> pending == DiffOf(old(baseline).value, old(store))
      ensures old(deferred) != map[] ==> (merged <==> forall f :: !Conflicts(pending, old(deferred), f))
      ensures old(deferred) != map[] && merged ==>
                && Overlaid2(old(store), old(deferred), pending, store)
                && baseline == Some(store) && deferred == map[] && knownVersion == old(deferredVersion)
                && unchanged(`dialog, `instancesDirty)
      ensures !merged ==>
                && unchanged(`store, `baseline, `deferred, `knownVersion, `deferredVersion, `instancesDirty)
                && dialog.OverDeferred? && forall f :: f in dialog.conflicts <==> Conflicts(pending, deferred, f)
    {
      if deferred == map[] {
        return true;
      }
      UpdatePendingChanges();
      var conflicts := FindConflicts(pending, deferred);
      if conflicts == {} {
        store := ApplyChanges(store, deferred);
        store := ApplyChanges(store, pending);
        knownVersion := deferredVersion;
        baseline := Some(store);
        deferred := map[];
        return true;
      }
      dialog := OverDeferred(conflicts);
      merged := false;
    }

    /** The answer to the dialog over deferred changes. */
    method ResolveDeferred(choices: map<Field, Choice>)
      requires Valid() && dialog.OverDeferred?
      modifies this
      ensures Valid() && dialog == Closed && knownVersion == old(deferredVersion)
      ensures Overlaid2(old(store), old(deferred), Kept(old(pending), old(dialog).conflicts, choices), store)
      ensures baseline == Some(store) && deferred == map[] && pending == map[] && instancesDirty == old(instancesDirty)
    {
      store := ApplyChanges(store, deferred);
      var quiet := map f | f in pending && f !in dialog.conflicts :: pending[f];
      store := ApplyChanges(store, quiet);
      var chosen := map f | f in choices && choices[f] == Mine && f in pending :: pending[f];
      store := ApplyChanges(store, chosen);
      knownVersion := deferredVersion;
      dialog := Closed;
      deferred := map[];
      baseline := Some(store);
      pending := map[];
    }

    /** applyDeferredOnNavigate: what was set aside is taken over without looking at local edits. */
    method ApplyDeferredOnNavigate()
      requires Valid()
      modifies this`store, this`baseline, this`knownVersion, this`deferred
      ensures Valid()
      ensures old(deferred) == map[] ==> unchanged(this)
      ensures old(deferred) != map[] ==>
                && Overlaid(old(store), old(deferred), store)
                && baseline == Some(store) && deferred == map[] && knownVersion == old(deferredVersion)
    {
      if deferred == map[] {
        return;
      }
      store := ApplyChanges(store, deferred);
      knownVersion := deferredVersion;
      baseline := Some(store);
      deferred := map[];
    }
  }
}
