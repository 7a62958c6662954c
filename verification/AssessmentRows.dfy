/** The database side of the save handler, with the assessment's rows updated in place. */
module AssessmentRows {
  import opened Wrappers
  import opened States
  import opened Edits
  import opened DiffStates
  import opened VersionStore

  class Rows {
    var currentVersion: nat
    var cachedState: State
    var versions: map<nat, VersionRow>
    var edits: seq<EditRow>

    function View(): Db
      reads this
    {
      Db(currentVersion, cachedState, versions, edits)
    }

    /** Creating an assessment: version 1 with its state recorded as an edit. */
    constructor (initial: State, user: string)
      ensures View() == Db(1, initial, map[0 := VersionRow(1, user, 0, "")],
                           RowsOf(0, 0, [EditRecord("__initial__", InitialState(initial), user)]))
    {
      currentVersion, cachedState := 1, initial;
      versions := map[0 := VersionRow(1, user, 0, "")];
      edits := [EditRow(0, 0, EditRecord("__initial__", InitialState(initial), user))];
    }

    /** The first read of a save: a stale save stops here, another one is compared with the cached state. */
    method Compare(save: Save) returns (stale: bool, found: seq<EditRecord>, ghost changes: seq<Change>)
      ensures stale <==> currentVersion != save.expected
      ensures !stale ==> ListsDiff(cachedState, save.state, changes)
      ensures !stale ==> found == EncodeAll(save.urn, save.user, changes)
      ensures !stale ==> (found == [] <==> forall ch :: !InDiff(cachedState, save.state, ch))
    {
      stale, found, changes := currentVersion != save.expected, [], [];
      if !stale {
        found, changes := DiffStates.DiffStates(cachedState, save.state, save.urn, save.user);
        if changes != [] {
          assert changes[0] in changes;
        }
      }
    }

    /** The newest version row, found in one pass over the table. */
    method NewestRow() returns (last: Option<nat>)
      ensures last.None? <==> versions == map[]
      ensures last.Some? ==> Newest(versions, last.value)
    {
      last := None;
      var todo := versions.Keys;
      while todo != {}
        invariant todo <= versions.Keys
        invariant last.None? ==> todo == versions.Keys
        invariant last.Some? ==> last.value in versions
        invariant last.Some? ==> forall r | r in versions && r !in todo ::
                                   versions[r].version <= versions[last.value].version
        decreases todo
      {
        var r: nat :| r in todo;
        todo := todo - {r};
        if last.None? || versions[last.value].version < versions[r].version {
          last := Some(r);
        }
      }
    }

    /** The transaction: the conditional update first; without a matching row nothing is written. */
    method Transaction(save: Save, records: seq<EditRecord>, plan: Plan, at: nat, newId: nat) returns (locked: bool)
      modifies this
      ensures locked <==> old(currentVersion) == save.expected
      ensures View() == if locked then Committed(old(View()), save, records, plan, at, newId) else old(View())
    {
      var nextVersion := save.expected + 1;
      locked := currentVersion == save.expected;
      if !locked {
        return;
      }
      currentVersion := nextVersion;
      cachedState := save.state;
      if plan.consolidate && plan.last.Some? {
        var id := plan.last.value;
        edits := edits + RowsOf(id, at, records);
        if id in versions {
          versions := versions[id := versions[id].(version := nextVersion)];
        }
      } else {
        versions := versions[newId := VersionRow(nextVersion, save.user, at, save.description)];
        edits := edits + RowsOf(newId, at, records);
      }
    }

    method OverwriteCachedState(state: State)
      modifies this`cachedState
      ensures View() == old(View()).(cachedState := state)
    {
      cachedState := state;
    }

    method PatchDescription(version: nat, description: string)
      modifies this`versions
      ensures versions.Keys == old(versions.Keys)
      ensures forall r | r in versions ::
                && versions[r].(description := "") == old(versions)[r].(description := "")
                && versions[r].description ==
                   if old(versions)[r].version == version then description else old(versions)[r].description
      ensures View() == old(View()).(versions := Described(old(versions), version, description))
    {
      var todo := versions.Keys;
      while todo != {}
        invariant todo <= versions.Keys == old(versions).Keys
        invariant forall r | r in versions ::
                    versions[r] == if r in todo then old(versions)[r]
                        else Described(old(versions), version, description)[r]
        decreases todo
      {
        var r: nat :| r in todo;
        todo := todo - {r};
        if versions[r].version == version {
          versions := versions[r := versions[r].(description := description)];
        }
      }
      assert versions == Described(old(versions), version, description);
    }
  }
}
