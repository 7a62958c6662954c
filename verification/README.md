# Assessments under collaborative editing: a verified model

This project models, in Dafny, how assessment forms are stored, merged and structured while
several people edit them, and proves what the parts promise each other.

**The version store (backend).** A save is a whole state. The server compares it with the cached
state, writes the differences as edit rows under a version number guarded by an optimistic lock,
and can rebuild any version by replaying rows. `InstanceIds` and `FieldKeys` are the codecs of
instance ids and field ids; `States`, `Edits` and `DiffStates` the comparison; `Replay` the replay;
`DiffReplay` connects the two, and `Undo` says what a record tells of the old state. `VersionStore` is
the store as a state machine in which every request is split at its awaits, `Consolidation` says which
version row a save goes to, `AssessmentRows` has the same writes as in-place updates of the rows,
`Rebuild` and `StoreRuns` say what rebuilding gives in every reachable state, `TieOrder` when the order
of rows with equal timestamps matters, `StoreExamples` and `TieRun` are concrete runs that go wrong, and
`RebuildCache` is the bounded cache of rebuilds.

**The client merge.** `FieldMerge` compares flat states field by field, `ApiClient` is the
persistence object with its baseline, pending and deferred changes, `MergeLaws` says what its merges
amount to and exactly when. `Collaboration` runs any number of clients against one server that
stores grouped states, `Payloads` connects the two views, and `LostSave` is a run that loses an answer.

**The instance forest.** `TaskTree` flattens the nested task definitions, `Forest`, `Growth` and
`Removal` say what holds of the instance map and what creating and removing instances do to it,
`TaskStore` is the store that does so in place, and `OutermostRuns` the invariant over runs. `Sync`
reconciles mapped tasks, `Impact`, `Prediction` and `Exactness` are the warning before a deletion,
`DeletionRuns` runs of the store that go wrong, `Grouping` and `Flattening` the two serialisations,
`Reload` with `Heads` the way back from a saved state. `Visibility` is the evaluation of conditional
tasks and its what-if copy, `Migration` the renaming of old keys.

Answer values are opaque with equality, except where the code looks inside (emptiness, conditions).
The completed tasks are a set. Clocks, random group ids and what the database or the server answers
are parameters or free choices of a step.

## Findings

Several properties turned out to hold only under a condition. Each has a lemma with the exact
condition, and a run or an input that shows the failure.

- A save whose only news is element 0 of a group that was not there before produces no edit, so the
  whole save changes no version number (`StoreExamples.FirstInstanceIsSilent`). Other clients are not
  told, and their next save deletes the answer (`LostSave.UnnoticedSaveIsLost`). A save without a new
  version is harmless to them exactly when the comparison took no lossy branch
  (`Collaboration.UnnoticedKeepsBaselines`).
- A group that becomes a plain answer loses the answer on replay, and a group that appears loses its
  element 0; without these two branches diff and replay are inverse (`DiffReplay.ReplayedIsNewIff`).
- The records of a save lead back to the old state exactly when no group appears with an element 0 or over
  a plain answer (`Undo.UndoLaw`).
- The overwrite of the cached state without edits does not test the version; a run in which it undoes
  a newer save is given (`StoreExamples.StaleOverwriteLosesSave`), and the exact condition under which
  it is harmless (`StoreRuns.OverwriteRefinesIff`).
- Rows with equal timestamps may come back in any order. On the state that a save was compared with
  that never matters (`Rebuild.BatchConfluence`). After a silent save the log replays to another base,
  and there it can (`TieRun.TieOrderMatters`); `TieOrder.OrderFreeIff` says exactly when.
- A consolidation renumbers the newest version row. The number that it had then rebuilds to an older
  version (`Rebuild.RebuildOfLostVersion`).
- An empty component of the server state is ignored by the client, so the merge law holds exactly
  when no local field survives for that reason (`MergeLaws.MergeLaw`). What is typed between a rejected
  request and the merge, or while the dialog is open, is lost unless the server happens to agree
  (`MergeLaws.LateEditsLaw`, `MergeLaws.LateEditsInDialog`).
- A poll makes unsent edits part of the baseline (`MergeLaws.PollAbsorbs`); the merge of deferred
  changes and an edit during a save are never sent on their own (`MergeLaws.DeferredMergeIsNotSent`,
  `MergeLaws.EditInFlightIsNotSent`).
- A new instance replaces an existing one whose id is among the chosen ones (`Growth.ReplacedIff`,
  `DeletionRuns.AddedInstanceReplaced`), and exactly then an addition under an unused id leaves the forest
  unsound (`Growth.SoundIffFree`); outermost repeatables never do (`OutermostRuns.AlwaysTidy`).
- A mapped task that is not repeatable only ever loses indices: it follows its source exactly when it
  had all of its indices before (`Sync.StepIff`, `DeletionRuns.FieldLeftBehind`).
- The delete warning looks for targets at the deleted index only. It is right exactly under
  `Exactness.Exact`, a condition on the forest before the deletion (`Exactness.RightIffExact`); an added
  nested instance is enough to make it miss an answer (`DeletionRuns.MissedAnswer`).
- A reload loses an empty index set and a lone unanswered instance other than 0 (`Reload.ReloadIff`),
  and nested instances that were added under an index of their own (`Reload.SaveAndReload`).
- The what-if test agrees with the evaluation exactly when no incomplete or unsupported condition
  comes first (`Visibility.PredictionIff`); the source's comment only promises a reimplementation.

## Model

| member | source | states |
|---|---|---|
| InstanceIds.ParseOfBuildIff | packages/assessment-core/src/utils/instanceId.ts:6-19 | A built instance id parses back to its task id and index if and only if the task id is, with an index, one line that is not empty, and without one, not itself in the form of an indexed id. |
| InstanceIds.BuildOfParse | packages/assessment-core/src/utils/instanceId.ts:6-19 | Building what was parsed gives the id back exactly when its index is written without leading zeros. |
| InstanceIds.BuildInjective | packages/assessment-core/src/utils/instanceId.ts:6-8 | Two different pairs of task id and index that can be read back never build the same instance id. |
| FieldKeys.FieldKeyRoundTrip | apps/boekhouding-backend/src/utils/rebuildState.ts:205-213 | Under a versioned URN a written field id reads back as its instance id if and only if that is not empty, has no ampersand and writes its index canonically. |
| FieldKeys.FieldIdInjective | apps/boekhouding-backend/src/utils/diffStates.ts:11-16 | Under one versioned URN two different fields never share a field id. |
| FieldKeys.FieldIdOfInstance | apps/boekhouding-backend/src/utils/diffStates.ts:70-71 | The field id of any instance of a clean task id has the form of the example in the source and reads back as that instance, decimal printing and parsing included. |
| FieldKeys.UnversionedUrnIsDropped | apps/boekhouding-backend/src/utils/rebuildState.ts:207-209 | Under a URN without a version every field id fails to parse, so replay drops the edit. |
| FieldKeys.VersionedUrnIff | apps/boekhouding-backend/src/utils/rebuildState.ts:208 | A URN passes the parser exactly when it is "urn:nl:", a name of word characters, a colon and a version. |
| FieldKeys.BareKeyRoundTrip | apps/boekhouding-backend/src/utils/rebuildState.ts:215-222 | Without a URN the bare key reads back exactly when it does not start like one of the prefixed forms. |
| DiffStates.DiffGroupedArrays | apps/boekhouding-backend/src/utils/diffStates.ts:33-102 | The records of two arrays are an encoding, without duplicates, of exactly the changes that the element-wise comparison calls for, element 0 of a new group excepted. |
| DiffStates.DiffStates | apps/boekhouding-backend/src/utils/diffStates.ts:109-167 | There is a record for exactly the places in which the states differ, element 0 of a new group excepted: plain answers, fields of elements on both sides, elements on one side, completed marks, each with the old and the new value of its place and the editor; and they encode a duplicate-free list of those changes. |
| Replay.FindGroupedParent | apps/boekhouding-backend/src/utils/rebuildState.ts:184-193 | The longest dotted prefix of the task id that holds an array, if there is one. |
| TieOrder.SetFieldView | apps/boekhouding-backend/src/utils/rebuildState.ts:93-104 | In a sorted array the field of the element with the index is set or deleted, the element is made if it is missing, every other element stays, and the array stays sorted. |
| DiffReplay.SetAnswerOfChild | apps/boekhouding-backend/src/utils/rebuildState.ts:82-115 | An indexed key of a direct child of an existing group goes into that group. |
| TieOrder.ApplyEffect | apps/boekhouding-backend/src/utils/rebuildState.ts:81-166 | Each kind of change, seen through the plain values and the elements: exactly its own place changes, inside its group if that exists and outside of all groups if none does. |
| Replay.RebuildState | apps/boekhouding-backend/src/utils/rebuildState.ts:54-178 | The loop over the rows computes the fold of the single-edit function from the empty state; rows whose key does not parse or is empty are skipped. |
| DiffReplay.RunIsMixed | apps/boekhouding-backend/src/utils/rebuildState.ts:81-166 | After replaying any part of one diff, in any order, every field, element and mark has its new value if its change was among them and its old one otherwise. |
| DiffReplay.DiffThenReplay | apps/boekhouding-backend/src/utils/diffStates.ts:109-167 | Replaying any listing of the diff of two normal-form states on the old one gives one and the same state, the new one minus what the lossy branches drop. |
| DiffReplay.ReplayedIsNewIff | apps/boekhouding-backend/src/utils/diffStates.ts:61 | That state is the new state if and only if no group appears with an element 0 and no group turns into a plain answer. |
| DiffReplay.RowsThenReplay | apps/boekhouding-backend/src/utils/rebuildState.ts:56-172 | The same for the encoded records, through field ids and their parsing, under any versioned URN. |
| DiffReplay.DiffThenRebuild | apps/boekhouding-backend/src/utils/rebuildState.ts:54-172 | Comparing two states and replaying the records after the old one ends in the new state if and only if no lossy branch is taken, and in the described loss otherwise. |
| Undo.RecordsTell | apps/boekhouding-backend/src/utils/diffStates.ts:67-98 | Under a versioned URN every record reads back through its field id to an answer key, and its old and new values are those of the two states at that key: the plain answer, the field of the element of the group that the key is a child of, the fields of the element that came or went, the mark. |
| Undo.UndoLaw | apps/boekhouding-backend/src/utils/diffStates.ts:139-163 | Replaying the records of a save with old and new exchanged, in any order, takes the new state back to the old one if and only if no group appears with an element 0 or over a plain answer; otherwise exactly that is lost. |
| Undo.SaveAndUndo | apps/boekhouding-backend/src/utils/diffStates.ts:109-167 | The comparison and the replay of the exchanged records together: what is recorded, and exactly when taking it back gives the old state. |
| Rebuild.BatchConfluence | apps/boekhouding-backend/src/utils/rebuildState.ts:43 | All permutations of the records of one save replay to the same state on the state that the save was compared with, which is why sorting on version and time alone is enough there. |
| TieOrder.OrderFreeIff | apps/boekhouding-backend/src/utils/rebuildState.ts:43 | On any other base, groups inside groups aside, every order of the changes gives the same state if and only if each changed field has its group there to stay: in the base with an element that the save leaves, or neither in the base nor made by the save. |
| TieOrder.TiesDoNotMatter | apps/boekhouding-backend/src/utils/rebuildState.ts:27-43 | Under that condition the same holds for the encoded records in any order. |
| TieRun.TieOrderMatters | apps/boekhouding-backend/src/utils/rebuildState.ts:43 | A reachable state for whose current version the database may return the rows of the last save in two orders that rebuild to different states; the condition fails there. |
| Rebuild.SplitSorted | apps/boekhouding-backend/src/utils/rebuildState.ts:27-43 | Any sorted answer of the database lists the rows of the earlier saves first and then those of the last save, in some order. |
| Rebuild.ReplayLog | apps/boekhouding-backend/src/utils/rebuildState.ts:54-172 | Replaying any sorted listing of the rows of a faithful series of saves gives the state saved last. |
| Rebuild.RebuildIsSaved | apps/boekhouding-backend/src/utils/rebuildState.ts:16-52 | Rebuilding an existing version v gives the state of the commit that made version v, whatever order ties come back in. |
| Rebuild.RebuildOfLostVersion | apps/boekhouding-backend/src/routes/assessments.ts:191-202 | A version number whose row a consolidation has renumbered rebuilds to the state of the nearest version below it that still exists. |
| AssessmentRows.Rows.constructor | apps/boekhouding-backend/src/routes/projects.ts:257-277 | A new assessment is at version 1 with one version row and one edit row holding the initial state. |
| AssessmentRows.Rows.Compare | apps/boekhouding-backend/src/routes/assessments.ts:113-128 | A save is stale exactly when the versions differ; otherwise the records found encode the diff against the cached state. |
| AssessmentRows.Rows.NewestRow | apps/boekhouding-backend/src/routes/assessments.ts:147-152 | The version row with the greatest version number, if there is any. |
| AssessmentRows.Rows.Transaction | apps/boekhouding-backend/src/routes/assessments.ts:168-220 | Either the lock fails and nothing changes, or all rows are as the state machine's commit has them, consolidated or with a new version row. |
| AssessmentRows.Rows.PatchDescription | apps/boekhouding-backend/src/routes/assessments.ts:413-446 | The version rows with that number get the description, and nothing else of any row changes. |
| VersionStore.InvRun | apps/boekhouding-backend/src/routes/assessments.ts:113-222 | Over every run and every interleaving the rows, versions, timestamps, plans and cached entries stay consistent with the history of commits. |
| VersionStore.VersionMoves | apps/boekhouding-backend/src/routes/assessments.ts:162-184 | The current version grows by exactly one in an accepted commit and never otherwise. |
| VersionStore.AtMostOneCommits | apps/boekhouding-backend/src/routes/assessments.ts:177-189 | Of two accepted commits in a run the later one expected a strictly greater version, so of saves with the same expectation at most one commits. |
| VersionStore.PlannedRowIsNewest | apps/boekhouding-backend/src/routes/assessments.ts:146-202 | Whenever the lock succeeds, the version row read for consolidation before the transaction is still the newest one. |
| Consolidation.RowsHaveOneAuthor | apps/boekhouding-backend/src/routes/assessments.ts:154-202 | Over every run every save lies in a version row that its own user made. |
| Consolidation.ConsolidatesIff | apps/boekhouding-backend/src/routes/assessments.ts:145-220 | Over every run an accepted commit adds no version row if and only if, when it read the newest row, that was not version 1, was made by the same user less than 15 minutes before, neither had a description and no version was forced; it then renumbers that row and changes no other, and otherwise adds one row of its own. |
| Consolidation.AcceptedWrites | apps/boekhouding-backend/src/routes/assessments.ts:168-220 | The row of the assessment, the one version row and the edit rows that an accepted commit writes, and that everything else stays. |
| Consolidation.CompareOutcome | apps/boekhouding-backend/src/routes/assessments.ts:117-143 | A save fails at its first read exactly when it is stale, and takes the overwrite without a version exactly when it is current, not forced, and its state differs nowhere. |
| Consolidation.NoEmptyVersions | apps/boekhouding-backend/src/routes/assessments.ts:130-143 | Over every run a commit without changes is a forced one, and a forced save never takes the overwrite. |
| VersionStore.GreatestIsCurrent | apps/boekhouding-backend/src/db/schema.ts:49-59 | In every reachable state version numbers are unique and the greatest one is the current version. |
| VersionStore.FrozenStep | apps/boekhouding-backend/src/routes/assessments.ts:191-202 | No step, consolidation and description patches included, changes the rows selected for a version below the current one. |
| VersionStore.FrozenRun | apps/boekhouding-backend/src/routes/assessments.ts:338-341 | Over runs, what is selected for a version below the current one stays the same for good. |
| VersionStore.RowsLoggedRun | apps/boekhouding-backend/src/routes/assessments.ts:191-220 | Over every run each version row has a save, and carries the number that its last save gave it. |
| VersionStore.VersionStays | apps/boekhouding-backend/src/routes/assessments.ts:191-202 | A version below the current one never loses its number. |
| DiffReplay.NoChangesSameState | apps/boekhouding-backend/src/routes/assessments.ts:130-143 | Two normal-form states without edits between them and without a lossy branch are equal, so accepting such a save without a new version is harmless. |
| StoreRuns.WholeRunRefinement | apps/boekhouding-backend/src/utils/rebuildState.ts:16-179 | In every state of a run that avoids the lossy branches and the stale overwrite, every rebuild of the current version is the cached state. |
| StoreRuns.CommitRefinesIff | apps/boekhouding-backend/src/routes/assessments.ts:168-220 | An accepted commit keeps rebuilds equal to the cached state if and only if its diff takes no lossy branch. |
| StoreRuns.OverwriteRefinesIff | apps/boekhouding-backend/src/routes/assessments.ts:137-143 | The overwrite without edits keeps them equal if and only if comparing again at the write would find no edit and no lossy branch. |
| StoreRuns.CacheRun | apps/boekhouding-backend/src/utils/rebuildStateCache.ts:3-8 | Over any run, every cached rebuild is one that a fresh replay of its version could give now, without any invalidation. |
| StoreRuns.CacheHitIsSaved | apps/boekhouding-backend/src/utils/rebuildState.ts:21-25 | Over careful runs a cached version still exists, and a hit equals every fresh replay and the state of the commit that made that version. |
| StoreRuns.VersionIsSaved | apps/boekhouding-backend/src/utils/rebuildState.ts:16-52 | Over careful runs every existing version rebuilds to the state of the commit that made it. |
| StoreExamples.StaleOverwriteLosesSave | apps/boekhouding-backend/src/routes/assessments.ts:137-143 | A run of two clients in which the overwrite without edits undoes a committed save, so the rebuild and the cached state differ. |
| StoreExamples.FirstInstanceIsSilent | apps/boekhouding-backend/src/utils/diffStates.ts:59-62 | A first group with only element 0 is a different state with no edit at all. |
| RebuildCache.Cache.Get | apps/boekhouding-backend/src/utils/rebuildStateCache.ts:20-27 | A hit exactly for the 64 most recently used keys, with the value stored last, and a hit counts as a use. |
| RebuildCache.Cache.Set | apps/boekhouding-backend/src/utils/rebuildStateCache.ts:29-46 | Values above the size limit are refused; others become the most recent, and the eviction loop ends with the 64 most recent keys. |
| RebuildCache.HeldIsBounded | apps/boekhouding-backend/src/utils/rebuildStateCache.ts:9-46 | The map never has more than 64 entries, holds each key once, and answers exactly for the recently used keys. |
| FieldMerge.ComputeFieldDiff | apps/boekhouding-frontend/src/utils/fieldDiff.ts:26-60 | Exactly the changed answer fields and completed marks, with their new values. |
| FieldMerge.DiffIsExact | apps/boekhouding-frontend/src/utils/fieldDiff.ts:34-57 | A field is in the diff if and only if its value differs between the two states. |
| FieldMerge.ApplyChanges | apps/boekhouding-frontend/src/ApiPersistence.ts:313-337 | Afterwards every changed field has its new value and every other field the old one. |
| FieldMerge.FindConflicts | apps/boekhouding-frontend/src/ApiPersistence.ts:224-233 | Exactly the fields changed on both sides to answers with different values, to an answer that is not cleared and none, or to different marks; who edited an answer and when does not count. |
| ApiClient.Client.UpdatePendingChanges | apps/boekhouding-frontend/src/ApiPersistence.ts:123-130 | The pending changes become the diff between baseline and store; without a baseline they stay. |
| ApiClient.Client.BeginSave | apps/boekhouding-frontend/src/ApiPersistence.ts:132-171 | Deferred changes come first; otherwise the store is sent on top of the known version unless nothing is pending or no version is known. |
| ApiClient.Client.HandleConflict | apps/boekhouding-frontend/src/ApiPersistence.ts:199-272 | Without conflicts the fetched state is applied and the pending changes replayed on it; with conflicts only the dialog opens, for exactly those fields. |
| ApiClient.Client.Resolve | apps/boekhouding-frontend/src/ApiPersistence.ts:274-288 | The fetched state with the pending changes that are not in conflict or were chosen as mine on top. |
| ApiClient.Client.HandleRemoteChange | apps/boekhouding-frontend/src/ApiPersistence.ts:499-582 | Background changes are written over the store, active ones set aside, and the store becomes the baseline; nothing happens while the dialog is open. |
| ApiClient.Client.ApplyDeferred | apps/boekhouding-frontend/src/ApiPersistence.ts:601-674 | Without conflicts the deferred changes and then my pending ones are applied and the store becomes the baseline; with conflicts only the dialog opens. |
| ApiClient.Client.ResolveDeferred | apps/boekhouding-frontend/src/ApiPersistence.ts:645-669 | Deferred changes with mine on top as chosen; the store becomes the baseline and nothing stays pending. |
| ApiClient.Client.ApplyDeferredOnNavigate | apps/boekhouding-frontend/src/ApiPersistence.ts:678-689 | The deferred changes overwrite the store without a look at local edits. |
| MergeLaws.OverlayLaw | packages/assessment-core/src/utils/applyState.ts:20-33 | Applying a server state and replaying what is kept gives "kept or else theirs" if and only if no empty server component hides a local field. |
| MergeLaws.MergeLaw | apps/boekhouding-frontend/src/ApiPersistence.ts:235-250 | The automatic merge is, field by field, what I sent if I had changed it since the baseline and else theirs, exactly under that condition, whatever the store holds when the server state arrives. |
| MergeLaws.LateEditsLaw | apps/boekhouding-frontend/src/ApiPersistence.ts:166-250 | Edits typed between the request and the merge all survive if and only if each is on a field that I had not sent and agrees with the server; all others vanish. |
| MergeLaws.ConflictsExact | apps/boekhouding-frontend/src/ApiPersistence.ts:222-233 | In the states themselves: a conflict is reported for exactly the fields changed on both sides whose marks differ, or of which one side has an answer that is not cleared and the other not the same value. |
| MergeLaws.ResolutionLaw | apps/boekhouding-frontend/src/ApiPersistence.ts:274-283 | After the dialog the choices decide the conflicting fields and nothing else, exactly under the same kind of condition, however long the dialog was open. |
| MergeLaws.LateEditsInDialog | apps/boekhouding-frontend/src/ApiPersistence.ts:274-283 | Edits typed before the dialog is answered survive if and only if each agrees with the server and is not on a field of mine that stays. |
| MergeLaws.PollAbsorbs | apps/boekhouding-frontend/src/ApiPersistence.ts:552-573 | After a poll the baseline differs from the server exactly on differing deferred fields and on unsent edits of fields the server left alone. |
| MergeLaws.DeferredLaw | apps/boekhouding-frontend/src/ApiPersistence.ts:601-630 | Poll, edits, merge: every field is my last edit or else theirs if and only if no unsent edit from before the poll met a different server change and was not repeated. |
| MergeLaws.DeferredLawClean | apps/boekhouding-frontend/src/ApiPersistence.ts:617-630 | Without unsent edits at the poll the deferred path is mine if I changed it since, else theirs. |
| MergeLaws.DeferredResolutionLaw | apps/boekhouding-frontend/src/ApiPersistence.ts:645-669 | With a dialog the choices decide the conflicting deferred fields and nothing else. |
| MergeLaws.NavigateLaw | apps/boekhouding-frontend/src/ApiPersistence.ts:678-689 | Leaving the section keeps my edits if and only if none of them met a different change in the active section. |
| MergeLaws.SaveThenConflict | apps/boekhouding-frontend/src/ApiPersistence.ts:166-305 | A rejected save, with anything typed until the server state comes, ends either with the fetched version and, exactly if no empty component hides a field, the merge of what was sent, or with a dialog over exactly the fields in conflict. |
| MergeLaws.AnswerDialog | apps/boekhouding-frontend/src/ApiPersistence.ts:274-288 | The answer to the dialog, with anything typed until then: the choices over what was sent and the fetched state, exactly under that condition. |
| MergeLaws.DeferredMergeIsNotSent | apps/boekhouding-frontend/src/ApiPersistence.ts:617-630 | After a merge of deferred changes nothing is pending although my edits are only in the store; the scheduled save sends nothing if and only if no instance was added or removed or no version is known. |
| MergeLaws.EditInFlightIsNotSent | apps/boekhouding-frontend/src/ApiPersistence.ts:167-176 | An edit made while a save is under way is in the baseline after the reply, and the next save sends nothing. |
| Collaboration.InvNext | apps/boekhouding-frontend/src/ApiPersistence.ts:132-305 | Every step of every client keeps baselines, versions, pending changes, dialogs and merged states consistent with what the server had at each version. |
| Collaboration.BaselineIsServerContent | apps/boekhouding-frontend/src/ApiPersistence.ts:170-174 | In every reachable state the baseline of a client that is not in the middle of a save is the content at its known version, and at the current version what anybody reads from the stored state. |
| Collaboration.AcceptedIsMerge | apps/boekhouding-frontend/src/ApiPersistence.ts:235-305 | An accepted save changes what is read from the server only in fields its client edited and did not yield, settles every double edit by choice or by showing the same value, and carries all other edits of the client. |
| Collaboration.NoSilentLostUpdate | apps/boekhouding-frontend/src/ApiPersistence.ts:132-305 | The same at every step of every run of any number of clients: an answer that somebody else wrote after the client's baseline is replaced or removed, and one that somebody else removed comes back, only where the user chose mine; a mark that somebody else changed stays. |
| Collaboration.OnlySavesChangeContent | apps/boekhouding-backend/src/routes/assessments.ts:130-184 | Nothing but an accepted save changes the stored state, then to a grouping of what was sent, and the version rises exactly when the comparison finds a change. |
| Payloads.ReadIsContent | packages/assessment-core/src/utils/applyState.ts:20-33 | Whoever reads a stored state that groups a canonical flat content gets that content. |
| Payloads.UnnoticedIff | apps/boekhouding-backend/src/routes/assessments.ts:130-143 | A payload in which the server finds no change leaves the content as it was if and only if the comparison took no lossy branch. |
| Collaboration.UnnoticedKeepsBaselines | apps/boekhouding-backend/src/routes/assessments.ts:137-143 | After a save without a new version the baselines of the other clients at that version are what the server holds if and only if the comparison took no lossy branch. |
| LostSave.UnnoticedSaveIsLost | apps/boekhouding-backend/src/utils/diffStates.ts:59-62 | A run of two clients: the first answer in a repeatable group is stored under the old version, and the next save of the other client, who never touched it and is not rejected, deletes it. |
| TaskTree.Definitions.CreateTasks | packages/assessment-core/src/stores/tasks.ts:136-176 | The flat definitions mirror the nested ones, parents and ordered children included, old entries only gain children, and the result has the tree shape the forest relies on. |
| TaskTree.RootsAreListed | packages/assessment-core/src/stores/tasks.ts:137-139 | The root list is exactly the tasks without a parent, each once. |
| TaskTree.Init | packages/assessment-core/src/stores/tasks.ts:120-134 | From any form with distinct task ids, init gives a sound and complete forest with exactly the default instance of every task. |
| TaskStore.TaskStore.NextAvailableIndex | packages/assessment-core/src/stores/tasks.ts:178-183 | One above the task's greatest index, 0 when it has none. |
| TaskStore.TaskStore.CreateTaskInstance | packages/assessment-core/src/stores/tasks.ts:185-234 | A whole new subtree, with the given index or the next free one; children take the index of a repeatable parent and the next free one of their task otherwise, all in one group, the parent's or a fresh one; entries with the same ids are replaced, every other one stays, only the parent gains the child. |
| TaskStore.TaskStore.CreateDefaultInstances | packages/assessment-core/src/stores/tasks.ts:236-246 | Every task has exactly its default instance, with index 0 at and below repeatables, in one group for each root. |
| TaskStore.TaskStore.AddRepeatableTaskInstance | packages/assessment-core/src/stores/tasks.ts:248-252 | A repeatable, nested or not, gains such a subtree in a group newer than all others; any other task gets nothing; a valid forest stays valid if no chosen id was taken and the parent exists. |
| TaskStore.TaskStore.RemoveRepeatableTaskInstance | packages/assessment-core/src/stores/tasks.ts:254-273 | Exactly what the instance reaches along the lists of children goes; every other entry stays except that parents lose the children that went. |
| TaskStore.RemoveKeepsValid | packages/assessment-core/src/stores/tasks.ts:254-273 | Removing an instance that its parent can do without leaves a valid forest valid: sound, complete, and with all instances outside repeatables. |
| TaskStore.TaskStore.SetInstanceMappingSource | packages/assessment-core/src/stores/tasks.ts:308-312 | Only the mapping source of that instance changes, an unknown instance is left alone, and a valid forest stays valid. |
| Growth.PlantingStep | packages/assessment-core/src/stores/tasks.ts:225-232 | One more child subtree keeps the parent links, groups, indices and lists of children of a growing subtree, and that only entries with its ids are replaced. |
| Growth.ReplacedIff | packages/assessment-core/src/stores/tasks.ts:194-218 | An existing entry is lost if and only if its id is one of those chosen before the call: the given id, and below it the handed-down index or the next free one of the task. |
| Growth.PlantedSound | packages/assessment-core/src/stores/tasks.ts:185-234 | With none of those ids taken and room at the parent, a sound forest stays sound: parents and children name each other, each is listed once, only repeatable tasks occur more than once below a parent. |
| Growth.SoundIffFree | packages/assessment-core/src/stores/tasks.ts:194-218 | Given an unused id and room at the parent, a sound forest stays sound if and only if none of the ids chosen below it is taken. |
| DeletionRuns.AddedInstanceReplaced | packages/assessment-core/src/stores/tasks.ts:194-218 | A run in which an instance added below one parent is replaced when another parent is added: the new entry hangs below the new parent, the old one still lists it, and the forest is no longer sound. |
| OutermostRuns.FreshIsFree | packages/assessment-core/src/stores/tasks.ts:194-201 | In a forest that only outermost repeatables were added to, no id chosen for an unused index of an outermost repeatable is taken. |
| OutermostRuns.AlwaysTidy | packages/assessment-core/src/stores/tasks.ts:178-273 | Over every run of additions and removals of outermost repeatables the forest stays as init leaves it: mutual links without duplicates, complete, children of a repeatable instance carrying its index, groups shared. |
| Removal.PruneSound | packages/assessment-core/src/stores/tasks.ts:254-273 | Removing keeps a sound forest sound. |
| Removal.PruneMore | packages/assessment-core/src/stores/tasks.ts:259-262 | Removing one instance after others takes exactly what is reached from any of them. |
| OutermostRuns.OneGroup | packages/assessment-core/src/stores/tasks.ts:207-212 | In such a forest everything below an instance of an outermost repeatable shares its group. |
| Forest.SubtreeGroup | packages/assessment-core/src/stores/tasks.ts:207-212 | In any sound forest everything below an instance shares its group, except below an instance of a repeatable in between that starts its own. |
| Forest.ReachIsBelow | packages/assessment-core/src/stores/tasks.ts:259-262 | In a sound forest what is reached down the lists of children lies below up the parents. |
| Forest.BelowIsReach | packages/assessment-core/src/stores/tasks.ts:259-262 | And the other way round. |
| Sync.SyncMapping | packages/assessment-core/src/composables/useTaskDependencies.ts:126-148 | One target, repeatable or not, ends with the indices it should: its source's, or of those the ones it had; every instance knows its source; what is new hangs below the bare instance of the parent task, which lists it once more than before; tasks not below the target keep their indices, entries and links, and a settled pair is left alone. |
| Sync.StepIff | packages/assessment-core/src/composables/useTaskDependencies.ts:139-146 | After its reconciliation a target has exactly the indices of its source if and only if it is repeatable or had all of them; a field of a non-repeatable task is never made again. |
| Sync.SyncInstances | packages/assessment-core/src/composables/useTaskDependencies.ts:109-152 | Afterwards every target is settled with its source, what is new of a target below no other one hangs below the bare instance of its parent task, tasks without a target above them keep their indices, and a settled forest is unchanged, so a second run does nothing. Where targets that get instances are outermost and nothing below them was added on its own, a valid forest stays valid, and a tidy one tidy. |
| Sync.AddedInRun | packages/assessment-core/src/composables/useTaskDependencies.ts:116-142 | Over the whole reconciliation, whatever the other targets do, a new instance of a target that lies below no other target has the bare instance of the parent task as its parent, and if that existed it lists it once more than before. |
| Sync.ListedOnce | packages/assessment-core/src/stores/tasks.ts:218-220 | In a sound forest that is exactly once. |
| Sync.EarlierSettled | packages/assessment-core/src/composables/useTaskDependencies.ts:112-148 | Reconciling a later target leaves every earlier pair settled when sources come before their targets. |
| DeletionRuns.FieldLeftBehind | packages/assessment-core/src/composables/useTaskDependencies.ts:139-146 | A run after which a mapped field that is not repeatable lacks an index of its source, although its own parent has it. |
| Impact.CollectDescendantInstances | packages/assessment-core/src/utils/impactedAnswers.ts:112-123 | The instance and everything listed below it, each once in a sound forest; an unknown instance on its own. |
| Impact.CollectDescendantTaskIds | packages/assessment-core/src/utils/impactedAnswers.ts:92-110 | The queue loop ends with exactly the task and the tasks below it. |
| Impact.CascadeClosed | packages/assessment-core/src/utils/impactedAnswers.ts:168-179 | The cascade computed in the order of the definitions is closed: a target whose source lies at or below a member is a member. |
| Prediction.FindImpactedByDelete | packages/assessment-core/src/utils/impactedAnswers.ts:133-183 | The queue loop terminates and reports, with their values, exactly the answers that are neither cleared nor an empty text nor an empty choice, listed below the instance or below an instance of the cascade at its index, in any forest; each once if the forest is sound and no task of the cascade lies below another. |
| Exactness.TurnStep | packages/assessment-core/src/composables/useTaskDependencies.ts:131-147 | When its turn comes, a target loses exactly its instances at the indices at which its source has gone. |
| Exactness.TurnsDone | packages/assessment-core/src/composables/useTaskDependencies.ts:109-149 | After the removal and k turns of the reconciliation the forest is the old one without what has gone by then. |
| Exactness.RightIffExact | packages/assessment-core/src/utils/impactedAnswers.ts:171-178 | The warning names exactly the instances that removal and reconciliation take away if and only if, in the forest before, it names the target instance wherever it names the source instance, and the source instance of every target that it follows. |
| Exactness.AllAnswersIffExact | packages/assessment-core/src/utils/impactedAnswers.ts:154-166 | That condition holds if and only if for every choice of answers the warning names exactly those that are lost. |
| Exactness.PredictThenDelete | packages/assessment-core/src/utils/impactedAnswers.ts:125-183 | The warning and the deletion together: which answers are named, by their values, what goes, and that the two agree if and only if the condition held before. |
| Exactness.TrackedIsExact | packages/assessment-core/src/utils/impactedAnswers.ts:168-170 | The condition holds in every sound settled forest without added nested instances if every mapping source carries the index of the tasks above it that may go. |
| DeletionRuns.MissedAnswer | packages/assessment-core/src/utils/impactedAnswers.ts:171-178 | A run of init, an added nested instance, reconciliation and deletion, in which an answered instance goes that the warning does not name. |
| Grouping.GroupAnswers | packages/assessment-core/src/utils/groupedAnswers.ts:16-101 | Keys without a place in a group pass through; every written group is sorted and has exactly the answered and, if the group is written, the existing indices, with exactly the answered fields. |
| Flattening.GroupedPlace | packages/assessment-core/src/utils/groupedAnswers.ts:37-58 | The answer of a child of a repeatable task ends up in the element with its index under the child's id, with its own value if indices are written canonically; any other under its own key, unless a group is written there. |
| Flattening.FlattenGroupedAnswers | packages/assessment-core/src/utils/groupedAnswers.ts:113-135 | The flat keys are exactly those contributed by plain answers and element fields. |
| Flattening.FlattenOfGroup | packages/assessment-core/src/utils/groupedAnswers.ts:16-135 | Flattening what was grouped gives the flat answers back if and only if indices are written canonically and no plain key is the id of a written group. |
| Flattening.GroupOfFlatten | packages/assessment-core/src/utils/groupedAnswers.ts:65-98 | Grouping what was flattened gives the grouped answers back if and only if the arrays list the existing instances. |
| Flattening.GroupOfFlattenBare | packages/assessment-core/src/utils/groupedAnswers.ts:16-135 | Without an instance map, if and only if no element is empty. |
| Reload.CollectIndices | packages/assessment-core/src/utils/applyState.ts:63-83 | Exactly the indices in flat keys of the children or in elements of the array. |
| Reload.RebuildTask | packages/assessment-core/src/utils/applyState.ts:85-94 | From the default instance to exactly the collected indices, the default staying when there are none; other outermost tasks, and what gets its index from them, keep theirs, and a tidy forest stays tidy. |
| Reload.RebuildRepeatableInstances | packages/assessment-core/src/utils/applyState.ts:44-96 | After init every outermost repeatable ends with exactly the mentioned indices, or 0 alone, and every task that gets its index from it has the same ones. If repeatables are outermost or children of repeatable ones, the forest is as tidy as after init: every instance hangs below the one instance of its parent task, once. |
| Reload.ReloadIff | packages/assessment-core/src/utils/applyState.ts:53-94 | The old index set comes back if and only if answers belong to instances and the set is {0}, has several members or has an answer. |
| Reload.SaveAndReload | packages/assessment-core/src/utils/groupedAnswers.ts:65-98 | Group, init, flatten and rebuild, for any store: both round trips together for every outermost repeatable, in a tidy forest under the same condition; a nested instance comes back exactly with the outer one of its index, so one added on its own under another index is lost. |
| Visibility.ShouldShowTask | packages/assessment-core/src/utils/dependency.ts:20-89 | The loop returns what the first deciding dependency decides: show, hide, or one of the two errors. |
| Visibility.WouldBeHiddenUnder | packages/assessment-core/src/utils/impactedAnswers.ts:248-287 | True exactly when some complete dependency hides under the overridden value. |
| Visibility.MetIffSatisfied | packages/assessment-core/src/utils/dependency.ts:5-74 | Reading, normalising and comparing come to this: "any" asks nothing; "equals" asks for a text that is the word, or spells the flag in any mixture of cases; "contains" for the same or a choice that is the word; "", "null" and the flags are no words. |
| Visibility.ReadBack | packages/assessment-core/src/utils/dependency.ts:5-14 | A written value reads back normalised like the value itself, the empty text included. |
| Visibility.HiddenIsPredicted | packages/assessment-core/src/utils/impactedAnswers.ts:242-287 | Whatever will really be hidden was predicted, for all dependencies. |
| Visibility.PredictionIff | packages/assessment-core/src/utils/impactedAnswers.ts:259-286 | Prediction and evaluation agree if and only if no dependency stops the evaluation at or before the first hiding one. |
| Visibility.PredictThenWrite | packages/assessment-core/src/utils/dependency.ts:36-88 | For complete conditions with supported operators the prediction is the verdict after the write, and the task is hidden exactly when some condition asks for what the answers then do not give. |
| Migration.AssignIds | packages/assessment-core/src/utils/stateMigration.ts:104-131 | Every old id gets its task id, with the number of earlier instances of the task as index when there are several. |
| Migration.NewIdLaw | packages/assessment-core/src/utils/stateMigration.ts:104-131 | The only instance of a task gets the bare task id; of several, each gets as index the number of old ids of the task that sort before its own. |
| Migration.NewIdsDistinct | packages/assessment-core/src/utils/stateMigration.ts:119-131 | New ids are pairwise distinct. |
| Migration.IndicesAreGapless | packages/assessment-core/src/utils/stateMigration.ts:119-131 | A task with n > 1 instances gets exactly the indices 0 to n - 1. |
| Migration.IndexOrder | packages/assessment-core/src/utils/stateMigration.ts:105 | The indices follow the sorted old ids. |
| Migration.AnswersConserved | packages/assessment-core/src/utils/stateMigration.ts:138-146 | Every answer survives under its new key if and only if no kept key equals a new id of an answered one. |
| Migration.MigrateKeys | packages/assessment-core/src/utils/stateMigration.ts:99-146 | The renaming of one namespace: ids by that law and pairwise distinct, and every answer under its new key, or its own if it has none, exactly without a clash. |

## Left out

- Numbers: indices, versions and timestamps are unbounded naturals; JavaScript loses integer precision above 2^53.
- Clock: commits of one assessment get strictly increasing timestamps; two transactions that start at the same instant are not modelled.
- JSON comparison: equality of values stands for equality of their JSON text, so a different key order inside an answer is not a change here.
- Field names: an answer key that starts with the prefix of the completed marks is not modelled; answer fields and marks are separate kinds of field.
- Completed tasks: a set; their order and duplicates in the stored list are not modelled.
- Values of repeatable elements: element fields and plain values are answers; nested arrays inside an element are not modelled.
- Legacy forms: the unwrapping of namespaced states and the cached-state fallback for missing instances are not modelled; legacy edit types are skipped as in the code.
- Requests: HTTP, roles, validation, names of assessments, session storage, debounce timers and labels.
- TieOrder.OrderFreeIff: a group inside a group is excluded where it would matter for a changed field; there a field may land in the outer group instead.
- Collaboration: the forced new version of a save is not modelled; only accepted payloads in normal form, of a store that grouping and flattening give back, are covered by its invariant.
- Collaboration.NoSilentLostUpdate: a save and its reply are one step, a client does not edit between a merge and the request that sends it, and there is no polling; `MergeLaws` shows what happens otherwise.
- ApiClient.Client.HandleConflict: the second request is a separate call, and a failed fetch leaves everything as it is, which is not a step of the model.
- TaskStore.TaskStore.CreateTaskInstance: the parent, if any, belongs to the parent task; a parent of another task and an unknown task id are not modelled.
- Sync.SyncInstances: every target has one mapping, and no target at or after its own position is at or above its source; several mappings of one task are not modelled.
- Exactness.PredictThenDelete: the deleted task is not mapped, as in the form, which offers no deletion there, and repeatable targets are outermost; a nested repeatable target is created without its outer instance.
- Exactness.RightIffExact: answers in the store whose instance does not exist are not counted as lost.
- Reload.RebuildRepeatableInstances: says nothing of the index sets of repeatables that lie deeper below another one without being its child; the code adds them under a parent id that need not exist.
- Visibility: findImpactedByConditionalChange around the what-if test (which tasks depend, equal indices, answers with a value) and the export filter would only add easy members.
- Migration: the detection of old states, the stripping of legacy fields and the copying of completed tasks.
- Migration.AssignIds: the sorted old ids are given; the sort itself is the library's.
- PDF, Markdown and HTML output, image handling, calculations, comments, members and projects.
