# Grafana core services, modelled in Dafny

This project models a group of Grafana back-end services and one front-end
service, and proves properties about them. Each part below is one Dafny module.

- **`DualWriter`** — the mode-2 dual writer of the API server
  (`dualwriter_mode2.dfy`).
  - Every create, get, list, delete, delete-collection and update is routed to
    the *legacy* store and the unified *storage* store, in a fixed order.
  - NotFound is tolerated only at certain points.
  - Identity metadata is copied onto the object written second
    (`enrichLegacyObject`).
  - List results are rebuilt by name (`parseList`).
  - Duration and outcome events are recorded.
  - Both stores are instances of `ObjectStore.Store` (`object_store.dfy`): a
    sequence of named objects whose operations can be made to fail with
    NotFound or another error. All calls go to a shared journal.
- **`RuleDeltas`** — `CalculateChanges` of the unified alerting store
  (`rule_deltas.dfy`). It splits the submitted rules of a rule group into
  rules to add, to update and to delete. It compares them with the group's
  current rules and with rules loaded from other groups through a cache.
- **`ServerLock`** — the server lock (`server_lock.dfy`): a table of lock
  rows with a version compare-and-swap, an interval gate, and optional
  release.
- **`Correlations`** — the correlations store (`correlations.dfy`): create,
  update, delete and read over a correlation table. Validation checks the
  data sources, and errors are reported in a fixed order of precedence.
- **`PlaylistStore`** — the playlist SQL store (`playlist_store.dfy`):
  playlists and their items, bounded UID generation, renumbering of items on
  update, and the filtered list.
- **`SecretNames`** — the AWS Secrets Manager plugin's secret-name codec
  (`secret_names.dfy`). Keys are written as `<ns>///<type>///<org>` and parsed
  back. Separators inside components are sanitised to `-`. The module also
  covers key prefixes and soft-deletion keys.
- **`FixedKVStore`** — the secrets key/value store wrapper with a fixed
  organization, namespace and type (`fixed_kvstore.dfy`).
- **`DashboardPanels`** — the dashboard panel query lookup and the MySQL
  target mapper (`dashboard_panels.dfy`).
- **`AppChrome`** — the front-end chrome state service (`app_chrome.dfy`):
  route-change reset, merge of partial updates, and publishing only on
  change.

`Wrappers` (`wrappers.dfy`) holds `Option` and `Result`.

**Stateful code is modelled as classes with `modifies` clauses.** Each
method's contract states its whole new state. It does so in terms of
specification functions (for example `LockAndExecuteStep`, `ItemsOf`,
`Joined`, `ParseState`), and lemmas state what those functions guarantee.

**Scenario methods replay test sequences.** These are methods that change
nothing outside themselves, such as `ServerLock.LockAndExecuteScenario`. They
run the integration tests' call sequences through the classes, and their
contracts state the counts the tests expect.

**Time and generators are parameters.**
- Time is nanoseconds since the epoch (`now: nat`).
- Durations are integers of nanoseconds.
- The UID generators are a parameter: `gen: nat -> string` gives the
  candidate of each attempt, and `uuid` / `newUid` are plain string
  parameters.

## Model

| member | source | states |
|---|---|---|
| DualWriter.Enrich | pkg/apiserver/rest/dualwriter_mode2.go:364-389 | Fails with a not-an-object error exactly when either side is not a single object. Otherwise it returns the target object with the source's labels, resourceVersion and UID. Annotations are the target's merged with the source's: source keys win, other target keys are kept, and absent maps count as empty. |
| DualWriter.EnrichIdempotent | pkg/apiserver/rest/dualwriter_mode2.go:364-389 | Enriching an already enriched object from the same source changes nothing. |
| DualWriter.ParseList | pkg/apiserver/rest/dualwriter_mode2.go:351-362 | The index maps exactly the names in the legacy list, each to the LAST position holding that name. |
| DualWriter.LastNamed | pkg/apiserver/rest/dualwriter_mode2.go:165-175 | The storage object picked for a name is one with that name; there is none exactly when no storage object has that name. |
| DualWriter.SubstituteByName | pkg/apiserver/rest/dualwriter_mode2.go:165-175 | The result has the legacy list's length. Each slot holds the storage object of the same name if there is one, and otherwise the legacy object. The outcome events compare each substituted storage object with itself. |
| DualWriter.ListSubstitutionExample | pkg/apiserver/rest/dualwriter_mode2.go:145-182 | On a concrete pair of lists, slots A and C are replaced from storage, B is kept, and storage-only names are ignored. |
| DualWriter.ListOutcomesSound | pkg/apiserver/rest/dualwriter_mode2.go:168-170 | There is at most one list outcome event per storage object. Each is for a legacy name, and its storage and legacy sides are the same storage object of that name. |
| DualWriter.DualWriterMode2.constructor | pkg/apiserver/rest/dualwriter_mode2.go:30-38 | Holds the given legacy and storage stores, which share one journal, with no events yet. |
| DualWriter.DualWriterMode2.Create | pkg/apiserver/rest/dualwriter_mode2.go:46-79 | If legacy Create fails, storage is not called and legacy's object and error are returned. Otherwise storage receives the legacy result enriched from the original object, and storage's reply is returned. Legacy keeps the object even when storage then fails (no rollback). Storage holds the enriched object exactly when its create succeeds, and is untouched otherwise. The recorded events match each outcome. |
| DualWriter.DualWriterMode2.Get | pkg/apiserver/rest/dualwriter_mode2.go:82-119 | A storage error other than NotFound is returned without calling legacy. Otherwise legacy is read, and a legacy error is returned even when storage found the object. On success the result is the storage object if it is present, else the legacy object. |
| DualWriter.DualWriterMode2.List | pkg/apiserver/rest/dualwriter_mode2.go:123-183 | Legacy and storage errors are returned in that order. On success the result has the legacy list's length and order, with each slot replaced by the storage object of the same name. |
| DualWriter.DualWriterMode2.DeleteCollection | pkg/apiserver/rest/dualwriter_mode2.go:186-228 | A legacy error is returned with no storage call. Otherwise legacy is emptied, storage is cleared unless it fails, and storage's reply is returned. |
| DualWriter.DeleteStopsOnLegacyError | pkg/apiserver/rest/dualwriter_mode2.go:236-244 | A legacy delete error other than NotFound is returned unchanged, with legacy's async flag. Storage is never called and does not change. |
| DualWriter.DeleteReturnsStorageReply | pkg/apiserver/rest/dualwriter_mode2.go:245-264 | After legacy deleted the object or did not find it, storage is called second. Storage's object and error are returned, NotFound included, with legacy's async flag. A failed storage duration is recorded exactly when storage failed with some other error. |
| DualWriter.DeleteRemovesFromBoth | pkg/apiserver/rest/dualwriter_mode2.go:230-265 | A successful delete leaves no object of that name in storage, and keeps every other object. The same holds for legacy unless legacy's delete failed with an injected NotFound fault. A failed delete never changes storage. |
| DualWriter.DualWriterMode2.Delete | pkg/apiserver/rest/dualwriter_mode2.go:230-265 | Its reply, both stores' contents, the journal of calls and the events are exactly those given by the delete function. Its legacy half runs here. |
| DualWriter.DualWriterMode2.DeleteFromStorage | pkg/apiserver/rest/dualwriter_mode2.go:247-264 | Its storage half matches the function's storage half, given legacy's reply. |
| DualWriter.PreparedSound | pkg/apiserver/rest/dualwriter_mode2.go:293-306 | Preparation fails only when the legacy result or the found object is not a single object. With a found object, the result takes that object's labels, resourceVersion and UID, and the caller's force flag is kept. With none, resourceVersion and UID are cleared and creation is forced. |
| DualWriter.UpdateStopsOnReadError | pkg/apiserver/rest/dualwriter_mode2.go:274-281 | A storage Get error other than NotFound is returned with no object. It comes before legacy is called, and neither store changes. |
| DualWriter.UpdateStopsOnLegacyError | pkg/apiserver/rest/dualwriter_mode2.go:284-290 | A legacy update error is returned with legacy's object and created flag. Storage is not written. |
| DualWriter.UpdateReturnsStorageReply | pkg/apiserver/rest/dualwriter_mode2.go:308-323 | Once legacy succeeded and the object is prepared, storage's reply to the write is returned, created flag included. A storage success records no storage duration. |
| DualWriter.UpdateWritesStorageAfterLegacy | pkg/apiserver/rest/dualwriter_mode2.go:268-324 | Storage is always read first. Legacy, if called at all, is called second with the caller's object. Storage is written only after legacy succeeded and the object was prepared, and that write is the third and last call, carrying the prepared object. |
| DualWriter.DualWriterMode2.Update | pkg/apiserver/rest/dualwriter_mode2.go:268-324 | Its reply, both stores' contents, the journal of calls and the events are exactly those given by the update function. The read and legacy halves run here. |
| DualWriter.DualWriterMode2.WriteToStorage | pkg/apiserver/rest/dualwriter_mode2.go:293-323 | Preparing and writing the object matches the function's storage half. |
| DualWriter.DualWriterMode2.Destroy | pkg/apiserver/rest/dualwriter_mode2.go:326-329 | Destroys storage and then legacy, in that call order. |
| DualWriter.DualWriterMode2.GetSingularName | pkg/apiserver/rest/dualwriter_mode2.go:331-333 | Consults storage only. |
| DualWriter.DualWriterMode2.NamespaceScoped | pkg/apiserver/rest/dualwriter_mode2.go:335-337 | Consults storage only. |
| DualWriter.DualWriterMode2.New | pkg/apiserver/rest/dualwriter_mode2.go:339-341 | Consults storage only. |
| DualWriter.DualWriterMode2.NewList | pkg/apiserver/rest/dualwriter_mode2.go:343-345 | Consults storage only. |
| DualWriter.DualWriterMode2.ConvertToTable | pkg/apiserver/rest/dualwriter_mode2.go:347-349 | Consults storage only. |
| RuleDeltas.IsEmpty | pkg/services/ngalert/store/deltas.go:31-33 | True exactly when the rules to add, to update and to delete are all empty. |
| RuleDeltas.WithoutUidMembers | pkg/services/ngalert/store/deltas.go:65-94 | The rules to add are exactly the submitted rules with an empty UID. |
| RuleDeltas.UidIndexSound | pkg/services/ngalert/store/deltas.go:57-60 | The index's keys are exactly the UIDs of the rules, and each key maps to one of the rules with that UID. |
| RuleDeltas.IndexByUid | pkg/services/ngalert/store/deltas.go:57-60 | The loop builds exactly the UID map `UidIndex` of the group's rules; a later rule with a repeated UID overwrites an earlier one. |
| RuleDeltas.LoadInto | pkg/services/ngalert/store/deltas.go:78-83 | Every UID cached before stays cached. The rule found comes from the query result, has the sought UID and is cached. |
| RuleDeltas.LoadIntoSound | pkg/services/ngalert/store/deltas.go:78-86 | Loading stored rules of the org keeps the cache sound: each UID maps to a stored rule of the org with that UID. Nothing is found exactly when no rule in the result has the UID. |
| RuleDeltas.LoadIntoKeys | pkg/services/ngalert/store/deltas.go:78-83 | Loading a query result adds exactly the UIDs of its rules to the cache. |
| RuleDeltas.UniqueFind | pkg/services/ngalert/store/deltas.go:77-86 | Under the table's unique (org, UID) key, the lookup of a stored rule's UID in its org finds that rule. |
| RuleDeltas.UpdateFor | pkg/services/ngalert/store/deltas.go:66-104 | A submitted rule yields at most one update. An update has a non-empty UID, pairs the stored rule of the org with that UID with its patch by the submitted rule, and carries their non-empty diff. |
| RuleDeltas.FirstUnknownUidNone | pkg/services/ngalert/store/deltas.go:84-86 | There is no unknown UID exactly when every submitted UID names a stored rule of the org; the one reported is such a submitted UID. |
| RuleDeltas.LoadGroup | pkg/services/ngalert/store/deltas.go:78-83 | The inner loop over the query result computes exactly `LoadInto`. |
| RuleDeltas.Resolve | pkg/services/ngalert/store/deltas.go:66-89 | On success there is no existing rule exactly when the UID is empty. The only errors are the failed group query and rule-not-found. At most one query is issued, and it is for this rule's UID. |
| RuleDeltas.ResolveSound | pkg/services/ngalert/store/deltas.go:66-89 | After a success the bookkeeping stays sound: a group rule with the UID stops being a deletion candidate, the cache holds only stored rules of the org, every queried UID is cached, and affected groups hold all their stored rules. The rule found is a stored rule of the org with the submitted UID. Rule-not-found means no stored rule of the org has that UID. A group-query error means the store failed. |
| RuleDeltas.ResolveOutcome | pkg/services/ngalert/store/deltas.go:66-89 | With a working store, a rule fails to resolve exactly when its UID is non-empty and names no stored rule of the org, and then with rule-not-found for that UID. With a failing group query, it fails exactly when its UID is neither an unmatched group rule nor cached, then with the group-query error, and nothing is cached or queried. |
| RuleDeltas.ResolveQueriesFresh | pkg/services/ngalert/store/deltas.go:66-77 | No query is issued for a UID cached by an earlier query, and a UID of the target group is queried only when it was already submitted before. |
| RuleDeltas.ResolveQueriedLoaded | pkg/services/ngalert/store/deltas.go:77-89 | After a success, every queried UID's group is cached and the group of its stored rule is affected. |
| RuleDeltas.ResolveExisting | pkg/services/ngalert/store/deltas.go:66-89 | The method computes exactly `Resolve`. |
| RuleDeltas.Start | pkg/services/ngalert/store/deltas.go:43-64 | Before the loop nothing is added, updated or queried, and the target group is affected exactly when it has stored rules. |
| RuleDeltas.HandleRule | pkg/services/ngalert/store/deltas.go:65-109 | Once an error occurred, later rules change nothing. Otherwise a rule grows add or update by at most one, and it is added exactly when its UID is empty. A rule without UID never fails and leaves the updates alone. A rule with a UID leaves add alone and appends at most one update, which is the patch of its stored rule by the submitted rule with their non-empty diff. |
| RuleDeltas.HandleRuleSound | pkg/services/ngalert/store/deltas.go:65-109 | One iteration keeps `ProgressSound`: the scan invariant, add equal to the submitted rules without UID, sound updates, and the cause of any error. |
| RuleDeltas.ScannedSound | pkg/services/ngalert/store/deltas.go:65-109 | After any prefix of the submitted rules the progress is sound. Queries are for distinct submitted UIDs. Without an error: the deletion candidates are the group's UIDs minus the submitted ones, add holds exactly the submitted rules without UID, each update comes from a matched submitted rule with a non-empty diff, and every submitted UID names a stored rule of the org. With an error, its cause. |
| RuleDeltas.HandleRuleComplete | pkg/services/ngalert/store/deltas.go:65-109 | One iteration keeps `ProgressComplete`. Queries stay fresh. Without an error every queried group is cached and affected, and, under the unique (org, UID) key, the updates are exactly `ExpectedUpdates`: one per submitted rule whose patch changes its stored rule, in submission order. With a working store the error is rule-not-found for the first unknown UID, and there is one exactly when such a UID exists. With a failing group query nothing is queried, and the group-query error occurs exactly when a submitted UID is not a group rule or repeats one. |
| RuleDeltas.ScannedComplete | pkg/services/ngalert/store/deltas.go:65-109 | After any prefix of the submitted rules the progress is complete in the sense of `HandleRuleComplete`. |
| RuleDeltas.FailedPersists | pkg/services/ngalert/store/deltas.go:72-86 | The first error ends the scan: the outcome of the whole submission equals the outcome at the rule that failed. |
| RuleDeltas.HandleSubmitted | pkg/services/ngalert/store/deltas.go:65-109 | One iteration of the loop computes exactly `HandleRule`. |
| RuleDeltas.ScanSubmitted | pkg/services/ngalert/store/deltas.go:65-109 | The loop over the submitted rules computes exactly `Scanned`, stopping at the first error. |
| RuleDeltas.DeleteSetIsUnmatched | pkg/services/ngalert/store/deltas.go:111-113 | The remaining candidates are rules of the group, and their UIDs are exactly the group's UIDs minus the submitted UIDs. |
| RuleDeltas.Changes | pkg/services/ngalert/store/deltas.go:42-122 | A failed list query gives the list error, and no group query is issued. |
| RuleDeltas.ChangesSound | pkg/services/ngalert/store/deltas.go:42-122 | The list error is returned exactly when the list query fails, and a group-query error only when that query fails. Rule-not-found names a submitted UID that no stored rule of the org has. No UID is queried twice. A delta is for the group and adds exactly the submitted rules without UID. Each submitted rule is in at most one of add and update. Each update pairs a stored rule with its patch by a submitted rule of that UID, with a non-empty diff. Delete holds exactly the group rules no submitted UID matched, one per UID. Affected groups hold the target group exactly when it has rules, and each affected group maps to all its stored rules. Under the unique (org, UID) key the updates are exactly one per submitted rule whose patch changes its stored rule, in submission order. |
| RuleDeltas.ChangesComplete | pkg/services/ngalert/store/deltas.go:42-122 | With a working store the result is an error exactly when a submitted UID names no stored rule of the org, and then it is rule-not-found for the first such UID. With a failing group query nothing is queried, and the result is the group-query error exactly when a submitted UID is not a group rule or repeats one. No UID cached by an earlier query is queried, nor a group UID on its first occurrence. Every queried UID's stored rule has its group among the delta's affected groups. |
| RuleDeltas.CalculateChanges | pkg/services/ngalert/store/deltas.go:42-122 | The method computes exactly `Changes`, including the UIDs queried, in order. |
| ServerLock.UnixSeconds | pkg/infra/serverlock/serverlock.go:109 | The whole seconds of a nanosecond instant: the largest count of seconds not after it. |
| ServerLock.NeverRunRowNotWithinInterval | pkg/infra/serverlock/serverlock.go:87-95 | A row whose last execution is 0 is never within the interval. |
| ServerLock.StampedRowWithinInterval | pkg/infra/serverlock/serverlock.go:87-95 | A row stamped at one instant is within the interval at any later instant closer than the interval minus one second. |
| ServerLock.ElapsedRowNotWithinInterval | pkg/infra/serverlock/serverlock.go:87-95 | Once the interval has passed since the stamp, the row is no longer within it. |
| ServerLock.FirstWithUidNone | pkg/infra/serverlock/serverlock.go:142-172 | The lookup finds no row exactly when no row carries the action name. |
| ServerLock.CountMatchingUnique | pkg/infra/serverlock/serverlock.go:103-115 | With unique row ids, the compare-and-swap touches at most one row, and exactly one when a row with that id and version exists. |
| ServerLock.StampKeepsUniqueIds | pkg/infra/serverlock/serverlock.go:98-121 | Stamping keeps row ids unique and creates no new id. |
| ServerLock.StampThenReleaseRemovesRow | pkg/infra/serverlock/serverlock.go:98-140 | Acquiring a row and releasing it with the new version leaves no row with its id. |
| ServerLock.ReleaseKeepsUniqueIds | pkg/infra/serverlock/serverlock.go:124-140 | Releasing keeps row ids unique and adds no row. |
| ServerLock.ReleaseMembers | pkg/infra/serverlock/serverlock.go:124-140 | The rows kept are exactly those whose id and version do not both match. |
| ServerLock.GetOrCreateStep | pkg/infra/serverlock/serverlock.go:142-172 | An error comes with no row, names a failing statement and leaves the table and next id as they were. A returned row is in the table and carries the action name. When a row for the action exists, the first one is returned. The only other outcome appends a row with the next id, version 0 and last execution 0, and only when no row for the action existed. |
| ServerLock.GetOrCreateKeepsValid | pkg/infra/serverlock/serverlock.go:142-172 | getOrCreate keeps row ids unique, positive and below the next id. |
| ServerLock.AcquireStep | pkg/infra/serverlock/serverlock.go:98-121 | The returned version is always the old one plus 1. A failing update reports the error, leaves the table and takes no lock. The lock is taken only if a row with that id and version existed. |
| ServerLock.AcquireStepTakesLock | pkg/infra/serverlock/serverlock.go:103-115 | With unique ids, the lock is taken exactly when a row with that id and version exists. |
| ServerLock.AcquireKeepsValid | pkg/infra/serverlock/serverlock.go:98-121 | acquireLock keeps row ids unique, positive and below the next id. |
| ServerLock.ReleaseStep | pkg/infra/serverlock/serverlock.go:124-140 | A failing delete reports the error and leaves the table; the delete never adds a row. |
| ServerLock.ReleaseKeepsValid | pkg/infra/serverlock/serverlock.go:124-140 | releaseLock keeps row ids unique, positive and below the next id. |
| ServerLock.LockAndExecuteStep | pkg/infra/serverlock/serverlock.go:28-51 | The action runs only when no error is returned. An error names a failing find, insert or update statement. |
| ServerLock.LockExecuteAndReleaseStep | pkg/infra/serverlock/serverlock.go:55-85 | As LockAndExecute; a failing delete is never reported. |
| ServerLock.StepsKeepValid | pkg/infra/serverlock/serverlock.go:28-85 | Both public calls keep row ids unique, positive and below the next id. |
| ServerLock.WithinIntervalChangesNothing | pkg/infra/serverlock/serverlock.go:35-38 | When the action's row is within the interval, both calls return nil, do not run the action and change nothing. |
| ServerLock.LockAndExecuteRunsExisting | pkg/infra/serverlock/serverlock.go:28-51 | With an existing row outside the interval and find and update succeeding, the action runs, no error is returned, and that row gets the bumped version and now. |
| ServerLock.LockAndExecuteRunsFresh | pkg/infra/serverlock/serverlock.go:28-51 | With no row for the action and nothing failing, a row is inserted with the next id, the lock on it is taken at once and the action runs; the row is left with version 1 and now. |
| ServerLock.LockExecuteAndReleaseRunsExisting | pkg/infra/serverlock/serverlock.go:55-85 | With an existing row outside the interval, the action runs and no error is returned; when the delete succeeds no row with that id is left. |
| ServerLock.LockExecuteAndReleaseRunsFresh | pkg/infra/serverlock/serverlock.go:55-85 | With no row for the action, the action runs; when the delete succeeds the table is as it was before the call, and only the next id has moved on. |
| ServerLock.ServerLockService.GetOrCreate | pkg/infra/serverlock/serverlock.go:142-172 | Keeps the table invariant; its row, error, table and next id are those of GetOrCreateStep. |
| ServerLock.ServerLockService.AcquireLock | pkg/infra/serverlock/serverlock.go:98-121 | Keeps the table invariant; its result, version, error and table are those of AcquireStep. |
| ServerLock.ServerLockService.ReleaseLock | pkg/infra/serverlock/serverlock.go:124-140 | Keeps the table invariant; its error and table are those of ReleaseStep. |
| ServerLock.ServerLockService.LockAndExecute | pkg/infra/serverlock/serverlock.go:28-51 | Keeps the table invariant. Its error, table and next id are those of LockAndExecuteStep, and the action is appended to the runs exactly when that step runs it. |
| ServerLock.ServerLockService.LockExecuteAndRelease | pkg/infra/serverlock/serverlock.go:55-85 | Keeps the table invariant. Its error, table and next id are those of LockExecuteAndReleaseStep, and the action is appended to the runs exactly when that step runs it. |
| ServerLock.LockAndExecuteScenario | pkg/infra/serverlock/serverlock_integration_test.go:11-37 | Three calls with a one-hour interval run the action once; a one-millisecond interval lets it run again. |
| ServerLock.LockExecuteAndReleaseScenario | pkg/infra/serverlock/serverlock_integration_test.go:39-60 | With release, every call runs the action. |
| Correlations.SourceCheck | pkg/services/correlations/database.go:28-36 | A missing source data source gives the does-not-exist error. A read-only one gives the read-only error exactly when the check is requested. |
| Correlations.FirstSelectedAfterUpdate | pkg/services/correlations/database.go:107-137 | After updating the (UID, source) rows, the row read back is the first such row with the new label and description. |
| Correlations.Joined | pkg/services/correlations/database.go:231-239 | The rows kept are exactly the correlations whose source data source belongs to the organization. |
| Correlations.CorrelationsService.constructor | pkg/services/correlations/database.go:12-64 | An empty correlation table over the given data sources. |
| Correlations.CorrelationsService.CreateCorrelation | pkg/services/correlations/database.go:12-64 | Errors in order: missing source, then read-only source unless the check is skipped, then missing target. Only then is the row inserted with a fresh id, and the returned DTO equals its five fields. On error the DTO is empty and the table unchanged. |
| Correlations.CorrelationsService.DeleteCorrelation | pkg/services/correlations/database.go:66-86 | The source must exist and not be read-only. Only rows matching both UID and source UID are removed, and removing none gives not-found. |
| Correlations.CorrelationsService.UpdateCorrelation | pkg/services/correlations/database.go:88-139 | Same source checks. Only label and description of the (UID, source) rows change; no such row gives not-found. The DTO is the row read back. |
| Correlations.CorrelationsService.GetCorrelation | pkg/services/correlations/database.go:141-180 | The source must exist, but read-only is not checked. A missing row gives not-found; otherwise the DTO of the first matching row. |
| Correlations.CorrelationsService.GetCorrelationsBySourceUID | pkg/services/correlations/database.go:182-225 | The only error is not-found. It is given exactly when the source is missing or has no correlations, because emptiness is checked before the lookup error. Otherwise the DTOs of that source's rows. |
| Correlations.JoinedDTOsInOrg | pkg/services/correlations/database.go:227-258 | Every DTO of the join names a source data source that belongs to the organization. |
| Correlations.CorrelationsService.GetCorrelations | pkg/services/correlations/database.go:227-258 | Returns the DTOs of correlations whose source is in the organization, and not-found exactly when there are none. Every DTO returned names a source data source of the organization. |
| Correlations.CorrelationsService.DeleteCorrelationsBySourceUID | pkg/services/correlations/database.go:260-265 | Removes exactly the rows with that source UID. |
| Correlations.CorrelationsService.DeleteCorrelationsByTargetUID | pkg/services/correlations/database.go:267-272 | Removes exactly the rows with that target UID. |
| PlaylistStore.FirstPlaylist | pkg/services/playlist/playlistimpl/store.go:174-182 | Finds a playlist with that UID in that organization; none exactly when the UID is not in use there. |
| PlaylistStore.InsertedItemsAreItemsOf | pkg/services/playlist/playlistimpl/store.go:52-63 | After insertion, the items of the new playlist are exactly the command's items, in order and with their given order numbers. |
| PlaylistStore.RenumberedItemsAreItemsOf | pkg/services/playlist/playlistimpl/store.go:140-162 | After an update, the playlist's items are the command's items with order numbers 1, 2, 3, and so on. |
| PlaylistStore.OtherItemsUnchanged | pkg/services/playlist/playlistimpl/store.go:140-162 | Replacing one playlist's items leaves every other playlist's items unchanged. |
| PlaylistStore.ItemsOfAppend | pkg/services/playlist/playlistimpl/store.go:52-63 | Selecting a playlist's items distributes over concatenation of item tables. |
| PlaylistStore.FirstPlaylistAfterAppend | pkg/services/playlist/playlistimpl/store.go:40-47 | A playlist inserted with an unused UID is the one later found for that UID. |
| PlaylistStore.Filtered | pkg/services/playlist/playlistimpl/store.go:258-265 | Keeps exactly the playlists of the organization whose name contains the given name, when a name is given. |
| PlaylistStore.Limited | pkg/services/playlist/playlistimpl/store.go:262-264 | A positive limit keeps at most that many leading rows; a non-positive limit keeps all rows. |
| PlaylistStore.PlaylistStore.constructor | pkg/services/playlist/playlistimpl/store.go:29-66 | Empty playlist and item tables. |
| PlaylistStore.PlaylistStore.GenerateAndValidateNewPlaylistUid | pkg/services/playlist/playlistimpl/store.go:313-329 | Makes at most 3 attempts and returns the first candidate not in use in the organization. If all 3 are in use, it returns the unique-UID error. |
| PlaylistStore.PlaylistStore.Insert | pkg/services/playlist/playlistimpl/store.go:29-66 | Stores name, interval, organization and a fresh UID, and one item per command item with its given order. A UID generation failure changes nothing. |
| PlaylistStore.PlaylistStore.Update | pkg/services/playlist/playlistimpl/store.go:113-166 | Only name and interval change. All old items of the playlist are replaced by the command's items numbered from 1. Whether the playlist exists is not checked, so a missing playlist acts on id 0. |
| PlaylistStore.Renumber | pkg/services/playlist/playlistimpl/store.go:150-160 | The rows built for insertion are the renumbered items: one per command item in order, each with the playlist's id and the position plus one as its order. |
| PlaylistStore.PlaylistStore.Get | pkg/services/playlist/playlistimpl/store.go:168-195 | An empty UID or organization 0 is rejected with the validation error and no playlist. Otherwise not-found exactly when no playlist matches, returned with a playlist holding only the UID and the organization; else the first match. |
| PlaylistStore.PlaylistStore.Delete | pkg/services/playlist/playlistimpl/store.go:197-247 | Same validation. It removes the playlist row and every item with its id. |
| PlaylistStore.PlaylistStore.List | pkg/services/playlist/playlistimpl/store.go:249-279 | Organization 0 is rejected. Otherwise the result holds only playlists of that organization matching the name, with at most the limit many when it is positive. |
| PlaylistStore.PlaylistStore.GetItems | pkg/services/playlist/playlistimpl/store.go:281-308 | An empty UID or organization 0 is rejected, and a missing playlist gives not-found. Otherwise the result is exactly that playlist's items. |
| SecretNames.SanitizeHasNoSeparator | pkg/plugins/backendplugin/secretsmanagerplugin/amazonserver/amazon_server_main.go:282-285 | A sanitised component contains no `///`. |
| SecretNames.SanitizeIdentity | pkg/plugins/backendplugin/secretsmanagerplugin/amazonserver/amazon_server_main.go:282-285 | Sanitising a component without `///` leaves it unchanged. |
| SecretNames.ScanUintDigits | pkg/plugins/backendplugin/secretsmanagerplugin/amazonserver/amazon_server_main.go:309 | Over decimal digits the unsigned scan gives their value, or the range error exactly when the value exceeds the unsigned 64-bit range. |
| SecretNames.ScanUintOk | pkg/plugins/backendplugin/secretsmanagerplugin/amazonserver/amazon_server_main.go:309 | The unsigned scan succeeds only over decimal digits whose value fits 64 bits, and gives that value. |
| SecretNames.ScanUintStopsAtError | pkg/plugins/backendplugin/secretsmanagerplugin/amazonserver/amazon_server_main.go:309 | The scan stops at its first error: what follows a failing prefix does not change the result. |
| SecretNames.ParseIntAccepts | pkg/plugins/backendplugin/secretsmanagerplugin/amazonserver/amazon_server_main.go:309 | A parsed id is an optional sign followed by at least one digit and nothing else, with the value those digits give, negated after `-`. |
| SecretNames.OverflowBeforeSyntaxError | pkg/plugins/backendplugin/secretsmanagerplugin/amazonserver/amazon_server_main.go:309 | A digit run past the unsigned 64-bit range is a range error even when a character that is not a digit follows it. |
| SecretNames.FormatParseRoundTrip | pkg/plugins/backendplugin/secretsmanagerplugin/amazonserver/amazon_server_main.go:272 | The organization id written in decimal parses back to itself, negative ids included. |
| SecretNames.FormattedSecretUpdatedName | pkg/plugins/backendplugin/secretsmanagerplugin/amazonserver/amazon_server_main.go:276-280 | Equals the formatted name of the key with its namespace replaced. |
| SecretNames.FormattedKeyPrefix | pkg/plugins/backendplugin/secretsmanagerplugin/amazonserver/amazon_server_main.go:287-294 | Without all-orgs it is the formatted name. With all-orgs it is a prefix of the formatted name for every organization. |
| SecretNames.SoftDeletionKey | pkg/plugins/backendplugin/secretsmanagerplugin/amazonserver/amazon_server_main.go:296-302 | Keeps the organization and type, and prefixes the namespace with `scheduled-for-deletion-<uuid>/`. |
| SecretNames.KeyForFormattedSecretName | pkg/plugins/backendplugin/secretsmanagerplugin/amazonserver/amazon_server_main.go:304-318 | Fewer than three segments is the index-out-of-range case. Otherwise namespace and type are the first two segments, and the organization is the third parsed as a base-10 64-bit integer. |
| SecretNames.FormattedNameRoundTrip | pkg/plugins/backendplugin/secretsmanagerplugin/amazonserver/amazon_server_main.go:271-318 | Parsing a formatted name gives back the key, when namespace and type contain no `///` and do not end in `/`. |
| SecretNames.TrailingSlashBreaksRoundTrip | pkg/plugins/backendplugin/secretsmanagerplugin/amazonserver/amazon_server_main.go:46-47 | A namespace ending in `/` does not survive the round trip. The name of `(ns + "/", t, org)` parses as `(ns, "/" + t, org)`: the slash moves from the namespace to the type. |
| SecretNames.PanicsIff | pkg/plugins/backendplugin/secretsmanagerplugin/amazonserver/amazon_server_main.go:305-309 | Converting the entries panics exactly when some entry splits into fewer than three segments, because the third segment is then read out of range. |
| SecretNames.LastParsedKeySound | pkg/plugins/backendplugin/secretsmanagerplugin/amazonserver/amazon_server_main.go:335-346 | The key kept is parsed from one of the entries; there is none exactly when no entry parses. |
| SecretNames.MapSecretEntriesToKeys | pkg/plugins/backendplugin/secretsmanagerplugin/amazonserver/amazon_server_main.go:335-346 | As written: unparseable names are skipped, and only the last parseable entry is kept after the original keys. |
| SecretNames.OnlyLastEntryKept | pkg/plugins/backendplugin/secretsmanagerplugin/amazonserver/amazon_server_main.go:335-346 | For any two keys whose namespace and type have no separator and no trailing slash, neither formatted name panics. The conversion as written keeps only the second key, while both names parse, in order. |
| SecretNames.MapSecretEntriesToKeysAppendingAll | pkg/plugins/backendplugin/secretsmanagerplugin/amazonserver/amazon_server_main.go:334-346 | Corrected: the key of every parseable entry is appended, in order. |
| FixedKVStore.FixedKVStore.With | pkg/services/secrets/kvstore/kvstore.go:64-71 | `With` holds exactly the given store, organization, namespace and type. |
| FixedKVStore.FixedKVStore.Get | pkg/services/secrets/kvstore/kvstore.go:81-83 | Forwards the current organization, namespace and type, and returns the inner store's answer. |
| FixedKVStore.FixedKVStore.Set | pkg/services/secrets/kvstore/kvstore.go:85-87 | Forwards the current triple and the value. |
| FixedKVStore.FixedKVStore.Del | pkg/services/secrets/kvstore/kvstore.go:89-91 | Forwards the current triple. |
| FixedKVStore.FixedKVStore.Keys | pkg/services/secrets/kvstore/kvstore.go:93-95 | Forwards the current triple. |
| FixedKVStore.FixedKVStore.Rename | pkg/services/secrets/kvstore/kvstore.go:97-104 | On success the wrapper's namespace becomes the new one. On error the namespace is unchanged and the error is returned. |
| FixedKVStore.SetRenameGetScenario | pkg/services/secrets/kvstore/kvstore.go:64-104 | A value set through a wrapper and renamed is found at the new namespace, and no longer at the old one. |
| DashboardPanels.Unmarshal | pkg/api/dashboardpanels/mysql_parser.go:20-28 | An unencodable target fails to marshal, and a non-object fails to unmarshal. Otherwise each string field overwrites the receiver's, while absent or null fields keep it. |
| DashboardPanels.ParsePanel | pkg/api/dashboardpanels/mysql_parser.go:15-41 | Fills the preallocated result target by target, reusing one receiver. The result is the specification function `ParsePanelResult`. |
| DashboardPanels.ErrorPersists | pkg/api/dashboardpanels/mysql_parser.go:20-28 | The first marshal or unmarshal failure decides the result; later targets do not matter. |
| DashboardPanels.QueriesCarryConstants | pkg/api/dashboardpanels/mysql_parser.go:30-37 | Every mapped query has interval 60000 ms, 400 maximum data points and the given data source id. |
| DashboardPanels.FormatFromTarget | pkg/api/dashboardpanels/mysql_parser.go:9-13 | A target's string `format` becomes that query's format. |
| DashboardPanels.FormatCarriedOver | pkg/api/dashboardpanels/mysql_parser.go:15-25 | A target without a `format`, or with a null one, inherits the previous target's format, or the receiver's for the first. |
| DashboardPanels.ErrorMessageInjective | pkg/api/dashboardpanels/dashboard_panels.go:47-57 | The not-found and not-implemented messages determine their error and data source. |
| DashboardPanels.GetDatasourcePanelQueries | pkg/api/dashboardpanels/dashboard_panels.go:29-41 | Not-found exactly when no panel names the data source. Not-implemented only for a name without a registered parser. Otherwise the first matching panel's targets parsed with the registered parser. |
| DashboardPanels.LaterPanelsIgnored | pkg/api/dashboardpanels/dashboard_panels.go:30-38 | Once a panel matches, panels after it do not change the result. |
| DashboardPanels.OnlyMySQLProducesQueries | pkg/api/dashboardpanels/dashboard_panels.go:25-27 | Only `MySQL` is registered: any other data source name gets an error. |
| AppChrome.InitialState | public/app/core/components/AppChrome/AppChromeService.tsx:19-30 | Chrome hidden, the default `Grafana` section, and the search bar as stored under `SearchBar_Hidden` (default false). |
| AppChrome.Merge | public/app/core/components/AppChrome/AppChromeService.tsx:38-42 | Keys present in the update override the current fields, an explicit undefined included; fields whose key is absent are kept. |
| AppChrome.Later | public/app/core/components/AppChrome/AppChromeService.tsx:38-42 | Of two partial updates the later key wins, and a key is absent only when it is absent from both. |
| AppChrome.NextState | public/app/core/components/AppChrome/AppChromeService.tsx:37-57 | After the route change is handled, the state is the merge. Before it, actions are cleared unless truthy ones are supplied, the section is reset unless a defined one is supplied, and chromeless comes from the route. |
| AppChrome.ResetForRoute | public/app/core/components/AppChrome/AppChromeService.tsx:38-57 | The first update after a route change computes exactly the next state with the route change not yet handled. |
| AppChrome.BoolString | public/app/core/components/AppChrome/AppChromeService.tsx:70 | The stored string reads back as `true` exactly when the value was true. |
| AppChrome.AppChromeService.constructor | public/app/core/components/AppChrome/AppChromeService.tsx:21-30 | Starts in the initial state with no route and nothing published. |
| AppChrome.AppChromeService.RouteMounted | public/app/core/components/AppChrome/AppChromeService.tsx:32-35 | Records the route and marks the route change as not yet handled. |
| AppChrome.AppChromeService.Update | public/app/core/components/AppChrome/AppChromeService.tsx:37-62 | The state becomes the next state and the route change is handled. A state is published exactly when it differs from the current one. |
| AppChrome.AppChromeService.ToggleMegaMenu | public/app/core/components/AppChrome/AppChromeService.tsx:64-66 | Flips the mega-menu flag by way of an update. |
| AppChrome.AppChromeService.ToggleSearchBar | public/app/core/components/AppChrome/AppChromeService.tsx:68-72 | Flips the search-bar flag, persists it under `SearchBar_Hidden`, and leaves the state agreeing with the stored value. |
| AppChrome.RouteThenRepeatedUpdateScenario | public/app/core/components/AppChrome/AppChromeService.tsx:32-62 | After mounting a route, the first update resets the route fields and publishes. Repeating the same update publishes nothing more. |

## Left out

- **Dual writer dependencies.**
  - `Compare`, `getName`, the `Storage`/`LegacyStorage` interfaces and the
    Kubernetes accessors are not part of this model. Each store is the
    abstract `ObjectStore.Store`, so its replies are a stand-in for the
    real storage.
  - The stand-in's create always replies with the object it stored. Create's
    branch for a legacy reply that is not an object is stated in its
    contract but cannot be reached.
  - Outcome events carry the pair that would be compared, not the result of
    comparing it.
  - Durations keep only the failed flag and the method; time, klog and
    context are left out.
- DualWriter.Enrich: the direction follows the code. In Create the source is
  the original object and the target is the legacy result.
- **Concurrency and atomicity.** Concurrency between servers and atomicity
  across the two stores are not modelled. Every method is one sequential
  step.
- RuleDeltas.CalculateChanges: `PatchPartialAlertRule` and `AlertRule.Diff`
  are defined elsewhere, so they are function parameters. The delete list is
  stated as a set of rules, because its order follows Go map iteration.
  `PatchPartialAlertRule` fills the caller's submitted rule in place, for
  every matched rule and even when the diff is empty. The model leaves the
  submitted rules unchanged and puts the patched rule only into the update.
- RuleDeltas.ChangesSound: the update list is pinned down exactly only when
  the stored rules keep the table's unique (org, UID) key
  (`UidsUniqueInOrg`). With a duplicated UID, the group index or a group
  query may pick a different stored rule than the first one of the org.
- RuleDeltas.HandleRule: its own contract says what an appended update is,
  not that one is appended; that direction needs the scan invariant and is
  stated by `RuleDeltas.HandleRuleComplete`.
- RuleDeltas.HandleRuleSound: states soundness only. Completeness of the
  updates, the affected groups and the errors is the partner lemma
  `RuleDeltas.HandleRuleComplete`.
- RuleDeltas.ScannedSound: states soundness only. Completeness is the
  partner lemma `RuleDeltas.ScannedComplete`.
- **Correlations and playlists: database behaviour.**
  - Transactions and database errors are not modelled; the tables are
    in-memory sequences that do not fail.
  - SQL `LIKE` is modelled as substring containment.
  - The ORM's zero-value skipping in update and delete condition beans is
    modelled as plain filters.
- Correlations.CorrelationsService.UpdateCorrelation: an empty label or
  description is written as given. The ORM skips zero-valued columns, and
  with both empty it would update nothing.
- PlaylistStore.PlaylistStore.List: a non-positive limit is modelled as no
  limit.
- **Playlist item rows.** Item row ids are not modelled, and neither is the
  database library's behaviour on an empty bulk insert.
- **sqlx branches.** The second implementation of each playlist operation,
  over the sqlx library, repeats the same logic and is left out.
- **UID generators.** `util.GenerateShortUID` and `uuid.New` are
  parameters.
- **Secrets server I/O.**
  - The AWS Secrets Manager calls, the gRPC server, paging and `main` are
    network I/O.
  - The base64 helpers are thin wrappers over the standard encoding.
- SecretNames.KeyForFormattedSecretName: the Go code panics on fewer than
  three segments. The model returns an error value, and `Panics` states
  when the loop would panic.
- FixedKVStore.SecretsKVStore: the inner store is a stand-in map with
  injectable failures. Its `Keys` returns a set, so order is not modelled.
  The gRPC plugin store and `ProvideService` are not part of this model.
- DashboardPanels.Unmarshal:
  - JSON key matching is case-sensitive here, while Go's decoder also
    accepts case-insensitive matches.
  - A nil target, which panics in Go, is not modelled.
  - Go's decoder continues past a field type error before reporting it;
    here the field type error alone is the failure.
- DashboardPanels.ParsePanelMapped: JSON error messages are reduced to
  marshal or unmarshal failure.
- AppChrome.AppChromeService.Update:
  - `isShallowEqual` is modelled as field equality, so a field explicitly
    set to undefined counts the same as an absent one.
  - Published states are an append-only log in place of the subject's
    subscribers.
  - Falsy React nodes are one `Falsy` value.
- **AppChrome hook.** `useState` is a React hook and is left out.
- **Server lock time.** Integer overflow of nanosecond durations is not
  modelled.

## Findings

| source | as written | input that shows it | evidently intended | confidence | as-written member | corrected member |
|---|---|---|---|---|---|---|
| pkg/plugins/backendplugin/secretsmanagerplugin/amazonserver/amazon_server_main.go:335-346 | Each parsed key is appended to the slice captured on entry, so every append overwrites the previous one. Only the last parseable entry survives beyond the original keys. | Two parseable names, `a///b///1` and `c///d///2`, with no keys before: the result holds only the second key. | Every parseable entry's key is appended, in order. | not executed | SecretNames.MapSecretEntriesToKeys | SecretNames.MapSecretEntriesToKeysAppendingAll |
