# A model of the payments API's stateful cores

The repository is a NestJS payments API. This project models the parts of it that hold an algorithm or a
protocol, and proves what they guarantee over all inputs, all runs and all interleavings of the events they
are exposed to. Tables, Redis and the answers of the payment provider are explicit state or free inputs.

| area | modules |
|---|---|
| rate limiting | `Throttler` |
| permissions: matching, look-up, role edits, client operations, three stacked caches | `PermissionMatching`, `PermissionTables`, `RoleServices`, `ClientPermissions`, `StackedCaches`, `PermissionCaches`, `InterleavedOperations`, `PermissionServices` |
| OpenAPI documents: reachable schemas, filters, cache, parameter merging | `SchemaReferences`, `DocumentFilter`, `DocumentCache`, `ParameterMerge` |
| response sanitizing | `SanitizeTrees`, `SanitizeGraphs`, `Interceptors` |
| transaction ledger: identity under interleaving, status mirror, boletos, hydration | `Rows`, `Transactions`, `LedgerIdentity`, `PaymentStatuses`, `BillPayments`, `LedgerMirror`, `BillReports`, `SyncRaces`, `PaymentFlows`, `BoletoLedger`, `BoletoServices`, `Hydration` |

Code that updates state in place is a class whose methods are proved equal to a specification function; the
theorems are lemmas about runs of those functions.

## Findings

What the code does where one would expect something else. A name in brackets is the lemma that shows it, next to
the exact condition under which the code does meet the expectation.

- **Permission caches.** An answer can be almost two TTLs old, not one: `StalenessIsBounded` gives 2 * TTL - 2
  milliseconds as the largest age and `StalenessBoundIsReached` reaches it.
- **Client operations and reads.** Client operations delete the cache entries before they write the tables, so a
  read between the two halves can leave a stale entry behind even when every `del` succeeds
  (`InterleavedInvalidationIsNotEnough`). An operation on one row does so exactly when a read in its gap asks for
  what it changes (`InterleavedOperationIsCoherentIff`). The operations on a list delete and save once per name:
  each delete forgives the reads before it, and only the last gap decides. They end incoherent exactly when a
  read in it asks for the direct permissions and the last save changes them (`AssignListAmongReads`,
  `RemoveListAmongReads`, `UpdateAmongReads`; with evictions and lost gets and sets `AssignListIsCoherentIff`,
  `RemoveListIsCoherentIff`, `UpdateIsCoherentIff`). `TwoNames` shows both outcomes.
- **Rate limit.** A fixed window of `limit` hits lets up to `2 * limit - 1` hits through in an interval of one
  window length, and `limit` more for every eviction of the counter in it (`SlidingBound`); for every number of
  evictions this many do pass on some trace (`SlidingBoundIsReached`). When the EXPIRE of a counter's first hit is
  lost, no later hit sends one: once the limit is used up, every hit is blocked until Redis evicts the key
  (`LostExpireBlocksForGood`).
- **Portal document cache.** The literal key `full` and an absent key share a cache entry. The cache is
  transparent for every other key; for these two the served document is the one of whoever asked first
  (`FirstAskerDecides`, `CacheIsTransparent`, `OtherKindIsServed`, `FullIsAmbiguous`).
- **Parameter merging.** Location and name are joined with a colon, so no parameter is lost if and only if the
  joined keys tell the pairs apart (`NoPairIsLostIffKeysTellPairsApart`); a colon in a location can lose one
  (`ColonInLocationLosesAPair`). The four locations of the OpenAPI Specification have none.
- **Role edits.** `updateRole` saves name and description before it looks at the permission list, so a rejected
  list leaves them changed (`RejectedEditRenames`); a rejected edit changes nothing exactly when it renames
  nothing (`RejectedEditChangesNothingIff`).
- **updateClientPermissions** removes the client's permissions before it validates the new names: an unknown
  name leaves the client with none (`UpdateReachesTheRequestedSet`).
- **Shared objects in responses.** An object that is met a second time is handed back as it is, unsanitized
  (`SharedObjectIsHandedBack`): an array that holds one record twice keeps its password at the second position
  (`SharedRecordKeepsItsPassword`). On every graph, cyclic ones included, the memory of visited objects changes
  the answer exactly when the same walk without it would open some object twice
  (`VisitedSetMattersIffOpenedTwice`), which never happens on a tree (`TreesOpenNothingTwice`).
- **Pages in responses.** Of a page, a record with an array under `data` and anything under `meta`, only `data` is
  looked into: its other fields, a password included, and all of `meta` are kept (`PageFieldsAreKept`). Elsewhere a
  sensitive field survives only below the depth bound or inside an opaque object (`SensitiveFieldsSurviveOnlyUnseen`).
- **PIX transfers without a ledger row.** When a provider's answer breaks after its code was taken over, the
  transfer is stored with the code and no ledger row is ever made. This is the only way to lack one
  (`RunsAreMirrored`, `RowIsMissingIffAnswerBroke`).
- **Boletos.** Over emission, sync, cancellation, webhooks and edits by hand, a boleto has at most one cash-in row
  exactly when no two syncs reported it paid under different codes (`RecordedOnceIffPaidUnderOneCode`). Without an
  edit of its code that always holds (`RecordedAtMostOnce`); with one it can fail (`EditedCodeRecordsTwice`, and the
  run of `EditedRunRecordsTwice`).
- **Interleaved syncs.** Two syncs of one transfer can save it in one order and update its ledger row in the other.
  When all syncs are done, the row mirrors the transfer exactly when the last to save was the last to update, or
  both reported statuses with one ledger status (`RaceEndsMirroredIff`, `CrossedRaceLeavesTheLedgerBehind`).
- **Bill dates.** The comment above `parseDate` promises a fallback to `DD/MM/YYYY`, but the ISO parser throws
  first: a date it rejects abandons the whole sync step (`ApplyDetail`, `UnreadableDateStopsTheSync`).

## Model

| member | source | states |
|---|---|---|
| Throttler.BudgetOfAnInterval | src/common/redis/throttler-storage.service.ts:22-29 | inside one window length, passing increments number at most the room of the counter found on entry, one further window if it may expire, and one more window per eviction |
| Throttler.SlidingBound | src/common/redis/throttler-storage.service.ts:22-29 | over any chronological trace of increments, expirations and evictions of one key, every half-open interval of one window length lets at most (2 + evictions) * limit - 1 increments through, and none when the limit is zero |
| Throttler.SlidingBoundIsReached | src/common/redis/throttler-storage.service.ts:22-29 | the bound is tight: for every window of at least two units, every positive limit and every number of evictions e, a trace with e evictions passes (2 + e) * limit - 1 increments in one window length |
| Throttler.FirstLimitHitsPass | src/common/redis/throttler-storage.service.ts:22-36 | a hit is counted with its position in the window it falls into, and passes exactly when it is among the first `limit` of that window |
| Throttler.RedisKeysAreSeparate | src/common/redis/throttler-storage.service.ts:18 | two throttlers without a colon in their names share a counter exactly when name and key are equal |
| Throttler.SecondsRoundUp | src/common/redis/throttler-storage.service.ts:19-20 | milliseconds are rounded up to whole seconds |
| Throttler.RemainingIsRounded | src/common/redis/throttler-storage.service.ts:28 | the remaining time of a live counter is off by at most half a second |
| Throttler.RedisThrottlerStorage.TtlCommand | src/common/redis/throttler-storage.service.ts:28 | remaining seconds of a live counter, -1 without a deadline, -2 without a live counter |
| Throttler.RedisThrottlerStorage.Increment | src/common/redis/throttler-storage.service.ts:11-37 | one hit whose three commands interleave with any commands of others and evictions on its key, and any of which may fail: the counter ends as the trace of all of them leaves it, no other counter changes, the call fails exactly when a command it sends fails, and otherwise each field of the record is the promised one, isBlocked being false exactly for a passing increment |
| Throttler.HitTraceIsChronological | src/common/redis/throttler-storage.service.ts:22-28 | the trace of a hit among others is one the sliding bound speaks of |
| Throttler.UndisturbedHit | src/common/redis/throttler-storage.service.ts:22-28 | with nothing in between, the three commands are one atomic hit |
| Throttler.LostExpireBlocksForGood | src/common/redis/throttler-storage.service.ts:22-29 | from a counter without a deadline no hit sends EXPIRE, and the hits that pass are exactly those within the limit, for ever |
| PermissionMatching.JoinUndoesSplit | src/permissions/helpers/permission.helper.ts:12 | splitting a string at colons gives colon-free parts that join back to the string |
| PermissionMatching.SplitUndoesJoin | src/permissions/helpers/permission.helper.ts:12 | splitting the join of colon-free parts gives those parts |
| PermissionMatching.ParsesIffOneColon | src/permissions/helpers/permission.helper.ts:11-21 | a string parses to a module and an action exactly when it is these two with the one colon between them |
| PermissionMatching.MatchesExactlyTheLookedUpNames | src/permissions/helpers/permission.helper.ts:29-62 | a held permission satisfies a requirement exactly when it is one of four literal strings |
| PermissionMatching.FastCheckIsSlowMatcher | src/permissions/helpers/permission.helper.ts:70-100 | the fast check is true exactly when some held permission satisfies the slow matcher; a requirement that does not parse is met only literally |
| PermissionTables.LengthCheckIsExact | src/permissions/helpers/permission-finder.helper.ts:22-46 | over a table with distinct keys, as many rows as wanted keys are found exactly when the keys are distinct and all present, and then the rows carry exactly those keys |
| PermissionTables.AcceptedNames | src/permissions/helpers/permission-finder.helper.ts:22-33 | a non-empty list of names is accepted exactly when its names are pairwise distinct and all exist; the result carries exactly those names |
| PermissionTables.AcceptedIds | src/permissions/helpers/permission-finder.helper.ts:35-46 | the same for ids, when no names are given |
| PermissionTables.EmptyRequestIsAccepted | src/permissions/helpers/permission-finder.helper.ts:22-49 | a request that names nothing is accepted and finds nothing |
| PermissionTables.WherePositions | src/permissions/services/permission.service.ts:330-337 | a query returns each row that satisfies it once, in table order |
| RoleServices.ActiveAfterDiff | src/permissions/services/role.service.ts:121-150 | the role keeps what it had of the wanted permissions, in order, then gets the missing ones; other roles grant what they granted |
| RoleServices.RowsAfterDiff | src/permissions/services/role.service.ts:125-150 | unwanted active rows get a deletion date, every other row is untouched, and added rows are wanted and were missing |
| RoleServices.DiffReachesTheWantedSet | src/permissions/services/role.service.ts:115-150 | afterwards the role grants exactly the wanted permissions, without duplicates if there were none, and no other role changes |
| RoleServices.DiffTwiceIsDiffOnce | src/permissions/services/role.service.ts:125-150 | a second identical update retires nothing and adds nothing |
| RoleServices.RoleGrantsTheRequestedNames | src/permissions/services/role.service.ts:115-150 | for an accepted list of names the role grants a permission exactly when its name was requested |
| RoleServices.AcceptedRequestMovesTheRole | src/permissions/services/role.service.ts:115-150 | an accepted request by names or ids moves the role to exactly what it asks for, row by row |
| RoleServices.AcceptedEditMovesTheRole | src/permissions/services/role.service.ts:184-209 | a saved edit leaves the grants alone unless it brings a list, and moves the role to an accepted one |
| RoleServices.EditTakesWhatItGives | src/permissions/services/role.service.ts:195-202 | name and description are those of the edit where it gives them and otherwise stay; other roles stay |
| RoleServices.EditsKeepRoleNamesDistinct | src/permissions/services/role.service.ts:184-195 | no edit gives two roles one name, and an edit is turned away for its name exactly when another role has it |
| RoleServices.RoleService.RetireRows | src/permissions/services/role.service.ts:129-133 | saving the loaded rows with a deletion date changes exactly those rows of the table |
| RoleServices.RoleService.RetireUnwanted | src/permissions/services/role.service.ts:125-134 | the rows retired are the role's active rows outside the wanted set |
| RoleServices.RoleService.UpdateRolePermissions | src/permissions/services/role.service.ts:95-166 | on success the role grants a permission exactly when the request asks for it, an empty request leaving it none; its kept rows are the same rows, unwanted ones only get a deletion date, other roles' rows and grants stay, and the role is answered with what it now grants; an unknown role or a rejected list changes no row |
| RoleServices.RoleService.UpdateRole | src/permissions/services/role.service.ts:168-212 | every outcome: the error cases in order, and on success the renamed role with what it grants; the tables are those of the specified edit |
| RoleServices.RoleService.GetRoleById | src/permissions/services/role.service.ts:278-293 | the role, answered with a permission id exactly when an active row of it carries the id, or not found |
| RoleServices.RejectedEditChangesNothingIff | src/permissions/services/role.service.ts:184-209 | an edit rejected for its permission list leaves the tables alone exactly when it renames nothing |
| RoleServices.RejectedEditRenames | src/permissions/services/role.service.ts:195-209 | a rejected edit whose new name stays |
| ClientPermissions.AssignedAddsOneName | src/permissions/services/permission.service.ts:443-475 | assigning a known permission adds exactly its name to what the client holds |
| ClientPermissions.RemovedDropsOneName | src/permissions/services/permission.service.ts:477-498 | removing a permission takes away exactly its name, known or not |
| ClientPermissions.HeldIffLinked | src/permissions/services/permission.service.ts:573-580 | a non-empty name is held directly exactly when a row links the client to a permission of that name |
| ClientPermissions.NameOfIs | src/permissions/services/permission.service.ts:578-580 | the name a row leads to is that of the permission with its id |
| ClientPermissions.KnownIffNamed | src/permissions/services/permission.service.ts:448-450 | a name is known exactly when some permission carries it |
| ClientPermissions.OtherClientsKeepTheirNames | src/permissions/services/permission.service.ts:573-580 | a write that only touches one client's links leaves every other client's names, in order |
| ClientPermissions.AssignedAllAddsTheNames | src/permissions/services/permission.service.ts:525-535 | assigning a list of known names, repeated or not, adds exactly those names and never stores a link twice |
| ClientPermissions.UpdateReachesTheRequestedSet | src/permissions/services/permission.service.ts:546-564 | afterwards the client holds exactly the requested names if all are known and none otherwise; other clients keep theirs |
| StackedCaches.DirectIsFresh | src/permissions/services/permission.service.ts:566-584 | a read of the direct permissions is what the tables gave at some instant less than one TTL before |
| StackedCaches.RolesAreFresh | src/permissions/services/permission.service.ts:323-342 | the same for the roles |
| StackedCaches.EffectiveIsFresh | src/permissions/services/permission.service.ts:586-612 | a read of the effective permissions combines direct permissions and roles of instants less than two TTLs before, and less than one when it was not served from the top cache |
| StackedCaches.StepKeepsExplained | src/permissions/services/permission.service.ts:323-342 | any step of any writer, reader, eviction or lost command keeps every cache entry traceable to tables of the run |
| StackedCaches.RunIsExplained | src/permissions/services/permission.service.ts:586-612 | after every run from empty caches, every entry was computed from tables the run went through |
| StackedCaches.ReadKeepsCoherence | src/permissions/services/permission.service.ts:586-612 | a read through three coherent caches leaves them coherent |
| StackedCaches.WriteForOneClient | src/permissions/services/permission.service.ts:427-433 | deleting one client's entries and changing only that client's rows leaves the caches coherent |
| StackedCaches.CoherentReadsAreExact | src/permissions/services/permission.service.ts:586-612 | coherent caches are invisible: a read gives what the tables give |
| StackedCaches.InvalidationIsExact | src/permissions/services/permission.service.ts:427-433 | the client's three entries go unless their delete is lost, and every other entry stays as it was |
| PermissionCaches.CombineElements | src/permissions/services/permission.service.ts:600-609 | the effective names are the direct names and the non-empty names of the roles' active rows |
| PermissionCaches.OneViewPerLink | src/permissions/services/permission.service.ts:330-339 | the cached roles are one per link of the client, in the order of the links, each under its role's id |
| PermissionCaches.RolesGrantWhatTheirRowsSay | src/permissions/services/permission.service.ts:330-339 | the cached roles grant a name exactly when a link of the client leads to a role with an active row that leads to it |
| PermissionCaches.StalenessIsBounded | src/permissions/services/permission.service.ts:374-381 | over every run with unrestricted writers, evictions and lost gets, sets and dels, each component behind an answer is that of the tables less than 2 * TTL - 1 milliseconds before |
| PermissionCaches.StaleAnswerExplained | src/permissions/services/permission.service.ts:374-381 | for every requirement, a check is allowed exactly when at one such instant a row linked the client to a matching permission, or at another an active row of one of its roles did |
| PermissionCaches.OthersSeeNoChange | src/permissions/services/permission.service.ts:388-564 | no client-level operation changes the direct permissions or the roles of another client |
| PermissionCaches.OperationMeans | src/permissions/services/permission.service.ts:388-564 | what each operation leaves: the links of roles, row by row, and the set of names held directly |
| PermissionCaches.OperationKeepsCoherence | src/permissions/services/permission.service.ts:388-564 | a client-level operation run atomically with reliable deletes keeps the caches coherent, and leaves the tables it specifies whether or not it gets as far as invalidating |
| PermissionCaches.ClientRunsAreCoherent | src/permissions/services/permission.service.ts:388-612 | every run of client-level operations, reads, waiting and evictions keeps every cached entry equal to what the tables give |
| PermissionCaches.OldTablesSurvive | src/permissions/services/role.service.ts:121-150 | for any tables and any replacement written at instant 0, a run without invalidation still answers from the old ones 2 * TTL - 2 milliseconds later |
| PermissionCaches.StalenessBoundIsReached | src/permissions/services/role.service.ts:121-150 | a revoked grant is honoured 2 * TTL - 2 milliseconds after its revocation |
| InterleavedOperations.InterleavedInvalidationIsNotEnough | src/permissions/services/permission.service.ts:397-403 | a read between the invalidation and the write leaves incoherent caches and an answer from before the write |
| InterleavedOperations.InterleavedWriteIsCoherentIff | src/permissions/services/permission.service.ts:388-475 | after an invalidation, any steps but writes, with evictions and lost commands, and then a write for one client, the caches are coherent exactly when the write does not change what the steps left cached; what they left is computed from the steps alone |
| InterleavedOperations.WriteAfterReadsIsCoherentIff | src/permissions/services/permission.service.ts:388-475 | with lossless reads in between: coherent exactly when the write changes neither the direct part, if some read asked for it, nor the roles, if some read asked for them |
| InterleavedOperations.InterleavedOperationIsCoherentIff | src/permissions/services/permission.service.ts:388-498 | assigning or removing one role or one permission, its delete and its write set apart by lossless reads, ends coherent exactly when the reads ask for nothing of the client that it changes; an operation that writes nothing and deletes nothing included |
| InterleavedOperations.LastWriteDecides | src/permissions/services/permission.service.ts:427-475 | whatever was cached for the client before a delete, right or wrong, the caches are coherent after the following write exactly when it does not change what the steps in between left cached |
| InterleavedOperations.RoundsAreCoherentIff | src/permissions/services/permission.service.ts:532-534 | of any number of rounds of delete and write, with any steps but writes in all gaps, the last round alone decides |
| InterleavedOperations.AssignListIsCoherentIff | src/permissions/services/permission.service.ts:525-535 | assigning a list, name by name, ends with the specified tables, and coherent exactly when the list is empty, has an unknown name, or its last save changes nothing that the last gap left cached |
| InterleavedOperations.RemoveListIsCoherentIff | src/permissions/services/permission.service.ts:537-544 | the same for removing a list |
| InterleavedOperations.UpdateIsCoherentIff | src/permissions/services/permission.service.ts:546-564 | the same for an update; for an empty list or an unknown name the clearing is the last write |
| InterleavedOperations.AssignListAmongReads | src/permissions/services/permission.service.ts:525-535 | among lossless reads: coherent exactly when no read in the last gap asks for the direct permissions, or the last name is empty, held before or repeated |
| InterleavedOperations.RemoveListAmongReads | src/permissions/services/permission.service.ts:537-544 | among lossless reads: coherent exactly when no read in the last gap asks for the direct permissions, or the last name is not held or was removed before |
| InterleavedOperations.UpdateAmongReads | src/permissions/services/permission.service.ts:546-564 | among lossless reads: the condition of an assignment to a client that holds nothing, or that of the clearing |
| InterleavedOperations.TwoNames | src/permissions/services/permission.service.ts:525-535 | of two names, a read before the first save leaves no trace and a read before the second leaves a stale entry |
| PermissionServices.PermissionService.GetClientRoles | src/permissions/services/permission.service.ts:323-342 | answer and new state are those of the specified read |
| PermissionServices.PermissionService.GetClientDirectPermissions | src/permissions/services/permission.service.ts:566-584 | answer and new state are those of the specified read |
| PermissionServices.PermissionService.GetClientEffectivePermissions | src/permissions/services/permission.service.ts:586-612 | answer and new state are those of the specified three-cache read |
| PermissionServices.CollectNames | src/permissions/services/permission.service.ts:600-609 | the loops collect the direct names and the roles' names, each once, in order |
| PermissionServices.PermissionService.ClientHasPermission | src/permissions/services/permission.service.ts:374-381 | the answer is the hierarchy check on the names read |
| PermissionServices.PermissionService.InvalidateClientCache | src/permissions/services/permission.service.ts:427-433 | exactly the client's three entries go, except where the delete is lost |
| PermissionServices.PermissionService.AssignRoleToClient | src/permissions/services/permission.service.ts:388-404 | the specified operation on tables and caches; an existing link leaves both alone |
| PermissionServices.PermissionService.RemoveRoleFromClient | src/permissions/services/permission.service.ts:411-420 | the specified operation on tables and caches; a missing link leaves both alone |
| PermissionServices.PermissionService.AssignPermissionToClient | src/permissions/services/permission.service.ts:435-475 | the specified operation; fails exactly for an unknown name |
| PermissionServices.PermissionService.RemovePermissionFromClient | src/permissions/services/permission.service.ts:477-498 | the specified operation on tables and caches |
| PermissionServices.PermissionService.ValidatePermissionsExist | src/permissions/services/permission.service.ts:500-523 | the names not found are exactly the unknown ones, in the order asked for; there are none exactly when every name exists |
| PermissionServices.PermissionService.AssignPermissionsToClient | src/permissions/services/permission.service.ts:525-535 | all names are assigned, or none when one is unknown; each invalidation can lose its own deletes, and a delete is lost when all of them lose it |
| PermissionServices.PermissionService.RemovePermissionsFromClient | src/permissions/services/permission.service.ts:537-544 | the names are removed one by one, with the same account of lost deletes |
| PermissionServices.PermissionService.UpdateClientPermissions | src/permissions/services/permission.service.ts:546-564 | the specified update, with the same account of lost deletes; fails exactly when a name is unknown, and has then removed everything |
| PermissionServices.LostByAllIffLostEachTime | src/permissions/services/permission.service.ts:525-544 | a delete tried once per name is lost exactly when each try is lost |
| SchemaReferences.RefTargetRoundTrip | src/swagger/services/swagger-schema-reference.service.ts:19-23 | a reference written for a one-line schema name leads back to that name |
| SchemaReferences.RefTargetIsLeftmost | src/swagger/services/swagger-schema-reference.service.ts:21-22 | a string refers to the rest of the line after its leftmost marker that is followed by one, and to nothing without such a marker |
| SchemaReferences.ReferenceEndsWithItsLine | src/swagger/services/swagger-schema-reference.service.ts:21-22 | a reference ends at the first of the four line breaks |
| Json.FalsyValues | src/swagger/services/swagger-schema-reference.service.ts:42 | the values for which a schema counts as missing |
| SchemaReferences.RefsAreAlongPaths | src/swagger/services/swagger-schema-reference.service.ts:14-26 | a value refers to a name exactly when some path through its fields and items leads to an object whose $ref is a string that refers to it |
| SchemaReferences.ReachIsLeastClosed | src/swagger/services/swagger-document-filter.service.ts:110-120 | the reachable names are closed under the references of present schemas and contained in every set so closed |
| SchemaReferences.ReachInsideRestricted | src/swagger/services/swagger-document-filter.service.ts:106-126 | fewer roots reach the same names in a table already cut down to what more roots reach |
| SchemaReferences.RestrictTwice | src/swagger/services/swagger-document-filter.service.ts:122-126 | cutting a table down twice is cutting it down once to the smaller set |
| SchemaReferences.CollectRefs | src/swagger/services/swagger-schema-reference.service.ts:14-26 | the recursive walk adds exactly the names referred to at any depth |
| SchemaReferences.ExtractSchemaRefs | src/swagger/services/swagger-schema-reference.service.ts:52-70 | exactly the names a value refers to at any depth |
| SchemaReferences.CollectUsedSchemas | src/swagger/services/swagger-schema-reference.service.ts:7-50 | without a table, the names referred to; with one, exactly the present schemas reachable from the paths |
| SchemaReferences.ProcessSchemas | src/swagger/services/swagger-schema-reference.service.ts:35-47 | the set worklist ends, on cycles and dangling references too, with present names closed under present references |
| SchemaReferences.CloseUnderReferences | src/swagger/services/swagger-document-filter.service.ts:108-120 | the stack worklist ends with exactly the reachable names, missing ones included |
| SchemaReferences.DrainStack | src/swagger/services/swagger-document-filter.service.ts:110-120 | the names collected are closed and inside every closed set given as a bound |
| DocumentFilter.FilteringOnlyDropsReferences | src/swagger/services/swagger-document-filter.service.ts:21-43 | the kept paths refer to nothing the document's paths did not refer to |
| DocumentFilter.FiltersCompose | src/swagger/services/swagger-document-filter.service.ts:99-137 | filtering twice is filtering once by both criteria, with reachability computed in the whole table |
| DocumentFilter.FiltersCommute | src/swagger/services/swagger-document-filter.service.ts:12-97 | any two filters commute on paths, schemas and security schemes |
| DocumentFilter.FilterIsIdempotent | src/swagger/services/swagger-document-filter.service.ts:12-97 | filtering a second time by the same criterion changes nothing |
| DocumentFilter.AuthAndTagFilters | src/swagger/services/swagger-document-filter.service.ts:12-97 | the auth-key filter and the tag filter commute and each is idempotent |
| DocumentFilter.ShownUnderKey | src/swagger/services/swagger-document-filter.service.ts:21-40 | under a key a document shows exactly the operations of the five methods whose security has an entry that names the key |
| DocumentFilter.ShownWithoutTags | src/swagger/services/swagger-document-filter.service.ts:68-86 | without some tags it shows exactly the operations that have none of them |
| DocumentFilter.KeptSchemasAreReached | src/swagger/services/swagger-document-filter.service.ts:106-126 | it keeps exactly the schemas it has that its kept paths reach, as they are |
| DocumentFilter.ReferencedSchemaIsKept | src/swagger/services/swagger-document-filter.service.ts:43-48 | an operation shown under a key keeps each present schema that a reference in it names |
| DocumentFilter.OnlyTheKeysSchemeIsKept | src/swagger/services/swagger-document-filter.service.ts:139-148 | under a key only the key's own security scheme is kept |
| DocumentFilter.FilterPathItem | src/swagger/services/swagger-document-filter.service.ts:26-37 | the method loop keeps exactly the operations that meet the criterion |
| DocumentFilter.FilterPaths | src/swagger/services/swagger-document-filter.service.ts:66-86 | the path loop keeps exactly the paths with a kept operation |
| DocumentFilter.FilterComponents | src/swagger/services/swagger-document-filter.service.ts:99-148 | exactly the present schemas reachable from the used names, and only the scheme of a given key |
| DocumentFilter.GetFilteredDocument | src/swagger/services/swagger-document-filter.service.ts:12-51 | the document filtered by authentication key |
| DocumentFilter.GetDocumentWithoutTags | src/swagger/services/swagger-document-filter.service.ts:53-97 | the document without the operations under the tags; the same document when there are no tags |
| DocumentCache.CacheKeyIsInjective | src/swagger/swagger.service.ts:96-98 | two requests share a cache key exactly when they are filed under the same name |
| DocumentCache.PortalShows | src/swagger/swagger.service.ts:103-110 | the portal shows an operation exactly when it is not tagged `portal:hidden` and, for a reader with a key, its security names the key |
| DocumentCache.SwaggerDocumentCacheService.SetBaseDocument | src/swagger/services/swagger-document-cache.service.ts:10-14 | replacing the base document leaves no entry behind |
| DocumentCache.SwaggerService.GetFilteredDocument | src/swagger/swagger.service.ts:85-93 | cached or not, the answer is the filter applied to the current base; an error before there is one |
| DocumentCache.SwaggerService.GetPortalScalarDocument | src/swagger/swagger.service.ts:95-113 | the answer is the uncached composition for the request that filled the cache entry |
| DocumentCache.FirstAskerDecides | src/swagger/swagger.service.ts:95-113 | after any run of replacements and reads, what is served is the composition on the current base for whoever first asked under that name |
| DocumentCache.CacheIsTransparent | src/swagger/swagger.service.ts:95-113 | the cache is transparent for every key except `full`, and for `full` and absent keys when the first asker was of the same kind |
| DocumentCache.OtherKindIsServed | src/swagger/swagger.service.ts:96-98 | in the remaining case the answer is right exactly when the two compositions coincide |
| DocumentCache.FullIsAmbiguous | src/swagger/swagger.service.ts:96-98 | a run in which a reader without a key is served a different document from the uncached one |
| ParameterMerge.CanonicalNameFoldsAlike | src/swagger/services/swagger-document-normalizer.service.ts:167-172 | the canonical spelling differs from a header's name in case only, and is its own canonical spelling |
| ParameterMerge.OrderIsKept | src/swagger/services/swagger-document-normalizer.service.ts:107-140 | items without location and name come first in order, then one record per key in order of first occurrence |
| ParameterMerge.OneRecordPerPair | src/swagger/services/swagger-document-normalizer.service.ts:120-137 | no two records agree in case-folded location and name |
| ParameterMerge.RecordsHaveParametersPairs | src/swagger/services/swagger-document-normalizer.service.ts:120-137 | every record's pair is that of some parameter |
| ParameterMerge.NoPairIsLostIffKeysTellPairsApart | src/swagger/services/swagger-document-normalizer.service.ts:122-137 | every pair of the input has a record exactly when equal keys mean equal pairs |
| ParameterMerge.PlainLocationsAreEnough | src/swagger/services/swagger-document-normalizer.service.ts:122 | without a colon in any location, keys tell pairs apart |
| ParameterMerge.ColonInLocationLosesAPair | src/swagger/services/swagger-document-normalizer.service.ts:122 | two different parameters with one key |
| ParameterMerge.AttributesAreCollected | src/swagger/services/swagger-document-normalizer.service.ts:143-165 | a record defines exactly the attributes some parameter of its key defines, each with a value one of them gave; its name is one of theirs up to letter case |
| ParameterMerge.LargerParameterDecides | src/swagger/services/swagger-document-normalizer.service.ts:148-158 | where two parameters define an attribute, the one with more fields decides, or the earlier if they tie |
| ParameterMerge.CanonicalSpellings | src/swagger/services/swagger-document-normalizer.service.ts:167-172 | the two header names with a spelling of their own get it, and no other name changes |
| ParameterMerge.HeadersAreSpelledCanonically | src/swagger/services/swagger-document-normalizer.service.ts:127-129 | in a merged list a header of these two is always spelled so |
| ParameterMerge.NormalizingIsIdempotent | src/swagger/services/swagger-document-normalizer.service.ts:98-141 | merging the merged list changes nothing |
| ParameterMerge.FillUndefined | src/swagger/services/swagger-document-normalizer.service.ts:154-158 | the loop takes from the fallback exactly what the base leaves undefined |
| ParameterMerge.MergeSwaggerParameter | src/swagger/services/swagger-document-normalizer.service.ts:143-165 | the specified merge, with the larger record as base |
| ParameterMerge.Operation.NormalizeOperationHeaderParameters | src/swagger/services/swagger-document-normalizer.service.ts:98-141 | only a non-empty parameter list is replaced, by the merged one; no other field changes |
| SanitizeTrees.WalksFuse | src/common/interceptors/response-sanitization.interceptor.ts:56-139 | two walks one after the other are one walk dropping what either drops, at any depth, cut-off and page case included |
| SanitizeTrees.FusedPassIsBothPasses | src/common/interceptors/response-sanitization.interceptor.ts:56-139 | the fused pass is the sensitive-field pass then the timestamp pass, in either order, and sanitizing twice is sanitizing once |
| SanitizeTrees.EntryOrigin | src/common/interceptors/response-sanitization.interceptor.ts:112-136 | the entries of a result are exactly what the walk makes of the entries it does not drop |
| SanitizeTrees.UncutPathsSurvive | src/common/interceptors/response-sanitization.interceptor.ts:80-138 | a path leads to the same thing in the result exactly when no record within the depth bound drops a field on it |
| SanitizeTrees.SensitiveFieldsSurviveOnlyUnseen | src/common/interceptors/response-sanitization.interceptor.ts:62-138 | a sanitized response has no sensitive field in any record the walk looks into; the sensitive-field pass leaves a value alone exactly when it has none |
| SanitizeTrees.PageFieldsAreKept | src/common/interceptors/response-sanitization.interceptor.ts:112-118 | every field of a page but data is in the answer as it was |
| SanitizeTrees.TimestampsSurviveOnlyAtRoots | src/common/interceptors/remove-nested-timestamps.interceptor.ts:141-157 | after the timestamp pass, alone or fused, no record below a root that the walk looks into has a field createdAt, updatedAt or deletedAt; the pass leaves a value alone exactly when it has none |
| SanitizeTrees.RootsKeepTheirFields | src/common/interceptors/remove-nested-timestamps.interceptor.ts:91-147 | the response itself keeps all its fields under the timestamp pass, and so does each item of a page's data |
| SanitizeGraphs.OpensEachObjectOnce | src/common/interceptors/response-sanitization.interceptor.ts:76-109 | on every graph, one container is made from each object newly marked and none from any other |
| SanitizeGraphs.NestingIsBounded | src/common/interceptors/response-sanitization.interceptor.ts:62-64 | on every graph, containers made by the walk nest at most maxDepth + 1 deep |
| SanitizeGraphs.TreesAreWalkedStructurally | src/common/interceptors/response-sanitization.interceptor.ts:56-139 | on tree-shaped graphs the walk with a visited set is the structural recursion |
| SanitizeGraphs.ResponsesAreSanitizedStructurally | src/common/interceptors/response-sanitization.interceptor.ts:45-53 | for a tree-shaped response the fused interceptor's answer stands for what the two older passes leave |
| SanitizeGraphs.SharedObjectIsHandedBack | src/common/interceptors/response-sanitization.interceptor.ts:76-78 | an object met again is returned as it is, at any depth |
| SanitizeGraphs.VisitedSetMattersIffOpenedTwice | src/common/interceptors/response-sanitization.interceptor.ts:56-139 | on every graph and slot, the answer is that of the walk without a visited set exactly when that walk opens no object twice |
| SanitizeGraphs.TreesOpenNothingTwice | src/common/interceptors/response-sanitization.interceptor.ts:56-139 | on a tree-shaped graph the walk without a visited set opens no object twice |
| SanitizeGraphs.SharedRecordKeepsItsPassword | src/common/interceptors/response-sanitization.interceptor.ts:76-78 | the answer for an array that holds one record with a password twice |
| Interceptors.ResponseSanitizationInterceptor.Sanitize | src/common/interceptors/response-sanitization.interceptor.ts:56-139 | result and visited set are those of the specified walk under the fused rule |
| Interceptors.ResponseSanitizationInterceptor.Intercept | src/common/interceptors/response-sanitization.interceptor.ts:36-54 | skipped routes and streams are answered untouched; every other response is walked from an empty visited set |
| Interceptors.ShouldSkipResponseTransform | src/common/interceptors/helpers/response-transform-skip.helper.ts:7-35 | documentation, downloads, exports and the report request are skipped |
| Interceptors.SkippedRoutes | src/common/interceptors/helpers/response-transform-skip.helper.ts:17-34 | the skipped routes one by one, and routes that are not |
| Interceptors.RemoveSensitiveFieldsInterceptor.Intercept | src/common/interceptors/remove-sensitive-fields.interceptor.ts:35-64 | the same routes and streams are skipped as by the fused interceptor |
| Interceptors.RemoveNestedTimestampsInterceptor.Intercept | src/common/interceptors/remove-nested-timestamps.interceptor.ts:23-52 | the same routes and streams are skipped as by the fused interceptor |
| Interceptors.RemoveSensitiveFieldsInterceptor.Sanitize | src/common/interceptors/remove-sensitive-fields.interceptor.ts:73-155 | result and visited set are those of the specified walk under the sensitive-field rule |
| Interceptors.RemoveNestedTimestampsInterceptor.RemoveNestedTimestamps | src/common/interceptors/remove-nested-timestamps.interceptor.ts:63-163 | result and visited set are those of the specified walk under the timestamp rule |
| Transactions.OverwritingKeepsIdentities | src/transaction/transaction.service.ts:78-79 | saving a loaded row keeps every row's id and identity, and the unique constraints |
| Transactions.FindInOverwritten | src/transaction/transaction.service.ts:78-79 | after saving a loaded row, its code finds it and every other code finds what it found |
| Transactions.AppliedFieldByField | src/transaction/transaction.service.ts:101-109 | an update takes its status and whatever else it brings, field by field, and leaves the rest |
| Transactions.StoredCurrency | src/transaction/transaction.service.ts:48-51 | a row is stored with the identity asked for, in reais when no currency is |
| LedgerIdentity.StepKeepsConsistent | src/transaction/transaction.service.ts:34-118 | one step of one of many interleaved calls keeps the table unique and every call's row in it |
| LedgerIdentity.RunsAreConsistent | src/transaction/transaction.service.ts:34-118 | the same over all interleavings of any number of calls |
| LedgerIdentity.IdentityIsForever | src/transaction/transaction.service.ts:62-118 | no later step changes a row's code, type, amount, currency, client, account or links |
| LedgerIdentity.EveryCreatorGetsTheOneRow | src/transaction/transaction.service.ts:34-60 | at most one row per code; a create call returns that row or fails on the unique index, and two that return were given the same row |
| LedgerIdentity.UninterruptedCall | src/transaction/transaction.service.ts:34-118 | a call whose steps are not interrupted does what the atomic call does |
| LedgerIdentity.CallKeepsIdentities | src/transaction/transaction.service.ts:34-118 | an atomic call keeps all identities and adds at most the row a create call asks for |
| LedgerIdentity.CallOnDetails | src/transaction/transaction.service.ts:34-118 | what the row of a code has after each kind of call, detail by detail |
| LedgerIdentity.TransactionService.CreateFromWebhook | src/transaction/transaction.service.ts:34-60 | the existing row of the code, or a new last row with the currency defaulted; the caller gets the row its code finds |
| LedgerIdentity.TransactionService.UpdateStatus | src/transaction/transaction.service.ts:62-84 | only the status of the row of this code changes; nothing when there is none |
| LedgerIdentity.TransactionService.UpdateFromWebhook | src/transaction/transaction.service.ts:86-118 | status and the defined optional details of the row of this code change, and nothing else |
| Strings.LowerFolds | src/swagger/services/swagger-document-normalizer.service.ts:120-121 | lower-casing maps the letters A to Z to a to z and nothing else |
| Strings.UpperFolds | src/pix/helpers/pix-sync.helper.ts:48 | upper-casing maps the letters a to z to A to Z and nothing else |
| Strings.FoldsCharacterwise | src/pix/helpers/pix-sync.helper.ts:48 | folding works on each character by itself |
| Strings.DigitAlone | src/bill-payment/helpers/document-sanitizer.helper.ts:20 | of single characters exactly the ten digits are kept |
| Strings.DigitsOfConcat | src/bill-payment/helpers/document-sanitizer.helper.ts:20 | the digits of a string are those of its parts, in order |
| BillPayments.ApplyDetail | src/bill-payment/helpers/bill-payment-sync.helper.ts:79-192 | the fields end up as reported, and the flag is raised exactly for a change other than an empty new recipient; an unreadable date stops the step |
| BillPayments.ReportedTwice | src/bill-payment/helpers/bill-payment-sync.helper.ts:68-192 | applying a report a second time changes nothing and raises no flag |
| BillPayments.ReportedAmountsAndTexts | src/bill-payment/helpers/bill-payment-sync.helper.ts:79-118 | each reported amount and text replaces the payment's own, and a missing one leaves it |
| BillPayments.ReportedRecipientIs | src/bill-payment/helpers/bill-payment-sync.helper.ts:120-138 | a reported name or document makes a recipient if there is none, and a document is kept by its digits |
| BillPayments.ReportedDatesOneByOne | src/bill-payment/helpers/bill-payment-sync.helper.ts:146-192 | each reported date replaces the payment's own |
| LedgerMirror.CallOnLedger | src/transaction/transaction.service.ts:34-84 | what a ledger call leaves to be found under any code |
| LedgerMirror.CreationKeepsMirror | src/pix/pix.service.ts:280-358 | creating a PIX transfer, a TED transfer or a bill payment with fresh ids and codes keeps the mirror, and the payment it stores lacks a row exactly when it is a PIX transfer whose answer broke |
| LedgerMirror.SyncKeepsMirror | src/bill-payment/helpers/bill-payment-sync.helper.ts:194-229 | a sync step keeps the mirror, the tangled branch after the bill-payment save included |
| LedgerMirror.RunsAreMirrored | src/pix/pix.service.ts:302-358 | in every run the code of each stored payment leads to its own ledger row (its kind, link, owner and mapped status, and for PIX and TED its amount) unless it is a PIX transfer whose answer broke, and then to none |
| LedgerMirror.RowIsMissingIffAnswerBroke | src/pix/pix.service.ts:304-358 | over all runs, a stored payment with a code has no ledger row exactly when it was created by an answer that broke after its code was taken over |
| LedgerMirror.BrokenAnswerRun | src/pix/pix.service.ts:304-358 | a run whose transfer has a code and no row |
| LedgerMirror.SyncedRowIsTold | src/bill-payment/helpers/bill-payment-sync.helper.ts:254-264 | a row that a bill sync makes has the payment's identity, amount and status, and is told the payment date |
| LedgerMirror.PaymentsAreAsRequested | src/ted/ted.service.ts:166-203 | in every run each stored payment has the owner, the amount and the account some step asked for, and the code the provider answered |
| LedgerMirror.NewRowsAreToldTheRequest | src/pix/pix.service.ts:612-623 | what each kind of creation tells its ledger row beside identity and status |
| LedgerMirror.PixFollowsTheLastReport | src/pix/helpers/pix-sync.helper.ts:48-80 | a PIX transfer's status is the last recognised thing the provider said of it |
| LedgerMirror.TedFollowsTheLastReport | src/ted/helpers/ted-sync.helper.ts:44-72 | a TED transfer's status is the last recognised thing the provider said of it |
| BillReports.BillFollowsTheLastReport | src/bill-payment/helpers/bill-payment-sync.helper.ts:71-77 | over all runs a stored bill payment has the status the last readable report named, "Completed", "Confirmed" or "Cancelled", and otherwise is created |
| BillReports.CompletedBillsAreDone | src/bill-payment/helpers/bill-payment-sync.helper.ts:194-226 | a bill last reported as completed has a ledger row that is done |
| BillReports.CompletedRun | src/bill-payment/helpers/bill-payment-sync.helper.ts:41-239 | a run that confirms a bill, reports it completed and ends with a done row |
| BillReports.AmountsAndDatesFollowTheLastReport | src/bill-payment/helpers/bill-payment-sync.helper.ts:79-192 | over all runs each amount, charge and date is what the last readable report that names it says, or the confirmation |
| PaymentStatuses.PixLedgerTable | src/common/helpers/status-mapper.helper.ts:47-61 | which status a PIX transfer has on the ledger |
| PaymentStatuses.TedLedgerTable | src/common/helpers/status-mapper.helper.ts:66-84 | which status a TED transfer has on the ledger |
| PaymentStatuses.BillLedgerTable | src/common/helpers/status-mapper.helper.ts:31-42 | which status a bill payment has on the ledger |
| PaymentStatuses.PixReportTable | src/pix/helpers/pix-sync.helper.ts:48-66 | which reports, in any case, mean which PIX status |
| PaymentStatuses.TedReportTable | src/ted/helpers/ted-sync.helper.ts:44-58 | which reports, in any case, mean which TED status |
| PaymentStatuses.PixAnswerTable | src/pix/helpers/pix-transfer.helper.ts:96-113 | which answers to a transfer request mean which status |
| LedgerMirror.UnreadableDateStopsTheSync | src/common/helpers/date.helpers.ts:146-154 | a bill report with a date that cannot be read changes nothing, whatever else it says |
| SyncRaces.RacesKeep | src/pix/helpers/pix-sync.helper.ts:68-80 | in every interleaving of syncs of one transfer, it has the status the last saver reported and its ledger row the one the last updater reported |
| SyncRaces.LonePixSyncIsTheStep | src/pix/helpers/pix-sync.helper.ts:27-88 | a PIX sync that nothing interrupts is the atomic step |
| SyncRaces.LoneTedSyncIsTheStep | src/ted/helpers/ted-sync.helper.ts:27-80 | a TED sync that nothing interrupts is the atomic step |
| SyncRaces.RaceEndsMirroredIff | src/pix/helpers/pix-sync.helper.ts:68-80 | when all have finished, the transfer is mirrored exactly when the last to save was the last to update, or their ledger statuses agree |
| SyncRaces.CrossedRaceLeavesTheLedgerBehind | src/ted/helpers/ted-sync.helper.ts:60-72 | two syncs that save in one order and update in the other, with different ledger statuses, leave the row unlike the transfer |
| PaymentFlows.Flows.TransferPix | src/pix/pix.service.ts:280-358 | rows and ledger after the two saves are those of the specified step, for a refused, a broken and an accepted answer |
| PaymentFlows.Flows.CreateTransactionForTransfer | src/pix/pix.service.ts:600-641 | a ledger row is created only when the code finds none |
| PaymentFlows.Flows.SyncPixTransfer | src/pix/helpers/pix-sync.helper.ts:27-88 | rows and ledger are those of the specified step |
| PaymentFlows.Flows.CreateTedTransfer | src/ted/ted.service.ts:166-235 | rows and ledger are those of the specified step |
| PaymentFlows.Flows.SyncTedTransfer | src/ted/helpers/ted-sync.helper.ts:27-80 | rows and ledger are those of the specified step |
| PaymentFlows.Flows.ConfirmBillPayment | src/bill-payment/bill-payment.service.ts:101-143 | rows and ledger are those of the specified step; a refused confirmation stores nothing, and neither does one whose settle date cannot be read |
| PaymentFlows.Flows.SyncTransactionForPayment | src/bill-payment/helpers/bill-payment-sync.helper.ts:244-288 | the payment's ledger row is created, or moved to the payment's status |
| PaymentFlows.Flows.SyncBillPayment | src/bill-payment/helpers/bill-payment-sync.helper.ts:41-239 | the ledger is synced exactly when something changed and the report names a status or the payment is past its created status |
| BoletoLedger.CodesChangeOnlyByEdits | src/boleto/boleto.service.ts:158-185 | over all runs a boleto's code is the one it was emitted with or last edited to, whatever is synced, cancelled or received; its id, amount and owner never change |
| BoletoLedger.RunsAreOk | src/boleto/helpers/boleto-sync.helper.ts:67-157 | in every run with fresh codes, edited ones included, each cash-in row carries the amount, client and account of its boleto, and a boleto's code finds no row but its own |
| BoletoLedger.RecordedUnderIffPaidUnder | src/boleto/helpers/boleto-sync.helper.ts:110-157 | a boleto's cash-in is in the ledger under a code exactly when some sync reported it paid while it carried that code |
| BoletoLedger.RecordedOnceIffPaidUnderOneCode | src/boleto/helpers/boleto-sync.helper.ts:136-157 | over all runs, edits included, a boleto has at most one cash-in row exactly when no two syncs reported it paid under different codes |
| BoletoLedger.RecordedAtMostOnce | src/boleto/helpers/boleto-sync.helper.ts:136-157 | a boleto whose code no edit changes has at most one cash-in row, however often it is reported paid |
| BoletoLedger.RecordedIffReportedPaid | src/boleto/helpers/boleto-sync.helper.ts:110-157 | a boleto's cash-in is in the ledger exactly when some sync of it reported it paid |
| BoletoLedger.CancelSparesSettledBoletos | src/boleto/boleto.service.ts:251-268 | cancelling changes at most the named boleto's status, and never one stored as paid or cancelled |
| BoletoLedger.CancelledIsCancelled | src/boleto/boleto.service.ts:260-268 | a cancellation that passes every check and is accepted leaves the boleto cancelled and nothing else changed |
| BoletoLedger.BoletoStatusTable | src/boleto/helpers/boleto-validation.helper.ts:199-214 | which words mean which status; the rest mean processing |
| BoletoLedger.WebhookTellsItsAddressee | src/boleto/boleto.service.ts:301-338 | a webhook goes to the first boleto with its code, or else its barcode, or else its digitable line, and gives it what it carries, field by field |
| BoletoLedger.SyncTellsItsBoleto | src/boleto/helpers/boleto-sync.helper.ts:67-97 | a sync gives the boleto it asked about what the provider answered, field by field |
| BoletoLedger.AmendTellsItsBoleto | src/boleto/boleto.service.ts:158-185 | an edit by the owner gives the boleto what it brings, field by field, and anyone else's changes nothing |
| BoletoLedger.UnsyncedStays | src/boleto/helpers/boleto-sync.helper.ts:45-50 | boletos of other providers, without a code, or without an answer stay as they are |
| BoletoLedger.EmissionIsStored | src/boleto/boleto.service.ts:55-96 | the boleto stored is what was asked for and answered |
| BoletoLedger.CashInIsDone | src/boleto/helpers/boleto-sync.helper.ts:143-151 | the cash-in row of a paid boleto is done, with its amount |
| BoletoLedger.EditedCodeRecordsTwice | src/boleto/boleto.service.ts:158-185 | a code edited by hand makes the next paid sync record the boleto again |
| BoletoLedger.EditedRunRecordsTwice | src/boleto/boleto.service.ts:158-185 | emitted, reported paid, edited and reported paid again: a run with fresh codes that records one boleto twice |
| BoletoServices.BoletoService.CreateBoleto | src/boleto/boleto.service.ts:43-123 | the row stored is made of the request, the session and the provider's answer, and only an accepted request stores one |
| BoletoServices.BoletoService.FindById | src/boleto/boleto.service.ts:125-156 | the boleto with the id, not found, or denied to others than its owner |
| BoletoServices.BoletoService.UpdateBoleto | src/boleto/boleto.service.ts:158-185 | the owner's boleto takes the given texts and status, and nothing else changes |
| BoletoServices.BoletoService.SyncBoletoWithProvider | src/boleto/helpers/boleto-sync.helper.ts:40-131 | boletos, their payment lists included, and ledger are those of the specified step |
| BoletoServices.BoletoService.CreateTransactionForBoleto | src/boleto/helpers/boleto-sync.helper.ts:136-165 | a cash-in row is created only when the boleto's code finds none |
| BoletoServices.BoletoService.CancelBoleto | src/boleto/boleto.service.ts:226-290 | which of the checks fails, in order, or success; only success changes anything, and it leaves the named boleto cancelled |
| BoletoServices.BoletoService.ProcessWebhookUpdate | src/boleto/boleto.service.ts:292-350 | the addressed boleto takes what the payload carries; no addressee, no change |
| Hydration.ExtractIds | src/transaction/helpers/transaction-hydration.helper.ts:11-21 | exactly the non-empty foreign keys of the batch, each once |
| Hydration.CreateEntityMap | src/transaction/helpers/transaction-hydration.helper.ts:28-32 | exactly the ids of the entities, each mapped to an entity with that id |
| Hydration.LoadTable | src/transaction/helpers/transaction-hydration.helper.ts:72-77 | the loaded map answers every key of the batch as the table does, with one query if some row needs it and none otherwise |
| Hydration.HydrateTransactionRelations | src/transaction/helpers/transaction-hydration.helper.ts:43-166 | all nine relations of every row end as its own look-ups would set them, nothing else changes, and each table is queried once or not at all |

## Left out

- Controllers, modules, decorators, seeds, migrations, logging, vault, JWT, bcrypt and AES: wiring and I/O.
- The webhook-processor services and the base-query service are not part of this model.
- User-level permission methods: stubs that return nothing. The remaining permission and role methods (creating, listing, deleting) add single-row table writes; to the caches they are writers like any other, covered by the unrestricted table write.
- Time is a natural number of milliseconds. A Redis key is live while the instant is before its deadline; the rounding of Redis `TTL` is to the nearest second.
- The two part reads behind an effective read run one after the other; they touch different keys, so their order does not matter. A read through the caches is atomic; what separates it from the halves of an operation is modelled. Cached roles keep only their id and the names their active rows lead to; the shape checks on cached JSON accept what the service itself stored.
- Role and permission rows a link points to are assumed present, as foreign keys demand; soft-deleted rows are taken to be filtered by the queries that load them.
- RoleServices.RoleService.UpdateRolePermissions: a failure between the two saves is not modelled.
- Objects are looked at through their own keys only: names that live on JavaScript's object prototype (a `$ref` to `toString`, a report `constructor`) behave here like any other unknown name. The order of keys in a JSON object is not modelled.
- Case mapping is that of ASCII letters.
- DocumentFilter.Filter: the two nearly identical loops of the source are one method with the criterion as a parameter. Sharing between the filtered document and the original is not modelled.
- DocumentCache.SwaggerDocumentCacheService.SetFilteredDocument: its precondition says the document is the filter's answer, which is how the service calls it; a caller mutating a cached document is not modelled.
- ParameterMerge: only the merging of parameters; the rest of the normalizer, which removes repeated `security` entries before it normalizes them, is not modelled.
- SanitizeGraphs: getters that throw, `__proto__` keys and non-enumerable or inherited `data` and `meta` are left out. Keys of a Map are opaque.
- LedgerIdentity: soft-deleted ledger rows and the ORM's treatment of an undefined code in a look-up are left out; a save fails only on the unique index.
- LedgerMirror.RunsAreMirrored: steps are atomic and no repository or ledger write fails; for syncs of one PIX or TED transfer that interleave, `SyncRaces` says when the mirror holds. Interleaved syncs of bill payments are not modelled. A payment saved whose ledger update fails is not repaired by the next sync, which sees no difference. The ledger amount of a bill payment is not mirrored: a sync changes the payment's amount only. A status is not monotone: the last report counts.
- The rows of the three kinds of payment live in one map keyed by id. Amounts are integers, dates opaque instants or unreadable; decimals that a database driver returns as text are not modelled. A stored bill payment is taken to have the default currency. Fields of a payment that no ledger row and no sync looks at are left out.
- BillPayments.ApplyDetail: a report's date is missing, unreadable or an instant, because the ISO parser throws on what it cannot read and the fallback after it is never reached.
- BoletoLedger.RunsAreOk: assumes that codes, emitted or edited, are carried by no other boleto and no ledger row of another, and that the rest of the system creates no ledger row under a boleto's code or of the cash-in kind.
- BoletoServices.BoletoService.CreateBoleto: fields of the request that no modelled operation looks at are left out, and dates that fail validation count as a refusal.
- Hydration.HydrateTransactionRelations: the nine queries are issued one after the other instead of at once, and the relations that are joined to the loaded entities are part of an opaque payload. Each table has unique ids.
