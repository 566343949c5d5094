# Balances: backup, restore and the protocols around them

A Dafny model of the parts of the Balances backend where several functions have to agree with one
another, and proofs that they do, or of exactly when they do.

- **Close snapshots** (`Displacement`, `LiveAmounts`, `LifecycleUndo`, `Reactivation`, `Relocation`,
  `Scenarios`, `SnapshotStore`). Terminating a position archives the month's snapshot and puts a zero row in its place that names it; undoing
  takes the zero row back. The statements are methods on a store that refine a transition function,
  and the invariants are proved over every run of transactions.
- **Backup files** (`Backup`, `LinkInference`, `MigratedRuns`, `Migration`). The counts and graph checks, the version
  chain, and the algorithm that rebuilds missing close-to-displaced links from timestamps.
- **Restore** (`Restore`, `Load`, `Commit`). The database is a map from table and id to rows;
  every statement is checked for foreign keys, unique indexes and NOT NULL at its end. The literal
  27-statement wipe and 24-statement load run as one all-or-nothing transaction.
- **Round trips** (`Export`, `RoundTrip`, `Compaction`, `CompactedRestore`, `MigratedRestore`). Export
  followed by restore, in full, compacted and through a version-4 file, and what the household shows
  afterwards.
- **Smaller protocols**: the demo household's cash ledger (`DemoLedger`), the login backoff
  (`LoginLimiter`), invitations (`Invitations`), password reset (`PasswordReset`) and the report
  cache (`Freshness`, `ReportCache`).

`Rows` holds the schema all of these share: the tables, which foreign key points where
(`backend/internal/migrations/00001_baseline.sql:953-1456` and the later migrations), and one row shape.

## Where the code does less than its documentation says

Each of these is proved as an exact condition.

- A compacted backup is said to close its `supersedes` links (`docs/qa/invariants/20-backup.md:39`,
  `backend/internal/db/backup.sql.go:71-77`). It does if and only if no live row displaced a row that had displaced
  one before. Correcting a close row to a non-zero amount and terminating again makes such a chain;
  the file then fails its foreign keys at load (`Compaction.ClosedIffUnchained`, `Scenarios.ChainIsReachable`).
- A compacted backup drops a soft-deleted investment that a live one was rolled over from, and deleting
  it does not clear the reference: the file then fails its own graph check
  (`CompactedRestore.DeletedSourceFails`). The same goes at load for soft-deleted users in audit
  columns (`CompactedRestore.CompactedCommits`), although no statement modelled here soft-deletes one.
- Reactivating is said to bring back the recorded value (`docs/qa/invariants/03-lifecycle.md:17`). It
  does if and only if the termination month's live row is a zero row naming that value
  (`Reactivation.ReactivationRestores`). Over whole runs the value's fate follows from the requests in
  between (`Reactivation.ReactivationAfterRun`); deleting the close row, recording another amount over
  it, or re-dating the termination loses it (`Reactivation.OneRequestLoses`), and so does having
  recorded a zero in the first place (`Scenarios` reaches each case).
- Editing a maturity's date is said to relocate its close snapshot
  (`docs/qa/invariants/03-lifecycle.md:18`). It does, leaving every other month as it was, if and only
  if no other month the date ever fell in held a recorded zero: such a zero is taken for the close
  row and goes with it (`Relocation.BookedThenEdited`, `Scenarios.EditedPastZero`).
- A read is said to reflect every earlier input mutation and to serve exactly the engine's months
  (`docs/qa/invariants/13-staleness.md:24-25`). `ReportCache.ServedAfterWriteIff` says exactly when it
  does. Two kinds of write are not reflected. The watermark compares full dates with the first day of
  the last month and does not look at members, so creating, editing or deleting income or a trade
  dated later in that month is missed, and so are moving one past that date and a member joining
  (`Freshness.MissedIff`, `Freshness.SomeAreMissed`). And deleting the last live snapshot, although
  the watermark sees it, leaves nothing to report on: the refresh then returns before it checks or
  prunes, and the old reports are served (`ReportCache.RefreshServesIff`,
  `ReportCache.LastSnapshotDeleted`).
- The comment at `backend/internal/auth/ratelimit.go:76-78` gives the wait after failure n as base * 2^(n-1); the
  code waits 0 after the first failure and base * 2^(n-2) after the n-th, capped.
- Eviction is said to drop nothing of value (`backend/internal/auth/ratelimit.go:105-108`): no answer changes, but
  the curve restarts at the next failure (`LoginLimiter.EvictionShows`, `LoginLimiter.SweepRestartsCurve`).

## Model

| member | source | states |
|---|---|---|
| `Displacement.StepKeeps` | backend/internal/repo/lifecycle.go:362-436 | every transaction (create, import, edit, delete, position delete, terminate, reactivate, maturity move) keeps: one live row per position and month; each link names an archived row of the same position and month, in force or retired; no accidental timestamp match |
| `Displacement.RunKeeps` | backend/internal/repo/lifecycle.go:79-131 | the same over every run of transactions at strictly increasing times |
| `Displacement.DisplaceKeeps` | backend/internal/repo/lifecycle.go:380-404 | archiving the live row and inserting the close row that names it keeps the invariant |
| `Displacement.CloseRevertedKeeps` | backend/internal/repo/lifecycle.go:417-436 | undoing a termination never finds its displaced row missing and never breaks the one-live-row index |
| `LiveAmounts.StepShows` | backend/internal/repo/lifecycle.go:362-436 | refinement: each request changes the visible amount of exactly the slot it is about (a close writes 0 into its month, an undo brings back exactly what that zero displaced) and no other; the same for the whole entry, where a close shows its note |
| `LiveAmounts.DeletedForGood` | backend/internal/db/assets.sql.go:164-168 | a deleted position is never live again and shows nothing in any month, whatever requests follow |
| `LifecycleUndo.UndoIffNoZero` | backend/internal/repo/lifecycle.go:380-436 | terminate, any requests that keep away from that month, reactivate: every live row is as those requests alone would have left it if and only if the month did not already hold a live zero row |
| `LifecycleUndo.CloseCommutes` | backend/internal/repo/lifecycle.go:362-404 | closing a month commutes with any run of requests that keep away from it: the whole group ends in the same state either way |
| `LifecycleUndo.WhatIsApart` | backend/internal/repo/lifecycle.go:362-404 | requests about other positions, and about other months of this one, keep away from a month |
| `LifecycleUndo.RedatedUndo` | backend/internal/repo/lifecycle.go:362-370 | re-dating a termination to another month and reactivating, with any requests that keep away from the two months in between, leaves the amounts those requests alone would have if and only if the first month held a live zero and the second did not: the first close row is otherwise stranded |
| `Reactivation.ReactivationRestores` | backend/internal/repo/lifecycle.go:417-436 | in every reachable state reactivating brings a displaced snapshot back if and only if the live row of the termination month is a zero row that names it |
| `Reactivation.ShownIff` | backend/internal/repo/lifecycle.go:362-436 | after any run of requests a once live snapshot is the live row of its month, with the amount told, exactly when its fate, computed from the requests alone, says so; a lost one never comes back |
| `Reactivation.ReactivationAfterRun` | backend/internal/repo/lifecycle.go:362-436 | terminate over a recorded snapshot, any requests at all, reactivate: the snapshot is back if and only if the fate of the requests in between says so |
| `Reactivation.OneRequestLoses` | backend/internal/repo/lifecycle.go:380-436 | one request between terminating and reactivating loses the recorded snapshot exactly when it is one of these: another amount over the close row, deleting that row or the position, or moving the termination to another month without an undo |
| `Reactivation.LeftAlone` | backend/internal/repo/lifecycle.go:380-436 | after any number of requests that leave the close row and the termination alone, reactivating makes the recorded snapshot live again with its amount |
| `Scenarios.DeletedCloseRowLosesValue` | backend/internal/repo/lifecycle.go:417-425 | four ordinary requests: record 10, terminate, delete the close row, reactivate, and the month is empty |
| `Scenarios.RecordedZeroIsLost` | backend/internal/repo/lifecycle.go:385-393 | three ordinary requests: record 0, terminate, reactivate, and the month is empty |
| `Scenarios.RedatedValueIsLost` | backend/internal/repo/lifecycle.go:362-370 | four ordinary requests: record 10, terminate, re-date, reactivate, and the month shows 0 |
| `Relocation.BookedThenEdited` | backend/internal/repo/investment_transactions.go:290-322 | book a maturity, then edit its date however often: the position shows zero in the last month and every other month as it was if and only if no other month the date ever fell in held a recorded zero |
| `Scenarios.EditedPastZero` | backend/internal/repo/investment_transactions.go:290-322 | four ordinary requests: record 0, book a maturity in the month before, edit its date to that month and on to the next, and the 0 is gone |
| `SnapshotStore.Store.LiveAtMonth` | backend/internal/db/asset_snapshots.sql.go:145-152 | finds the live row of a live position and month |
| `SnapshotStore.Store.Archive` | backend/internal/db/asset_snapshots.sql.go:555-565 | stamps one live row deleted, and nothing else |
| `SnapshotStore.Store.Restore` | backend/internal/db/asset_snapshots.sql.go:524-535 | clears one archived row, reporting whether there was one |
| `SnapshotStore.Store.CreateSnapshot` | backend/internal/db/asset_snapshots.sql.go:52-64 | refines the Record transaction |
| `SnapshotStore.Store.UpsertSnapshot` | backend/internal/db/asset_snapshots.sql.go:638-664 | refines the Import transaction: overwrite the live row of the month or insert one |
| `SnapshotStore.Store.UpdateSnapshot` | backend/internal/db/asset_snapshots.sql.go:582-597 | refines the Edit transaction, guarded by a live row under a live position |
| `SnapshotStore.Store.DeleteSnapshot` | backend/internal/db/asset_snapshots.sql.go:555-565 | refines the Delete transaction |
| `SnapshotStore.Store.SoftDeletePosition` | backend/internal/repo/assets.go:151-189 | refines the DeletePosition transaction: cascade first, already archived rows keep their stamp; the position is then no longer live and has no live snapshot |
| `SnapshotStore.Store.WriteCloseSnapshot` | backend/internal/repo/lifecycle.go:380-404 | displace a non-zero live row, refresh a zero one, or just insert |
| `SnapshotStore.Store.RevertCloseSnapshot` | backend/internal/repo/lifecycle.go:417-436 | take back a zero row and restore what it names; a user's non-zero row wins |
| `SnapshotStore.Store.UpdateLifecycle` | backend/internal/repo/lifecycle.go:79-131 | refines the SetLifecycle transaction, rolled back as a whole when the restore finds no row; succeeds on every live position |
| `SnapshotStore.Store.UpdateMaturityDate` | backend/internal/repo/investment_transactions.go:290-322 | refines the MoveMaturity transaction: revert the old month if it changed, close the new one |
| `LinkInference.LinkDisplacedSnapshots` | backend/internal/backup/restore.go:152-175 | the two-pass map algorithm computes, in place, each row's link from the last archived non-zero row with its key |
| `LinkInference.RelinkedMeaning` | backend/internal/backup/restore.go:140-151 | a live, unlinked, zero row gets the id of the archived non-zero row of its position, month and instant if and only if one exists; every other row and column is unchanged |
| `LinkInference.RelinkTwice` | backend/internal/backup/restore.go:146-147 | a second pass changes nothing |
| `LinkInference.NewLinksInjective` | backend/internal/backup/restore.go:149-151 | two newly linked rows never share a target when live rows are unique per month |
| `LinkInference.InferenceExact` | backend/internal/backup/restore.go:140-151 | in every state that keeps the invariant, inference gives a live row back exactly the link it had if and only if it is a zero row or had no link |
| `LinkInference.InferenceOnEveryRun` | backend/internal/backup/restore.go:67-73 | after any run from an empty table, erasing all links and inferring them gives each live zero row exactly the link it had |
| `LinkInference.UndoAfterMigration` | backend/internal/backup/restore.go:67-73 | undoing any termination after a migration from a file without links shows the same amounts as undoing it in the original |
| `MigratedRestore.MigratedRestoreShowsTheSameIff` | backend/internal/backup/restore.go:67-73 | end to end: a household may always restore its own full version-4 backup (links left out, migrated, graph check passed, wiped and loaded), and it then shows what it would have shown, whatever requests follow, if and only if every visible row that displaced another is a zero row and the other displaced none |
| `MigratedRuns.MigrationShowsTheSameIff` | backend/internal/backup/restore.go:67-73 | a household migrated from a file without links shows the amounts the original shows after every further run if and only if every visible row that displaced another is a zero row and the other displaced none |
| `Compaction.LiveTargetsCarried` | backend/internal/db/backup.sql.go:71-77 | every live carried row's displaced row is carried with it |
| `Compaction.ClosedIffUnchained` | backend/internal/db/backup.sql.go:54-77 | the compacted snapshot links are closed, so the file can load, if and only if no live row displaced a row that had displaced one before |
| `Scenarios.ChainIsReachable` | backend/internal/repo/lifecycle.go:380-404 | four ordinary requests reach such a chain |
| `Compaction.CompactedKeeps` | backend/internal/db/backup.sql.go:56-77 | the group restored from a loadable compacted file satisfies the protocol invariant again |
| `Compaction.RestoresAreInvisible` | backend/internal/db/backup.sql.go:56-77 | however often a household is exported compacted and restored between its requests, its members see what they would have seen without any restore |
| `Compaction.WhatIsVisible` | backend/internal/db/backup.sql.go:56-77 | what a member sees: live positions, and the rows under them that are not deleted |
| `Compaction.RestoredBehavesAsOriginal` | backend/internal/db/backup.sql.go:56-77 | after every further sequence of requests the compacted copy shows the same live positions and rows as the original |
| `Backup.SectionOrder` | backend/internal/backup/format.go:138-163 | each backed-up table has one section and none precedes a table its foreign keys name |
| `Backup.IdSet` | backend/internal/backup/restore.go:554-560 | the set of a section's ids |
| `Backup.AssertCounts` | backend/internal/backup/restore.go:290-298 | passes if and only if every declared count is the length of the section of that name, an unknown name counting as empty; a failure names one that differs |
| `Backup.DeclaredNames` | backend/internal/backup/format.go:138-163 | the 22 names counts are declared under, each with the section it counts |
| `Backup.ChecksArePoliced` | backend/internal/backup/restore.go:395-552 | every listed check is of a policed reference |
| `Backup.PolicedIsChecked` | backend/internal/backup/restore.go:395-552 | every policed reference is on the check list |
| `Backup.ValidateGraph` | backend/internal/backup/restore.go:395-552 | passes if and only if every policed reference of the payload is good; otherwise reports the first bad one in source order, all earlier checks having held |
| `Backup.GraphMeans` | backend/internal/backup/restore.go:395-552 | the graph check in columns: every household_id is the file's own; owners, tags and rollover sources, where set, and parents always, are ids of the right section |
| `Backup.MatchCaller` | backend/internal/backup/restore.go:356-369 | the first user the caller is: by google_sub alone for a Google caller, by a non-empty email otherwise |
| `Backup.MatchedMeans` | backend/internal/backup/restore.go:356-369 | whoever is matched has the Google caller's google_sub, or the local caller's non-empty address |
| `Backup.UnmatchedMeans` | backend/internal/backup/restore.go:356-369 | when nobody is matched no user has that google_sub, or that non-empty address |
| `Backup.CheckStranding` | backend/internal/backup/restore.go:378-388 | refuses exactly when local sign-in is off and some member has no google_sub |
| `Migration.BackfillCode` | backend/internal/backup/restore.go:74-81 | in place: an empty code becomes the default, every other code and column stays |
| `Migration.Envelope.MigrateTo` | backend/internal/backup/restore.go:267-285 | the in-place loop agrees with the recursive chain in result, version and error: version 0 or less is not a backup, a later version than the target is too new, and otherwise a missing or failing step is named |
| `Migration.UpgradeThrough` | backend/internal/backup/restore.go:262-266 | migrating straight to the target equals stopping at any version on the way, errors included |
| `Migration.UpgradeEnds` | backend/internal/backup/restore.go:274-283 | success ends at the target; a gap anywhere in the chain refuses the file |
| `Migration.ProductionUpgrade` | backend/internal/backup/restore.go:73-126 | every version 1 to 5 reaches 5, all sections keep their lengths, only absent values change |
| `Migration.ProductionResult` | backend/internal/backup/restore.go:49-126 | closed form of the whole chain from any version: which table gets which default, 3.5 for a missing inflation rate, links rebuilt, all else identical |
| `Migration.DefaultsFilledIn` | backend/internal/backup/restore.go:75-104 | row by row: empty becomes pays_out for version-1 bonds and acquired for positions up to version 3; every other column, table and later version is untouched, links of snapshots apart |
| `Migration.RateFilledIn` | backend/internal/backup/restore.go:84-89 | a zero inflation rate in a file up to version 2 becomes 3.5, any other household row stays |
| `Migration.VerdictsSurvive` | backend/internal/backup/restore.go:395-552 | filling in absent values changes neither the graph check, nor the membership match, nor the count check |
| `Restore.ChildrenFirst` | backend/internal/backup/restore_commit.go:91-135 | each child table is deleted no later than the table it references, strictly before its parent; the audit UPDATE breaks the households/users cycle |
| `Restore.WipeEffect` | backend/internal/backup/restore_commit.go:99-135 | each of the 27 statements takes one planned intermediate state to the next, its scope judged on the tables as they then are |
| `Restore.WipeOutcome` | backend/internal/backup/restore_commit.go:99-144 | foreign keys, unique indexes and NOT NULL hold after every statement, so that the wipe succeeds, if and only if no row outside the household references one inside; it then leaves exactly the other rows |
| `Restore.SurvivorsMean` | backend/internal/backup/restore_commit.go:99-144 | which rows those are: other households, rows with another household_id, and rows whose position or user has one |
| `Restore.UniqueIndexes` | backend/internal/migrations/00001_baseline.sql:784-945 | the unique indexes in columns: reports by household and month, invitations by token; among rows not deleted snapshots by position and month, rates by household, month and currency, inflation by household and month, tags by household and name, users by email and by google_sub |
| `Restore.RequiredColumns` | backend/internal/migrations/00001_baseline.sql:953-1456 | household_id and the parent columns are never NULL; details and credentials share their parent's id |
| `Rows.ForeignKeys` | backend/internal/migrations/00001_baseline.sql:953-1456 | the foreign keys, column by column |
| `Load.ParentsFirst` | backend/internal/backup/restore_commit.go:146-191 | each table is loaded no earlier than the tables it references, but for the household's audit columns, backfilled after users |
| `Load.LoadEffect` | backend/internal/backup/restore_commit.go:153-257 | each of the 24 statements adds exactly its section, or fails on a repeated key |
| `Load.LoadOutcome` | backend/internal/backup/restore_commit.go:153-198 | all 24 succeed if and only if the payload's keys are new and the intended result meets every constraint; they then leave exactly that result |
| `Commit.Database.Execute` | backend/internal/backup/restore_commit.go:137-144 | one statement with its constraints checked at statement end, or no change |
| `Commit.Database.WipeHousehold` | backend/internal/backup/restore_commit.go:137-144 | runs the wipe list and stops at the first failure |
| `Commit.Database.LoadHousehold` | backend/internal/backup/restore_commit.go:153-198 | runs the load list and stops at the first failure |
| `Commit.Database.UpsertLocalCredential` | backend/internal/backup/restore_commit.go:74-83 | the credential row of one user, nothing else |
| `Commit.Database.CommitRestore` | backend/internal/backup/restore_commit.go:33-89 | commits if and only if nothing outside points in, the payload fits beside everyone else's rows and the caller is one of its users; then the tables are the survivors, the payload and the carried password hash, and are consistent; any failure leaves the tables as they were |
| `Commit.PasswordCarried` | backend/internal/backup/restore_commit.go:44-79 | a local caller with a password keeps it, under the user they were matched to; a Google caller, or one without a password, ends without a credential |
| `Commit.CommittedMeans` | backend/internal/backup/restore_commit.go:33-89 | besides that credential: surviving rows as they were, the file's rows as the file has them, nothing else |
| `Commit.Database.EraseHousehold` | backend/internal/backup/erase.go:113-127 | the wipe with nothing loaded after it, all or nothing |
| `Export.ListForExport` | backend/internal/db/backup.sql.go:54-77 | lists exactly the selected rows, in the order of the query's ORDER BY columns |
| `Export.ListedInOrder` | backend/internal/db/backup.sql.go:54-77 | that order in columns, by kind of table |
| `Export.Gather` | backend/internal/backup/export.go:162-297 | every section lists exactly the household's rows the fidelity selects; None exactly when there is no such household |
| `RoundTrip.ExportCarries` | backend/internal/db/backup.sql.go:421-427 | what a section lists, in columns: full, every row of the household; compacted, live users, tags, positions, income and rates, details of live positions, live ledger rows of live investments, and snapshots of live positions that are live or named by a live one |
| `Export.ListingUnique` | backend/internal/db/backup.sql.go:35-35 | two exports of the same rows are the same list |
| `RoundTrip.ValidatedLoads` | backend/internal/backup/restore.go:390-552 | a payload that passed the graph check meets every foreign key once loaded if and only if its unpoliced references (audit columns, supersedes, the household of inflation rates) resolve |
| `RoundTrip.OwnBackupCommits` | backend/internal/backup/restore_commit.go:33-89 | restoring one's own backup, of either fidelity, commits if and only if the carried rows refer only to one another |
| `RoundTrip.FullSelectionClosed` | backend/internal/backup/restore_commit.go:33-89 | a full backup always qualifies |
| `RoundTrip.OwnBackupRestores` | backend/internal/backup/restore_commit.go:33-89 | afterwards every other household's rows and every carried row are exactly as before, nothing else of this household is left but a local caller's password, bound to the user they matched; a Google caller is left none |
| `RoundTrip.ReExportIdentical` | backend/internal/backup/export.go:147-297 | a full export of the restored household is identical to the backup that was restored |
| `CompactedRestore.ExportPasses` | backend/internal/backup/restore.go:395-552 | the graph check passes on an export if and only if its policed references stay inside it |
| `CompactedRestore.CompactedPasses` | backend/internal/backup/restore.go:395-552 | it passes on a compacted export if and only if live positions and income refer only to live owners, tags and rollover sources |
| `CompactedRestore.DeletedSourceFails` | backend/internal/db/investments.sql.go:258-264 | soft-deleting an investment makes the next compacted backup fail its own graph check if and only if a live one was rolled over from it |
| `CompactedRestore.RolledOverExists` | backend/internal/backup/restore.go:417-428 | such a household, with all constraints met |
| `CompactedRestore.KeptIsCarried` | backend/internal/db/backup.sql.go:54-77 | the compacted WHERE clause on the database selects exactly the rows the group model carries |
| `CompactedRestore.CompactedCommits` | backend/internal/db/backup.sql.go:54-77 | a compacted backup of one's own household can be restored if and only if live rows refer only to live ones, every carried row's authors are still members, and no live row displaced a row that had displaced one |
| `CompactedRestore.RestoredGroup` | backend/internal/db/backup.sql.go:54-77 | the restored position group is exactly the compaction of the original one |
| `CompactedRestore.CompactedRestoreCommutes` | backend/internal/db/backup.sql.go:71-77 | end to end: export compacted, wipe, load, then any further requests, undone terminations included, shows exactly what the original household would have shown |
| `DemoLedger.Round2Exact` | backend/internal/backup/demo_seed.go:92-94 | rounding leaves an amount alone if and only if it is whole cents |
| `DemoLedger.Round2Means` | backend/internal/backup/demo_seed.go:92-94 | the nearest whole cent, halves away from zero |
| `DemoLedger.RecordSeriesDelta` | backend/internal/backup/demo_seed.go:217-224 | adds each month-on-month change, month 0 and months past the series untouched |
| `DemoLedger.CashLedger.AddIncome` | backend/internal/backup/demo_seed.go:209-209 | every cell keeps holding what the recorded entries add up to |
| `DemoLedger.CashLedger.AddInvest` | backend/internal/backup/demo_seed.go:211-215 | as above, signed |
| `DemoLedger.CashLedger.Track` | backend/internal/backup/demo_seed.go:217-224 | as above, for a tracked trail |
| `DemoLedger.CashLedger.CheckingSeries` | backend/internal/backup/demo_seed.go:226-244 | for any recorded flows the series opens at the opening balance and makes the engine's derived expenses equal the chosen ones in every later month |
| `DemoLedger.ConservedIffReconciles` | backend/internal/backup/demo_seed.go:226-235 | a series does so if and only if cash, savings and loans together change from the opening month by exactly income less investment less expenses, through every month |
| `DemoLedger.StoredIdentity` | backend/internal/backup/demo_seed.go:293-307 | what is derived from the stored, rounded snapshots misses the chosen expenses by at most a cent per trail over any window: rounding never accumulates |
| `DemoLedger.CumulativeQty` | backend/internal/backup/demo_seed.go:146-156 | the sum of the trades dated at or before the month |
| `DemoLedger.SeedMarketSnapshots` | backend/internal/backup/demo_seed.go:466-483 | rounded quantity, rounded price and their product, month by month |
| `DemoLedger.TradeCash` | backend/internal/backup/demo_seed.go:490-513 | a sell's negated positive amount is the signed product |
| `DemoLedger.SeedTrades` | backend/internal/backup/demo_seed.go:440-456 | the ledger gains exactly one investment entry per trade |
| `DemoLedger.CashIsQuantityTimesPrice` | backend/internal/backup/demo_seed.go:490-513 | a month's recorded cash is the rounded traded quantity times the month's price |
| `DemoLedger.ReturnIsAppreciation` | backend/internal/backup/demo_seed.go:134-140 | value change plus cash out minus cash in is pure appreciation of the lot already held if and only if the stored quantity moved by what the ledger recorded, or the price rounds to nothing |
| `DemoLedger.MarketIdentity` | backend/internal/backup/demo_seed.go:134-140 | with quantities of at most two decimals it always is, and over any window the appreciation adds up to final value less opening value less net cash in |
| `DemoLedger.FineQuantityDrifts` | backend/internal/backup/demo_seed.go:458-465 | finer quantities break it: the snapshot rounds the running sum, the ledger each trade |
| `LoginLimiter.ComputeBackoff` | backend/internal/auth/ratelimit.go:120-137 | the 64-bit doubling loop never overflows and computes 0 for one failure, then min(cap, base * 2^(n-2)) |
| `LoginLimiter.ProductionCurve` | backend/internal/auth/ratelimit.go:37-44 | at the production settings: nothing, then 1, 2, 4 seconds and so on to 512, then fifteen minutes |
| `LoginLimiter.BackoffMonotone` | backend/internal/auth/ratelimit.go:120-137 | never shrinks with another failure, never negative, never past the cap |
| `LoginLimiter.BackoffPositive` | backend/internal/auth/ratelimit.go:120-125 | positive exactly from the second failure on |
| `LoginLimiter.Limiter.RetryAfter` | backend/internal/auth/ratelimit.go:46-57 | the remaining wait of a key, 0 when none |
| `LoginLimiter.Limiter.MaxRetryAfter` | backend/internal/auth/ratelimit.go:66-74 | the longest wait over the keys, 0 exactly when every key may go |
| `LoginLimiter.Limiter.RecordFailure` | backend/internal/auth/ratelimit.go:79-93 | bumps each key in order, restarting its wait now |
| `LoginLimiter.Limiter.RecordSuccess` | backend/internal/auth/ratelimit.go:97-103 | forgets exactly the given keys |
| `LoginLimiter.Limiter.EvictExpired` | backend/internal/auth/ratelimit.go:109-118 | drops exactly the entries whose wait is over |
| `LoginLimiter.StateIsHistory` | backend/internal/auth/ratelimit.go:79-118 | over every run an entry says exactly how many consecutive failures a key has had and when the last one was |
| `LoginLimiter.NeverLocked` | backend/internal/auth/ratelimit.go:8-13 | a key never waits beyond its last failure plus the cap |
| `LoginLimiter.SweepRestartsCurve` | backend/internal/auth/ratelimit.go:105-118 | at the production settings: the third failure of a key costs two seconds, or nothing when a sweep came after the second wait |
| `LoginLimiter.EvictionShows` | backend/internal/auth/ratelimit.go:105-118 | a sweep changes no answer then or later; the next failure tells it apart exactly when the sweep dropped the key |
| `LoginLimiter.FailuresAreSpaced` | backend/internal/auth/local.go:153-177 | when attempts are made only at zero wait, consecutive failures of a key are at least the backoff apart |
| `LoginLimiter.GuessingBound` | backend/internal/auth/ratelimit.go:8-17 | the k-th consecutive failure comes at least base * (2^(k-2) - 1) after the first below the cap, and a full cap apiece beyond it |
| `Invitations.StepKeeps` | backend/internal/auth/local_invite.go:156-200 | every statement or transaction keeps: unique live users, accounts bound to their invitation's address and household, a used invitation has an account |
| `Invitations.AtMostOneAccount` | backend/internal/auth/onboarding.go:300-352 | over every interleaving of local accepts and interrupted or finished Google joins an invitation has at most one live account, and if used, has had one |
| `Invitations.SpentForGood` | backend/internal/auth/onboarding.go:345-350 | after a join interrupted before marking its invitation, nobody else ever comes through it while that account lives |
| `Invitations.Accounts.ConsumeInvitation` | backend/internal/db/invitations.sql.go:15-28 | conditional consume: takes effect exactly on an unused, unexpired invitation |
| `Invitations.Accounts.CommitLocalInvite` | backend/internal/auth/local_invite.go:156-200 | accepted exactly when the invitation is pending, the address is free and no statement fails; then invitation, account and credential are all in place, and otherwise everything, the invitation included, is as it was |
| `Invitations.AcceptMeans` | backend/internal/auth/local_invite.go:156-200 | a local accept makes the invited account, with its password and the invitation used, exactly if the invitation is there, unused and unexpired and no live account has its address |
| `Invitations.SecondAcceptDoesNothing` | backend/internal/auth/local_invite.go:156-200 | once an accept has taken effect another through the same invitation changes nothing |
| `Invitations.InviteMeans` | backend/internal/db/invitations.sql.go:45-52 | a new invitation is unused, for the one address and household it names |
| `Invitations.RemoveFreesAddress` | backend/internal/migrations/00001_baseline.sql:938-945 | a removed member's address is free again, everyone else stays |
| `Invitations.FoundMeans` | backend/internal/migrations/00001_baseline.sql:938-945 | an account without an invitation is made unless a live one has that address or subject |
| `Invitations.JoinMeans` | backend/internal/auth/onboarding.go:331-344 | a Google join validated in time makes the invited account under its subject exactly if no live account has that address or subject |
| `Invitations.JoinRefused` | backend/internal/db/invitations.sql.go:134-141 | an unknown, used or expired invitation, or one for another address, starts no join |
| `Invitations.AbandonMeans` | backend/internal/auth/onboarding.go:331-344 | a join that stops is forgotten alone; what it committed stays |
| `Invitations.Accounts.ValidateInvitation` | backend/internal/db/invitations.sql.go:134-141 | the join's re-check: pending and addressed to the verified email |
| `Invitations.Accounts.CreateJoinedUser` | backend/internal/auth/onboarding.go:331-344 | the join's second statement, refused by the unique indexes |
| `Invitations.Accounts.MarkInvitationUsed` | backend/internal/db/invitations.sql.go:225-231 | the join's third statement, unconditional |
| `PasswordReset.ResetRevokes` | backend/internal/auth/reset.go:248-293 | after a committed reset the new password is in place, no token minted for that member before it ever works, no session they had before it is ever live, and other members' tokens and sessions are untouched |
| `PasswordReset.WorksOnce` | backend/internal/db/password_reset_tokens.sql.go:15-28 | over any interleaving of submits, requests, logins and sweeps a token replaces a password at most once |
| `PasswordReset.SiblingLoses` | backend/internal/auth/reset.go:283-287 | of two outstanding tokens of one member, once one has worked the other never does |
| `PasswordReset.Resets.Consume` | backend/internal/db/password_reset_tokens.sql.go:15-28 | conditional consume: takes effect exactly on an unused, unexpired token |
| `PasswordReset.TokenWorks` | backend/internal/auth/reset.go:253-293 | a token sent out sets the password, drops the member's tokens and sessions and touches nobody else's until it expires, and does nothing from then on |
| `PasswordReset.DeadTokenDoesNothing` | backend/internal/db/password_reset_tokens.sql.go:15-28 | an unknown, used or expired token changes nothing |
| `PasswordReset.SessionsOpenAndClose` | backend/internal/db/sessions.sql.go:31-66 | opening a session and closing one touch that session alone |
| `PasswordReset.SweepShowsNothing` | backend/internal/db/password_reset_tokens.sql.go:71-80 | the sweep drops only what no submit could use any more |
| `PasswordReset.Resets.CommitPasswordReset` | backend/internal/auth/reset.go:253-293 | the reset happens exactly when the token is usable and no statement fails; otherwise token, password and sessions are as they were |
| `Freshness.MissedIff` | backend/internal/db/monthly_reports.sql.go:720-746 | any create, edit, soft delete or undelete is missed if and only if it is to a member, to a snapshot after the last month or to a row dated after the 1st of the last month, and changes what the row contributes |
| `Freshness.CheckSees` | backend/internal/db/monthly_reports.sql.go:720-746 | a later write makes the check fail exactly if it is to a position or the household, to a snapshot up to the last month, or to a row dated no later than the 1st of the last month |
| `Freshness.EditShows` | backend/internal/repo/monthly_reports_engine.go:471-487 | editing a row changes the inputs of exactly the months from its own on; of a position, the household or a member, of every month |
| `Freshness.StaleIffMissed` | backend/internal/db/monthly_reports.sql.go:720-746 | after any run of stamped writes the check passes a stale report if and only if the last write of every row written is dated where the watermark does not look, and one of those changes what its row contributed |
| `Freshness.SafeRunStaysFresh` | backend/internal/db/monthly_reports.sql.go:754-760 | while no write lands past, or moves a row past, the date the watermark looks at, a report that passes the check has exactly the inputs it was generated from, deletes and undeletes included |
| `Freshness.LastMonthIsMissed` | backend/internal/repo/monthly_reports.go:192-198 | in the last month a create, edit or soft delete is missed if and only if it is dated after the 1st and changes something |
| `Freshness.RefreshRace` | backend/internal/repo/monthly_reports.go:179-210 | a refresh that read its inputs before writing always passes its own check, so it is right exactly if no last write in between changed what its row contributed |
| `Freshness.SomeAreMissed` | backend/internal/db/monthly_reports.sql.go:720-746 | a salary dated the 15th of the last month is missed, and so is a member who joins |
| `ReportCache.NeedsRegen` | backend/internal/repo/monthly_reports.go:217-238 | false if and only if the stored months are exactly first..last, each under the current engine version and no older than the watermark |
| `ReportCache.MaxInputStamp` | backend/internal/db/monthly_reports.sql.go:720-746 | the newest stamp over positions, household, snapshots up to the last month and rows dated no later than its 1st |
| `ReportCache.EngineRange` | backend/internal/repo/monthly_reports_engine.go:471-487 | the months reported on: from the first live snapshot to the last one or the current month, none when no live snapshot is left |
| `ReportCache.Cache.Mutate` | backend/internal/db/monthly_reports.sql.go:754-760 | a safe stamped write keeps every report the check would pass right |
| `ReportCache.Cache.WriteReports` | backend/internal/repo/monthly_reports.go:242-270 | stores exactly the months first..last, all generated now from what was read |
| `ReportCache.Cache.Refresh` | backend/internal/repo/monthly_reports.go:179-210 | the part after the inputs were read: nothing is rewritten if and only if there is nothing to report on, or exactly the months of the engine are stored and pass; otherwise all come from what was read |
| `ReportCache.RefreshServesIff` | backend/internal/repo/monthly_reports.go:179-210 | a refresh of a truthful cache serves exactly the months of the engine, all right, if and only if a live snapshot is left or nothing was stored |
| `ReportCache.ServedAfterWriteIff` | backend/internal/repo/monthly_reports.go:179-210 | from a cache that matches its inputs: after one write of any kind the next read reflects it if and only if a live snapshot is left and the months changed, or the write is dated where the watermark looks, or it changes nothing a stored month is computed from |
| `ReportCache.EditIsServed` | backend/internal/repo/monthly_reports.go:179-210 | whatever was stored, with a live snapshot left the next read reflects every edit of a position or the household, every write to a snapshot of a month reported on and every one to a row dated no later than the 1st of the last month |
| `ReportCache.OtherVersionRegenerates` | backend/internal/repo/monthly_reports.go:217-226 | a report of another engine version is never served while there is anything to report on |
| `ReportCache.SecondReadKeeps` | backend/internal/repo/monthly_reports.go:179-210 | with no write in between a second read rewrites nothing |
| `ReportCache.RefreshTruthIff` | backend/internal/repo/monthly_reports.go:179-210 | a refresh that read its inputs before other writes leaves a truthful cache exactly if it rewrote nothing or nothing its months are computed from changed since |
| `ReportCache.SafeRunServesIff` | backend/internal/repo/monthly_reports.go:59-75 | after any run of safe writes and reads the next read serves the months of the engine, all right, if and only if a live snapshot is left or nothing was ever stored |
| `ReportCache.LastSnapshotDeleted` | backend/internal/repo/monthly_reports.go:189-191 | record one snapshot, read, delete it, read again: the old net worth is still served, although the deletion moved the watermark |

## Left out

- HTTP handling, cookies, JSON and gzip: a row is assumed to survive encoding and decoding unchanged.
- Cryptography, token generation, OIDC and mail: tokens, hashes and session ids are opaque values that are never drawn twice.
- The monthly report computation: a report is any function of the inputs it may look at, so a stored report is represented by those inputs. Time-deposit and bond details, which the engine reads and the watermark does not look at, are part of their investment's row, since every statement that edits them stamps it in the same transaction (`backend/internal/repo/time_deposits.go:370-415`, `backend/internal/repo/bonds.go:297-330`).
- Rebuilding a single month by hand (`RebuildMonth`): one report generated from what is there, beside the others; rebuilding all of them is `ReportCache.Cache.WriteReports`.
- Liability, receivable and investment snapshots: their query files are copies of the asset one, and the one model stands for all four groups.
- Columns no modelled check or statement reads: they are one `content` value; `code` stands for the one text column a transform or unique index reads in that table, so the tag index is on `code` and not on its lower case.
- CHECK constraints and column types: not part of the constraints checked at statement end.
- Concurrent transactions on the same household: each restore, lifecycle change, accept and reset is one atomic step, as its transaction or row lock makes it; the Google join and the report refresh, which are not, are modelled in their separate steps.
- Database failures: modelled as an injected fault for the invitation accept and the password reset, and as a failed constraint elsewhere.
- `ON DELETE CASCADE` of local credentials and reset tokens: part of the statement that deletes their users, as migrations 00008 and 00010 declare it.
- Transforms that report an error: the chain may hold them, but what an abandoned envelope then contains is not described.
- Floating point in the demo seeder: amounts are reals, rounded to two decimals where the seeder stores them; the sine and power curves are arbitrary input series.
- The step-down, revaluation and month-window series of the demo seeder: one-line formulas.
- Clock resolution: transactions, and writes after a report, carry distinct times.
- Requests that touch the terminated month between a termination and its undo: the whole live view then depends on them, so `LifecycleUndo` leaves them to `Reactivation.ReactivationAfterRun` and `Reactivation.ShownIff`, which cover every request and tell what becomes of each row.
- The text order of currencies in the FX section: each rate carries its currency's rank in that order.
- Onboarding handshakes, founding a household and the operator commands: only the user they create is modelled.
