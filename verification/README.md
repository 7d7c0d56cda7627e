# POID: verified core

POID is a file format and a set of readers for applications that travel with
their data. This project models the parts of the code base whose correctness is
hardest to see, and proves what they promise.

* **Data engine.** One SQL scope is a concurrent step machine: a first-come
  mutex, a transaction gate with tokens and idle expiry, and a write-behind
  persister (`SqlScope*.dfy`; that no call is lost is `SqlScopeQueue`). SQLite is abstracted to a committed state, a
  working state, the content of the in-memory file and the autocommit flag.
  Schema migrations run as a client of that machine, through crashes and
  retries (`Migration*.dfy`). `SqlVfs.dfy` is the growable file underneath.
* **Document queries.** The compiler from Mongo-like queries to SQL tokens and
  bindings, an independent SQL expression parser and three-valued evaluator,
  and an independent matching semantics (`FieldPath`, `SqlExpr`, `DocsQuery`,
  `MongoSpec`, `DocsQueryProof`, `DocsQueryLaws`, `DocsQueryEmit`).
* **Container core.** Path rules, the recursive scan under one budget, opening,
  packing and their round trip (`ContainerPath`, `Scan`, `Container`, `Packing`,
  `RoundTrip`); digests, signatures and in-place updates (`Poid*.dfy`), over an
  ordered file map (`FileTree.dfy`).
* **Vault.** Quota accounting, storage conversion in both directions, and copy
  detection across index, files and windows (`Vault*.dfy`, `Copy*.dfy`).
* **Algorithms.** Redaction, origins (`Origin`, `OriginForm`), Standard Library
  resolution, rate limit.

Code that edits objects in place is modelled by classes and methods with loops,
each proved against a function on values; the laws are lemmas about those
functions. Libraries that are not part of the repository (SQLite, ZIP, JSON,
SHA-256, Ed25519, regular expressions) are parameters or free constructors, and
what is assumed of them is stated as a precondition.

## What the proofs found

* A string `$eq` matches arrays and objects by their serialized text, and a
  numeric path segment never addresses an object key. Away from those two cases
  the compiled query means what its documentation says.
* `COMMIT; BEGIN` inside the text of a tokened call escapes a later rollback,
  also when a statement after it fails. A script without a token that issues
  BEGIN and then fails leaves a transaction nobody owns. The final check runs
  only after success, and it and the reconciliation after a failure look only at
  the autocommit flag. `SqlScopeControl` says exactly which scripts do either,
  failing or not and whatever other calls do meanwhile. The serializability
  results assume text without transaction control; that what is stored was
  committed (`SqlScopePersist.PersistsCommittedStates`) needs no such assumption.
* An idle expiry, or a COMMIT that SQLite turns into a rollback, schedules no
  persist, so a write committed just before can stay unsaved.
* The writer's comment that it never produces what the reader rejects is too
  strong. `RoundTrip.PackedOpens` gives the exact condition.
* Updating a container that is on a `connection` to a program that declares no
  backend leaves a manifest that does not validate
  (`PoidUpdate.UpdateStaysValid`). Updating from a data
  container that names the same application loses the user's mode and
  protection (`PoidUpdate.DataContainerLosesPlacement`).
* `vault_to_embedded` can fail after it has already converted part of the
  container; `VaultFailure.FailureIsPartial` says exactly when it has changed
  nothing. `embedded_to_vault` never changes anything when it fails.
* Converting to the vault and back loses every file under `data/` and `slots/`
  that is not a store or the pointer, among them `data/store.enc` and
  `data/database.sql` (`VaultTree.TreeReturns` has the exact condition).
* The pointer to the active slot is trimmed on the way into the vault, so a name
  with white space around it does not come back as it was.
* If the instance index cannot be saved, a genuine copy opens without a prompt.
* The command-line tool and the reader sort missing imports in different orders.
* The Rust port parser also accepts a leading plus sign and leading zeros; the
  canonical form removes them.
* The token-bucket bound fails, under a clock that goes back, at refused calls.

## Model

| member | source | states |
|---|---|---|
| SqlScopeSerial.Serializable | packages/poid-host/src/sql-engine.ts:152-227 | In every interleaving of plain execs, begins, commits, rollbacks, expiries and persists, the committed database is the serial fold of the finished token-less execs and committed transactions in completion order, plus what a token-less exec now running has done; the open transaction's working state is that fold plus its own writes |
| SqlScopeSerial.DroppedLeavesNoTrace | packages/poid-host/src/sql-engine.ts:218-228 | Striking every statement of a transaction that never committed (rolled back, expired, failed) out of the history leaves the committed database as it is |
| SqlScopeSerial.RunExplained | packages/poid-host/src/sql-engine.ts:380-430 | The run invariant behind serializability: state, tokens and history agree after every plain run |
| SqlScopeSerial.NobodyElseInside | packages/poid-host/src/sql-engine.ts:380-405 | While a transaction is open, any exec holding the mutex carries that transaction's token; no token-less body runs inside it, whatever the scripts contain |
| SqlScopeSafety.StepKeeps | packages/poid-host/src/sql-engine.ts:360-468 | Every single step keeps the scope consistent: autocommit means working, committed and file agree, the running exec matches the token, the persist chain has at most one waiting link |
| SqlScopeSafety.RunKeeps | packages/poid-host/src/sql-engine.ts:360-468 | The same over every run from a freshly opened scope, also with transaction control in the text |
| SqlScopePersist.PersistsCommittedStates | packages/poid-host/src/sql-engine.ts:614-639 | What is stored, and what is being handed to persist, is the committed database of some earlier moment of the same run, for every run, with or without transaction control in the text |
| SqlScopePersist.StoredNeverGoesBack | packages/poid-host/src/sql-engine.ts:614-639 | Stored bytes only ever move on to later moments of the run |
| SqlScopePersist.StepDurable | packages/poid-host/src/sql-engine.ts:194-227 | At rest, the committed database is saved, in flight or queued after a step exactly when the step is not a losing one (an expiry or an auto-rolled-back COMMIT ending a transaction over an unsaved write) |
| SqlScopePersist.RunDurable | packages/poid-host/src/sql-engine.ts:614-639 | Coverage of committed writes over every run of plain calls whose persists succeed and that takes no losing step |
| SqlScopePersist.FlushedIsCommitted | packages/poid-host/src/sql-engine.ts:248-255 | When such a run has come to rest, the stored bytes equal the committed database |
| SqlScopePersist.OrdinaryRunsFlush | packages/poid-host/src/sql-engine.ts:248-255 | In terms of the calls alone: after any run of plain calls without expiries, in which no COMMIT turns into a rollback and every persist succeeds, an engine at rest has stored its committed database |
| SqlScopeLimits.ExpiryCanLoseAWrite | packages/poid-host/src/sql-engine.ts:420-430 | A concrete run of plain calls: a committed write whose persist finds a transaction open, then idle expiry, ends at rest with stale stored bytes |
| SqlScopeLimits.TextCommitEscapesRollback | packages/poid-host/src/sql-engine.ts:439-461 | A concrete run: `COMMIT; BEGIN` in the text of a tokened call passes the discipline check and the later rollback undoes nothing |
| SqlScopeLimits.FailedScriptLeavesBeginOpen | packages/poid-host/src/sql-engine.ts:161-176 | A concrete run: a script that issues BEGIN and then fails leaves a transaction open that no token names; four more steps of the same run show the next plain call's write rolled back as it ends |
| SqlScopeControl.DanglesExactly | packages/poid-host/src/sql-engine.ts:161-176 | In any run, an exec followed to its end among any steps of other calls leaves a transaction nobody owns exactly when its script, without a token, fails without being rolled back after a BEGIN of its own that is still open |
| SqlScopeControl.DanglingOnlyFromFailure | packages/poid-host/src/sql-engine.ts:439-468 | At every step of any run, such a transaction arises exactly from such a failure and from nothing else |
| SqlScopeControl.DanglingSwallows | packages/poid-host/src/sql-engine.ts:439-452 | Whatever plain script the next call without a token runs in it, through to its end or to a failure, among any steps of other calls: nothing of it is committed; it is undone as the call ends, or, exactly after a failure that SQLite does not roll back, stays in the transaction nobody owns |
| SqlScopeControl.PassesExactly | packages/poid-host/src/sql-engine.ts:161-176 | A tokened script keeps its transaction token, whether it runs through (and is checked) or fails (and is not), exactly if what ran of it ends inside a transaction, any transaction, that SQLite has not rolled back; among any steps of other calls |
| SqlScopeControl.EscapesExactly | packages/poid-host/src/sql-engine.ts:439-468 | A tokened script, running through or failing, keeps its token and yet a later rollback does not bring back the database the transaction began with, exactly when what ran of it ends inside a transaction not rolled back and publishes something: commits a change, or writes outside a transaction (on databases that record every write) |
| SqlScopeControl.NothingPublished | packages/poid-host/src/sql-engine.ts:161-176 | On any database, a tokened script of which nothing that ran publishes leaves the committed state alone, whether it runs through or fails, among any steps of other calls |
| SqlScopeControl.Interleaved | packages/poid-host/src/sql-engine.ts:360-405 | Steps of other calls (arrivals, expiries, waiting, persists) in between make no difference to the database, transaction and token an exec ends with |
| SqlScopeControl.RanIsPrefix | packages/poid-host/src/sql-engine.ts:152-177 | What ran of a script is the whole of it, or exactly the statements before the first that failed |
| SqlScopeQueue.NothingLost | packages/poid-host/src/sql-engine.ts:360-405 | Over every run, with calls counted as often as they come: what was waiting and what has arrived since is exactly what has been served and what still waits, in the mutex queue or parked behind a transaction |
| SqlScopeQueue.StepKeepsCalls | packages/poid-host/src/sql-engine.ts:380-405 | The same for one step; and a head of the queue that an open transaction turns away is parked behind exactly that transaction, with nothing else changed |
| SqlScopeQueue.ServedExec | packages/poid-host/src/sql-engine.ts:386-404 | An exec that is served starts its own script under its own token, or, if its token names no open transaction, leaves everything as it is |
| SqlScopeQueue.ParkedReturns | packages/poid-host/src/sql-engine.ts:398-405 | In every run, once the transaction a parked call waits for has closed, the call can be taken up again at every later moment at which it is still parked; it then stands at the end of the mutex queue, or waits for the transaction open at that time |
| SqlScopeQueue.NeverStuck | packages/poid-host/src/sql-engine.ts:360-405 | In every consistent state some step other than an arrival can be taken, unless nothing is under way and whatever waits, waits for the open transaction |
| SqlScopeQueue.ParkedExecRuns | packages/poid-host/src/sql-engine.ts:420-430 | And there the idle expiry frees every parked exec: four steps lead to its whole script running, alone, on the committed database |
| SqlScopeState.State.RunScript | packages/poid-host/src/sql-engine.ts:152-177 | An exec run to its end, statement by statement until one fails, takes the scope object exactly where the step machine says |
| SqlScopeState.State.Grant | packages/poid-host/src/sql-engine.ts:360-405 | Letting the head of the mutex queue in is the grant transition; a gated call that meets an open transaction is parked behind it and nothing else changes |
| SqlScopeState.State.CommitBody | packages/poid-host/src/sql-engine.ts:195-216 | Commit: an already ended transaction only loses its token; success publishes the working state and schedules a persist; failure keeps the transaction unless SQLite rolled it back |
| SqlScopeState.State.EnforceTxDiscipline | packages/poid-host/src/sql-engine.ts:442-461 | Passes exactly when no manual BEGIN dangles and a tokened call is still inside its transaction; otherwise rolls back or drops the token |
| SqlScopeState.State.Fail | packages/poid-host/src/sql-engine.ts:161-171 | A failed statement reconciles the token with SQLite's own rollback and schedules a persist |
| SqlScopeState.State.SchedulePersist | packages/poid-host/src/sql-engine.ts:614-620 | One persist at most is queued, and none while clean or inside a transaction |
| SqlScopeState.State.TakeSnapshot | packages/poid-host/src/sql-engine.ts:621-631 | The persist callback copies the file and marks it saved only outside any transaction, else gives up |
| SqlScopeState.State.ReconcileTx | packages/poid-host/src/sql-engine.ts:464-468 | The token is dropped exactly when SQLite is back in autocommit |
| MigrationRuns.CrashSafe | packages/poid-host/src/migrations.ts:105-148 | Over every run of crashes, reloads, retries with any target, expiries and failures on the concurrent engine, the committed and the stored database are the first one plus exactly the migrations up to the recorded version, ascending, once each; a completed run has applied exactly those up to its target, and a refused downgrade has found newer data |
| MigrationRuns.StepInv | packages/poid-host/src/migrations.ts:105-148 | Every step of client, engine, persister and crash keeps that invariant, with the open transaction holding exactly the part of the current migration done so far |
| MigrationRuns.OnlyWholeMigrationsLand | packages/poid-host/src/migrations.ts:128-146 | Short of a crash the committed database changes only by the next migration, script and version together |
| MigrationProgress.AlwaysRecovers | packages/poid-host/src/migrations.ts:16-20 | From anywhere in any run, restarting with a target not below the stored version can be completed, and then the database is the first one plus exactly the migrations up to that target |
| MigrationProgress.OneRuns | packages/poid-host/src/migrations.ts:128-146 | An undisturbed migration runs from its begin to its commit and leaves the rest to do |
| MigrationProgress.BootCompletes | packages/poid-host/src/sql-persistence.ts:130-160 | Loaded data at or below the target can be brought all the way up, and the concurrent run ends with exactly the database the migration loop computes |
| MigrationRuns.OneFurther | packages/poid-host/src/migrations.ts:123-136 | Committing the first pending migration yields again a migrated pair, with the rest still pending |
| MigrationRuns.PendingSplits | packages/poid-host/src/migrations.ts:123-125 | Pending migrations over adjoining version ranges concatenate |
| MigrationLoop.ApplyMigrations | packages/poid-host/src/migrations.ts:105-148 | The loop: newer data is refused untouched; otherwise all pending migrations are applied and listed, or it stops at the first that fails with exactly the earlier ones in place |
| MigrationLoop.ApplyOne | packages/poid-host/src/migrations.ts:128-145 | One migration lands with its version stamp or not at all, whichever of its calls fails |
| MigrationLoop.HopsCompose | packages/poid-host/src/migrations.ts:105-148 | Migrating through an intermediate target gives the same database as migrating at once |
| Migrations.ParseMigrations | packages/poid-host/src/migrations.ts:49-74 | Accepts exactly the sets of well-named, positively and distinctly numbered scripts, and lists exactly them in ascending order; an error names the first offending entry and its fault; what number a name has is `ParsesExactly` |
| Migrations.ParsesExactly | packages/poid-host/src/migrations.ts:41-62 | A name is accepted with version n exactly when it is `migrations/`, at most nine digits that write out n in base ten with or without leading zeros, a dash, an allowed non-empty name and `.sql`; number and name are read unambiguously |
| Texts.NumberReads | packages/poid-host/src/migrations.ts:62-62 | A run of digits is read as n exactly if it is the decimal numeral of n behind any number of zeros |
| Migrations.SortAscends | packages/poid-host/src/migrations.ts:73-73 | Sorting distinctly numbered migrations orders them strictly |
| DocsQueryProof.CompilePreservesMeaning | packages/poid-host/src/docs-query.ts:185-216 | For every accepted query and every document, the emitted tokens parse completely under SQL precedence, placeholders are numbered up to the number of bindings, and the expression is TRUE in three-valued logic exactly when the query matches, each operator name having the meaning the specification gives that name |
| DocsQueryProof.NegatedMeans | packages/poid-host/src/docs-query.ts:132-159 | NOT keeps its meaning on the fragments it is applied to, which are two-valued, so `$ne` and `$nin` match missing fields |
| DocsQueryProof.EqMeans | packages/poid-host/src/docs-query.ts:72-88 | Equality fragments are two-valued and hold exactly on equal values, with null matching missing fields and types kept apart |
| DocsQueryProof.OrderedMeans | packages/poid-host/src/docs-query.ts:90-106 | Ordered comparisons hold exactly on numbers (texts) compared with numbers (texts) |
| DocsQueryProof.FieldMeans | packages/poid-host/src/docs-query.ts:117-183 | A field condition, bare or an operator object, means the conjunction of its operators on the value found |
| DocsQueryProof.QueryMeans | packages/poid-host/src/docs-query.ts:185-209 | A whole query, with nested `$and` and `$or`, wherever it stands among other tokens and bindings |
| MongoSpec.KeyMeans | packages/poid-host/src/docs-query.ts:127-181 | The compiler sorts operator names as the specification, which goes by the names themselves, reads them |
| DocsQueryLaws.ComparisonsSelect | packages/poid-host/src/docs-query.ts:32-32 | The clauses compiled from `$gt`, `$gte`, `$lt` and `$lte` with a number select exactly the documents whose field is a number greater than it, at least it, less than it, at most it |
| DocsQueryLaws.OperatorSelects | packages/poid-host/src/docs-query.ts:127-181 | The clause compiled from one operator on one field selects exactly the documents of which that operator, by its name, holds |
| DocsQueryLaws.IndexAddresses | packages/poid-host/src/docs-query.ts:57-57 | A segment that writes out a number addresses that item of an array, in the documented reading and in SQLite's |
| DocsQueryLaws.CompilesExactly | packages/poid-host/src/docs-query.ts:72-216 | A query compiles exactly when every operator is known and every operand translatable: it fails closed |
| DocsQueryLaws.LookupsDiffer | packages/poid-host/src/docs-query.ts:38-60 | The emitted path finds what the documented dot-path finds except exactly where a numeric segment meets an object key |
| DocsQueryLaws.EqualityDiffersExactly | packages/poid-host/src/docs-query.ts:72-88 | The compiled equality of a field and a value selects otherwise than documented exactly where the path meets a numeric object key and the value tells missing from present, or where a string is the serialized text of the array or object found |
| DocsQueryLaws.DocumentedMeaning | packages/poid-host/src/docs-query.ts:12-19 | On documents and queries that avoid those two gaps the compiled clause has the documented meaning |
| DocsQueryLaws.SerializedTextMatches | packages/poid-host/src/docs-query.ts:86-87 | A concrete case: the clause compiled from `{f: "[]"}` selects a document whose `f` is an empty array, which does not match |
| DocsQueryEmit.CompileQuery | packages/poid-host/src/docs-query.ts:212-216 | The compiler as written, pushing bindings into one shared list, returns exactly the specified fragment or error |
| DocsQueryEmit.CompileCondition | packages/poid-host/src/docs-query.ts:193-209 | Each call appends exactly its own bindings, in the order its placeholders stand in the text |
| DocsQueryEmit.FieldCondition | packages/poid-host/src/docs-query.ts:117-183 | The operator loop gathers the specified parts and bindings, or rejects |
| DocsQueryEmit.ClauseList | packages/poid-host/src/docs-query.ts:185-191 | Clause lists refuse empty and non-array operands and join their queries |
| DocsQueryEmit.EqCondition | packages/poid-host/src/docs-query.ts:72-88 | Emits the specified equality text and its bindings |
| DocsQueryEmit.OrderedCondition | packages/poid-host/src/docs-query.ts:90-106 | Emits the specified comparison, refusing operands that are neither finite numbers nor strings |
| FieldPath.FieldPath | packages/poid-host/src/docs-query.ts:43-60 | Refuses empty, `$`-led and escaping fields, and builds the quoted JSON path of all others |
| FieldPath.AcceptedExactly | packages/poid-host/src/docs-query.ts:43-60 | The fields accepted are names between single dots, the first not led by `$`, of characters from the space on without quotes and backslashes |
| FieldPath.DecodePath | packages/poid-host/src/docs-query.ts:43-60 | SQLite's reading of the emitted path gives back exactly the field's segments |
| FieldPath.PathInjective | packages/poid-host/src/docs-query.ts:43-60 | Two accepted fields never share a path |
| Scan.ScanContent | crates/poid-core/src/read.rs:326-350 | Accepts exactly the contents that are sound at every nesting level and whose nested bytes the remaining budget covers, and charges exactly those bytes |
| Scan.ScanNestedZip | crates/poid-core/src/read.rs:352-401 | The same for one archive, recursion ending on the remaining depth; bytes that are no archive pass unread |
| Scan.NothingHidden | crates/poid-core/src/read.rs:322-401 | Whatever is reachable through nested archives of sound content has no executable magic, lies within the depth limit, and holds only stored or deflated, well-named, non-link entries within the ratio cap |
| Scan.ReachedIsPaid | crates/poid-core/src/read.rs:285-401 | Every content found inside sound content, at whatever depth, is paid for byte by byte together with all that is nested in it in turn |
| Scan.CostsAddUp | crates/poid-core/src/read.rs:352-401 | The entries of an archive are paid for one by one, and directories cost nothing |
| Scan.ReadLimited | crates/poid-core/src/read.rs:285-320 | Succeeds exactly when the stream does not break, its size fits the budget, and it is at most the grace or at most the compressed size times the ratio (in 64 bits); returns all its bytes and charges their number |
| Scan.MagicsRefused | crates/poid-core/src/read.rs:25-32 | The prefixes refused are `MZ`, 0x7F `ELF`, the three Mach-O magics and `!<arch>`, and no others |
| Container.OpenWithLimits | crates/poid-core/src/read.rs:61-169 | Accepts exactly the containers described: raw mimetype header, entry limit, valid manifest, clean sound entries within grace or ratio and with case-insensitively distinct names, type rules, and a budget that covers everything with the manifest paid for twice; returns that manifest and those files; tells a missing `mimetype` from a misplaced one |
| Container.ReadAll | crates/poid-core/src/read.rs:90-134 | The scan loop accepts exactly the acceptable entry lists within the budget and collects exactly their files |
| Container.ReadManifest | crates/poid-core/src/read.rs:223-241 | Yields exactly the valid manifest the archive declares, charging its size |
| Container.DetectedInFirstBytes | crates/poid-core/src/read.rs:187-221 | Type detection depends on the first 62 bytes only, where name and media type stand at fixed offsets |
| Container.DetectsExactly | crates/poid-core/src/read.rs:191-221 | The header accepted is exactly that of a first entry `mimetype`, without the data-descriptor flag, stored, without extra field, whose content is `application/vnd.poid+zip` |
| Container.TypeRulesMean | crates/poid-core/src/read.rs:136-166 | The type rules: no file under `app/`, `src/`, `deps/` in data; some under `app/`, and the entry point, in an application; some under `app/` and `apps/` in a workspace |
| Container.FoldsAlike | crates/poid-core/src/read.rs:125-130 | Two names count as the same exactly if they differ at most in the case of Latin letters |
| Container.OpenedHidesNothing | crates/poid-core/src/read.rs:61-134 | Whatever is reachable through nested archives of any file of an opened container has no executable magic, lies within the depth limit, is no larger than the whole budget, and holds only stored or deflated, well-named, non-link entries within grace or ratio |
| ContainerPath.CheckContainerPath | crates/poid-core/src/paths.rs:10-40 | Accepts exactly the good paths, and reports a traversal exactly for absolute, drive-letter and `..` paths |
| ContainerPath.GoodPathExactly | crates/poid-core/src/paths.rs:10-40 | The good paths are non-empty names other than `.` and `..` joined by slashes, without NUL, backslash or drive letter |
| ContainerPath.NeverEscapes | crates/poid-core/src/paths.rs:1-9 | An accepted path resolves strictly below any directory, and two accepted paths never to the same file |
| Packing.Pack | crates/poid-core/src/write.rs:72-156 | Packs exactly the builders whose files are case-insensitively distinct, sound, rule-abiding and within the nested budget, as the archive of the sorted entries |
| Packing.AddFileKeeps | crates/poid-core/src/write.rs:46-64 | Adding a file keeps the builder ordered, well-named and free of reserved names, and changes exactly that file |
| Packing.AddOrderIrrelevant | crates/poid-core/src/write.rs:3-6 | The order in which files are added cannot be seen in the result |
| RoundTrip.PackedOpens | crates/poid-core/src/write.rs:69-72 | Given a faithful ZIP library, a packed container opens exactly when it fits (entry count, ratio of every entry, no name folding to a reserved one, budget with the manifest twice), and then yields the same files and the refreshed manifest, nothing else |
| RoundTrip.RepackFixpoint | crates/poid-core/src/poid.rs:226-233 | Packing what was opened gives the same bytes |
| RoundTrip.ReopenedIsRepacked | crates/poid-core/src/integrity.rs:20-32 | A container packed and opened again is the container after its repack step: same files, refreshed digests |
| RoundTrip.ReopenedStaysSealed | crates/poid-core/src/write.rs:93-96 | A sealed container is still sealed after it has been packed and opened |
| RoundTrip.ReservedInOtherCase | crates/poid-core/src/write.rs:53-58 | The writer's claim is too strong: `Mimetype` is always accepted as a new file name, and nothing packed from a builder that holds it opens |
| RoundTrip.FoldedNameNeverOpens | crates/poid-core/src/read.rs:93-109 | The same for every name that folds to a reserved one: no bytes packed from a builder that holds one open as any container |
| PoidLaws.RunKeepsSeal | crates/poid-core/src/poid.rs:99-233 | From a sealed container (digests verify, signature valid) every run of identity, data, SQL, slot, protection, clearing, storage-mode and repack steps ends sealed under the same key |
| PoidLaws.StepKeepsSeal | crates/poid-core/src/poid.rs:99-233 | The same for one step |
| PoidLaws.StepOnlyState | crates/poid-core/src/poid.rs:99-224 | No step but repacking touches anything outside `data/` and `slots/` or any signed field |
| PoidLaws.SigningSeals | crates/poid-core/src/poid.rs:78-88 | Signing seals any container, whatever its stored digests or earlier signature |
| PoidLaws.SignatureAttests | crates/poid-core/src/signature.rs:79-98 | Two sealed containers with the same signature file have byte-equal `app/` and `deps/` trees and agree on each of the ten signed fields |
| PoidLaws.TamperingShows | crates/poid-core/src/signature.rs:79-98 | Under a signature file that verifies for one manifest, another manifest verifies exactly if it agrees on format version, type, app, runtime, entry, permissions, shared scope, data reference and both stored digests; otherwise the signature is invalid |
| PoidLaws.DigestIdentifies | crates/poid-core/src/integrity.rs:1-12 | Over NUL-free paths, two trees have the same digest exactly when they hold the same files |
| PoidLaws.FileHashInjective | crates/poid-core/src/integrity.rs:46-50 | Path, zero byte and content can be told apart in a file's hash |
| PoidLaws.UnprotectUndoesProtect | crates/poid-core/src/poid.rs:172-189 | Protecting removes the plain store and stores the envelope; unprotecting with the same data restores the file map exactly |
| PoidLaws.StateIsDropped | crates/poid-core/src/poid.rs:348-351 | Dropping state removes exactly the files under `data/` and `slots/` |
| PoidLaws.DataReadsBack | crates/poid-core/src/poid.rs:115-156 | Each data step is read back from its own file and leaves every other file as it was |
| PoidLaws.SlotDataReadsBack | crates/poid-core/src/poid.rs:134-149 | Slot data is read back from the slot's own store file and leaves every other file as it was; a name that is not plain changes nothing |
| PoidLaws.PlainSlotsExactly | crates/poid-core/src/poid.rs:134-149 | The names refused are exactly `current` and those under which the store would not have a container path of its own |
| PoidObject.OpenPoid.DigestOf | crates/poid-core/src/integrity.rs:38-53 | The range scan from the prefix hashes exactly the files under it, and nothing when there are none |
| PoidObject.OpenPoid.Verify | crates/poid-core/src/poid.rs:61-73 | Succeeds exactly when both stored digests match the content |
| PoidObject.OpenPoid.Sign | crates/poid-core/src/poid.rs:78-88 | Leaves the specified signed container, sealed, so that from then on `PoidLaws.TamperingShows` says exactly which manifests its signature covers |
| PoidObject.OpenPoid.RefreshIntegrity | crates/poid-core/src/integrity.rs:22-32 | Overwrites exactly the two digests |
| PoidObject.OpenPoid.SetSlotData | crates/poid-core/src/poid.rs:134-149 | Writes the slot's store exactly for plain names other than `current`, else changes nothing |
| PoidObject.OpenPoid.SetProtectedBlob | crates/poid-core/src/poid.rs:176-181 | Exchanges the plain store for the envelope and sets the flag |
| PoidObject.OpenPoid.SetPlainData | crates/poid-core/src/poid.rs:185-189 | The inverse exchange |
| PoidObject.OpenPoid.ClearData | crates/poid-core/src/poid.rs:206-211 | Drops the state trees and the identity |
| PoidObject.OpenPoid.ConvertStorageMode | crates/poid-core/src/poid.rs:216-224 | Drops the state trees exactly when leaving embedded mode |
| PoidObject.OpenPoid.UpdateProgram | crates/poid-core/src/poid.rs:273-346 | Updates exactly between versions of one application, with the specified result and widening report; otherwise changes nothing |
| PoidUpdate.UpdateKeepsData | crates/poid-core/src/poid.rs:254-272 | One update keeps every byte under `data/` and `slots/` and the instance, and every other file is the new program's; mode, protection and enabled slots are kept exactly if there was no storage block to keep them in or the new container has one |
| PoidUpdate.UpdateTakesProgram | crates/poid-core/src/poid.rs:318-334 | Every other field of the manifest and of its storage block, the schema version, quota and backend among them, is the new program's |
| PoidUpdate.ApplicationsKeepPlacement | crates/poid-core/src/poid.rs:322-333 | From a complete application or workspace the choices are always kept |
| PoidUpdate.DataContainerLosesPlacement | crates/poid-core/src/poid.rs:273-333 | A complete data container that names the application is accepted as the source of an update and drops the user's mode and protection |
| PoidUpdate.UpdateStaysValid | crates/poid-core/src/poid.rs:322-333 | Between containers whose storage blocks validate, the updated one's validates too, except exactly when the user is on a connection and the new program, with a storage block of its own, declares no backend |
| PoidUpdate.UpdateCarriesSignature | crates/poid-core/src/poid.rs:336-339 | The result of updating to a verified program verifies and has that program's signature status |
| PoidUpdate.UpdateSeals | crates/poid-core/src/poid.rs:336-339 | Updating to a sealed program seals the container, whatever was in it |
| PoidUpdate.UpdatesCompose | crates/poid-core/src/poid.rs:304-334 | For any three containers, going through an intermediate version equals going directly outside the storage block; there too, but for `storage.slots` sticking once on, exactly if the intermediate version dropped or invented no placement choice, which it never does when the first two have storage blocks |
| PoidUpdate.ChainKeepsData | crates/poid-core/src/poid.rs:304-334 | Data and identity survive any chain of updates |
| PoidUpdate.ChainNeverWidens | crates/poid-core/src/poid.rs:384-414 | A chain in which no update is reported as widening never ends up asking for anything not asked for at its start |
| PoidUpdate.PermissionsWidened | crates/poid-core/src/poid.rs:384-414 | Reports widening exactly when something is asked for that was not asked for before, on any axis |
| FileTree.SameLookups | crates/poid-core/src/integrity.rs:34-41 | An ordered file map is determined by its lookups |
| FileTree.NothingBeyond | crates/poid-core/src/integrity.rs:41-44 | Once the scan has passed the prefix, no later path has it |
| VaultRoundTrip.RoundTripOverlays | crates/poid-vault/src/convert.rs:33-105 | Embedded to vault and back succeeds and leaves every slot with what the vault held before, overlaid by what the container held, whenever every entry so moved can go back |
| VaultRoundTrip.ReturnSucceeds | crates/poid-vault/src/convert.rs:73-105 | After a move out the move back succeeds exactly when every non-empty named slot, on either side, has a plain name and the vault's surviving texts are JSON |
| VaultRoundTrip.RoundTripIdentity | crates/poid-vault/src/convert.rs:7-10 | Into an empty vault entry and back works exactly when every named slot in use has a plain name, and then is the identity on every key of every slot |
| VaultRoundTrip.RoundTripBytes | crates/poid-vault/src/convert.rs:7-10 | A canonically written store file comes back byte for byte: `data/store.json` when no `slots/default/store.json` competes with it, and every named store |
| VaultRoundTrip.RoundTripPointer | crates/poid-vault/src/convert.rs:56-59 | With an empty vault entry the active slot is always the same afterwards; the pointer file itself comes back byte for byte exactly when it is absent or names a slot other than `default` without surrounding white space |
| VaultRoundTrip.PointerReturns | crates/poid-vault/src/convert.rs:100-103 | Whatever the vault held, the pointer file afterwards is the trimmed name, or nothing for the default slot |
| VaultRoundTrip.MovedInFiles | crates/poid-vault/src/convert.rs:85-104 | After the move back, the state files are exactly the canonical stores of the non-empty slots, and the pointer file exactly for a non-default slot |
| VaultRoundTrip.MovesInWhen | crates/poid-vault/src/convert.rs:86-99 | Moving back succeeds exactly when every stored text is JSON and every non-empty named slot is a plain name |
| VaultTree.TreeReturns | crates/poid-vault/src/convert.rs:33-105 | Out to an empty vault entry and back, for an embedded container with plain slot names whose stores fit the quota: the move back succeeds, and the container's file map is the same again exactly if every file under `data/` and `slots/` is a non-empty canonical store under its proper name (not `slots/default/`), or a pointer in canonical form to a slot other than the default |
| VaultTree.OtherStateIsLost | crates/poid-core/src/poid.rs:216-224 | In particular a container with `data/store.enc` or `data/database.sql` never comes back as it was |
| VaultConvert.SeededOverlays | crates/poid-vault/src/convert.rs:41-60 | After the move out, the vault holds the container's values over its own and the container's pointer over its own |
| VaultMove.EmbeddedToVault | crates/poid-vault/src/convert.rs:33-65 | Succeeds exactly when every store file is an object that fits the quota; a failure leaves the container and the stored vault exactly as they were |
| VaultMove.VaultToEmbedded | crates/poid-vault/src/convert.rs:73-105 | Succeeds exactly when the specified container exists, and then the container is it; without an instance id it is refused unchanged; otherwise it is left converted, with every store written up to the failing slot |
| VaultFailure.FailureIsPartial | crates/poid-vault/src/convert.rs:73-105 | A failing move back leaves the container in embedded mode; it is unchanged exactly if it was in that mode already and, unless the default slot itself cannot be exported, that slot and every non-empty slot before the first one that cannot be written were already in the container as the move writes them |
| VaultFailure.FailsExactly | crates/poid-vault/src/convert.rs:85-99 | It fails exactly if the default slot holds a text that is not JSON, or some named slot does or is in use under a name that cannot name a file |
| VaultMove.FailureWritesDefault | crates/poid-vault/src/convert.rs:85-98 | A concrete document: a value in the default slot and one in a slot named `current` fail with the default store already written |
| VaultMove.FillInstance | crates/poid-vault/src/convert.rs:41-59 | Fills the document as specified or stops at the first entry that will not go in |
| VaultMove.ExportSlot | crates/poid-vault/src/convert.rs:127-143 | Exports a slot canonically, nothing for an empty one, failing exactly on a text that is not JSON |
| VaultDoc.QuotaHolds | crates/poid-vault/src/store.rs:107-131 | Over every run of writes, deletions, clearings and slot switches that starts within quota, the total over all slots stays within it |
| VaultDoc.UsageIsLength | crates/poid-vault/src/doc.rs:182-203 | Usage is the length of all keys and texts stored in all slots |
| VaultDoc.ProjectionExact | crates/poid-vault/src/store.rs:115-123 | The projected size is the total after the write, and the subtraction never underflows, while stored texts are the serializer's own |
| VaultDoc.ProjectionExactWhen | crates/poid-vault/src/store.rs:115-123 | In general it is exact precisely when the replaced entry prints at its stored length |
| VaultDoc.KvSetEffect | crates/poid-vault/src/doc.rs:134-141 | A write changes exactly one key of one slot, and the total by exactly the sizes involved |
| VaultDoc.GetAfterSet | crates/poid-vault/src/doc.rs:116-141 | A value set is the value read, and every other key of every slot reads as before |
| VaultDoc.KvDeleteEffect | crates/poid-vault/src/doc.rs:144-151 | A deletion removes exactly that key and its size |
| VaultDoc.KvClearEffect | crates/poid-vault/src/doc.rs:168-176 | Clearing empties exactly that slot |
| VaultDoc.VaultInstance.KvSet | crates/poid-vault/src/store.rs:109-131 | Refuses, changing nothing, when the projected total exceeds the quota; with the serializer's own texts stored that is exactly when the total after the write would, and that total is reported |
| CopyDetection.QuietCopiesAreShared | crates/poid-vault/src/index.rs:104-122 | Over all runs of opening, copying, renaming, deleting, arriving and deciding: two coexisting files with one identity open one after the other without a prompt only if both are registered and Share was chosen since the identity was last registered or moved |
| CopyDetection.SeveralPathsMeanShared | crates/poid-vault/src/index.rs:124-149 | Over every run an identity has several paths only because of Share, identities stay fresh, and no window is bound under an open conflict |
| CopyDetection.RegisteredReopens | crates/poid-vault/src/index.rs:113-115 | A registered path keeps reopening without a prompt for as long as no other file with its identity is moved into its place, by choice or silently |
| CopyDetection.DecisionLasts | apps/studio/src-tauri/src/commands.rs:114-177 | Whatever the user decides, the window is bound, and its path reopens under the bound identity without a prompt from then on, until another file is moved into its place |
| CopyDetection.IdentitiesStay | apps/studio/src-tauri/src/document.rs:116-179 | A file keeps its identity through every step but its own first open and a fork, and what it is then given is an identity that no file and no entry of the index has |
| CopyDetection.OpeningBinds | apps/studio/src-tauri/src/document.rs:116-179 | Opening binds the new window to the file's identity unless that is in conflict, and a vaulted file opened for the first time is registered exactly if it could be written |
| CopyDetection.CopyPromptsIfSaved | apps/studio/src-tauri/src/document.rs:149-167 | At any reachable point, opening a genuine copy (its identity registered under other paths, one of which exists) prompts and leaves the window unbound exactly if the index can be saved; otherwise it binds to the original's identity without a prompt |
| CopyDetection.CopiesArise | crates/poid-vault/src/index.rs:45-50 | A concrete run of arriving, opening and copying a file makes such a copy |
| CopyDetection.InstanceIndex.Resolve | crates/poid-vault/src/index.rs:104-122 | Classifies an open as specified |
| CopyReader.Reader.Load | apps/studio/src-tauri/src/document.rs:116-179 | The identity algorithm on the live index and files is the open transition, and binds nothing under a conflict |
| CopyReader.Reader.ResolveCopyConflict | apps/studio/src-tauri/src/commands.rs:114-177 | The decision on live state is the choice transition; a failure binds no window |
| SqlVfs.MemFile.Write | packages/poid-host/src/sql-vfs.ts:107-119 | A write at or before the end is the write into the flat file; past the end the gap shows zeros after growth, else what truncation left in the buffer; the buffer grows exactly when it is too small, the largest size and the bytes moved are tracked, and capacity and bytes moved stay within their bounds |
| SqlVfs.Perform | packages/poid-host/src/sql-vfs.ts:93-127 | Any run of reads, truncations and contiguous writes returns and leaves what it would on a flat file; the buffer then is at most twice the largest size the file has had, and all growth together has moved no more bytes than it holds |
| SqlVfs.MemFile.Read | packages/poid-host/src/sql-vfs.ts:93-105 | Fills the target with the file's bytes and zeros past its end, full exactly when the file has them all |
| SqlVfs.MemFile.Truncate | packages/poid-host/src/sql-vfs.ts:121-127 | Cuts the content, never extends it |
| SqlVfs.MemFile.Grow | packages/poid-host/src/sql-vfs.ts:110-114 | At least doubles the buffer and keeps the content |
| SqlVfs.ReadAfterWrite | packages/poid-host/src/sql-vfs.ts:93-119 | A read sees exactly what was written and, elsewhere, exactly what was there before |
| SqlVfs.ScopeVfs.XWrite | packages/poid-host/src/sql-vfs.ts:107-119 | A write through a handle changes exactly the file behind it, under every name and handle it has, inside or past its end, and counts once |
| SqlVfs.ScopeVfs.XRead | packages/poid-host/src/sql-vfs.ts:93-105 | A read through a handle fills the target with the file's bytes and zeros, and changes no file |
| SqlVfs.ScopeVfs.Open | packages/poid-host/src/sql-vfs.ts:70-82 | An unknown name makes a new empty file in the same scope or is refused |
| Redactor.RedactionComplete | crates/poid-broker/src/scrub.rs:91-114 | If no secret overlaps the mark (neither holds the other, and neither runs into the other), redaction leaves no form of any secret in any text |
| Redactor.BracketFreeApartExactly | crates/poid-broker/src/scrub.rs:18-19 | A secret without brackets does not overlap the mark exactly when it is no part of `redacted` |
| Redactor.RedactionIncomplete | crates/poid-broker/src/scrub.rs:91-114 | Conversely, if a bracket-free secret is part of `redacted`, there is a text whose redaction still leaks |
| Redactor.BracketsCanLeak | crates/poid-broker/src/scrub.rs:91-101 | A family of secrets with a leading bracket for which redaction leaks |
| Redactor.FormsStayGone | crates/poid-broker/src/scrub.rs:91-101 | A form once replaced never comes back through later replacements |
| Redactor.EncodingShape | crates/poid-broker/src/scrub.rs:124-139 | The percent-encoding is never shorter, holds no bracket, and is the text itself exactly when nothing needs escaping (unreserved set of section 2.3 of RFC 3986) |
| Redactor.DecodesBack | crates/poid-broker/src/scrub.rs:129-139 | Decoding the percent-encoded form of a secret gives the secret back |
| Redactor.UnreservedExactly | crates/poid-broker/src/scrub.rs:129-139 | What stands unescaped is exactly the unreserved set of section 2.3 of RFC 3986 |
| Redactor.Redactor.Insert | crates/poid-broker/src/scrub.rs:52-60 | Ignores short and known values and otherwise adds exactly the secret, keeping the list duplicate-free and longest-first |
| Redactor.Redactor.Redact | crates/poid-broker/src/scrub.rs:91-101 | Replaces every form of every secret in list order |
| Origin.ParseDisplay | crates/poid-broker/src/network.rs:193-201 | Parsing what a parsed origin displays gives it back |
| Origin.DisplayInjective | crates/poid-broker/src/network.rs:27-30 | Parsed origins are equal exactly when written the same |
| Origin.OfUrlFindsOrigin | crates/poid-broker/src/network.rs:144-158 | The origin of any URL formed by a parsed origin and a path, query or fragment is that origin |
| Origin.CanonicalExactly | crates/poid-broker/src/network.rs:72-127 | The results of parsing are exactly the canonical origins: lower-case valid host, port in range, no character that could end an authority |
| OriginForm.SpellingsExactly | crates/poid-broker/src/network.rs:72-232 | A text is read as an origin exactly if it spells it: scheme and host in any case, no port for 80 over http and 443 over https, or a colon and the port's digits (perhaps after a plus sign and zeros), and perhaps one slash |
| OriginForm.NamesExactly | crates/poid-broker/src/network.rs:235-249 | Outside brackets the valid hosts are labels of one to 63 letters, digits and inner dashes joined by dots, up to 253 characters |
| OriginForm.BreakoutRefused | crates/poid-broker/src/network.rs:78-91 | White space, control characters, quotes, commas, semicolons and wildcards are refused wherever they stand |
| Stdlib.Resolve | crates/poid-cli/src/stdlib.rs:74-131 | Terminates on any catalog, cyclic or not, and selects exactly the reachable catalog entries, with exactly the reachable unknown names as missing, once each and in code point order |
| Stdlib.ResolveStdlib | packages/poid-stdlib/src/index.ts:88-105 | The same for the other worklist, with the missing names in UTF-16 code unit order |
| Stdlib.OneResolution | crates/poid-cli/src/stdlib.rs:73-131 | In one order there is only one such answer |
| Stdlib.ResolversAgree | packages/poid-stdlib/src/index.ts:84-105 | Both resolvers select the same bundles and miss the same names, always; their answers are equal exactly if both orders agree on the missing names |
| Stdlib.ResolversDiffer | packages/poid-stdlib/src/index.ts:104-104 | A concrete pair of imports, U+FF5E and U+1F600, that the two list the other way round |
| Stdlib.ReachableMonotone | crates/poid-cli/src/stdlib.rs:73-112 | More imports never drop a bundle |
| RateLimit.GrantedWithinRate | packages/poid-host/src/broker.ts:348-361 | From any call up to any granted one, grants never exceed the capacity plus the refill of the time between the two, whatever the clock did |
| RateLimit.WindowWithinRate | packages/poid-host/src/broker.ts:348-361 | With a clock that does not go back, no window of time sees more grants than the capacity plus its own refill |
| RateLimit.OnlyGoingBackBreaks | packages/poid-host/src/broker.ts:348-361 | Up to any call, granted or refused, the bound holds unless the clock has gone back behind the first call counted or behind some granted one |
| RateLimit.RefusedExactly | packages/poid-host/src/broker.ts:348-361 | A call is refused exactly if granting it would break the rate: the capacity is below one, or some stretch of calls ending with it, or all of them since registration, would then see more grants than the capacity plus the refill of its time |
| RateLimit.BackwardClockBreaksBound | packages/poid-host/src/broker.ts:351-357 | A concrete run in which the clock goes back and the bound fails at a refused call |
| RateLimit.SpacedNeverRefused | packages/poid-host/src/broker.ts:348-361 | Calls no closer than the refill interval are never refused when the capacity is at least one |
| RateLimit.Broker.Spend | packages/poid-host/src/broker.ts:348-361 | Takes one token of the session's own bucket or refuses; unknown sessions are refused unchanged |

## Left out

- JSON array indices: unbounded, where SQLite's are 32 bits wide.
- Implicit array traversal of Mongo queries: not part of the documented reading the compiler is measured against.
- SQL text and JSON text: queries are compiled to tokens, numbers are reals, and serialization, regular expressions and number formatting are parameters of the query model.
- compileSort and the document store around the compiler: ordering terms and CRUD would only add easy members.
- Scripts that contain transaction control: the serializability and no-lost-write theorems exclude them, because there the promises fail; see `SqlScopeLimits`.
- Partial effects of a failed statement: a statement that fails leaves nothing behind; conflict clauses that keep earlier rows, such as `INSERT OR FAIL`, are not modelled.
- `snapshot()` while a transaction nobody owns is open: not a step of the machine.
- closeScope, snapshot contents, usage, result caps and quota of the engine: not part of the step machine; the un-awaited ROLLBACK of a dangling BEGIN is taken to finish before the mutex is released.
- Idle timers: an expiry may arrive at any moment, so nothing is said about how long a transaction may idle.
- MigrationRuns.CrashSafe: covers scopes whose bytes are loaded from persistence and scripts that leave transactions and user_version alone; stamping and seeding of fresh scopes, and the once-only table of prepared scopes, are not modelled.
- Time and space limits of `read_limited` beyond its counters: the chunk size and the 64-bit width of the running total are not modelled; the totals are unbounded naturals and the ratio product saturates as in the source.
- Which of several errors is reported first by open, pack and scan: the results say exactly when they succeed, not in which order faults are found.
- The ZIP byte layout after the first header, DEFLATE, UTF-8 decoding of names and the JSON form of manifests: behind the `Unzip`, `Zip` and `Codec` parameters.
- Manifest validation as a whole: a parameter of the container model; only the required blocks and the storage rules an update can break are spelled out.
- Hex encoding, key formats and strict Ed25519 checks: keys, signatures and hashes are free constructors, and malformed ones are single cases.
- Automerge merges and histories: a vault document is one replica as nested ordered maps; `VaultDoc.ProjectionExactWhen` says what a foreign text does to the quota projection.
- Case-insensitive Windows paths, restarts of the application and the on-disk copy of the index: copy detection compares paths exactly and runs in one process; the forked copy of the memory file is not modelled.
- Texts are measured in characters and stand for bytes; non-ASCII percent-encoding works on bytes in the source.
- IPv6 literals: validity is a parameter of the origin model; address classification, DNS and network policy are not modelled.
- Exclusion reasons of the Standard Library and its files on disk.
- Floating point in the rate limiter: the bucket is over reals.
