# TinyDM: a verified model

TinyDM is a document store: documents with versions in a relational database (SQLite on one node,
PostgreSQL in a cluster), file contents in a content-addressed store, advisory locks and a leader
election across nodes, an audit log, rights, and a JSON API beside a web interface. This project
models the parts of it in which something can go wrong between two statements, two requests or two
nodes, and proves what they guarantee. `dafny verify dfyconfig.toml` checks all of it.

## What is modelled

**Document history.** `Documents` has the two tables and every SQL statement that
`internal/repo/store.go` runs on them; `History` says what the rows mean, one append-only log of
contents per document; `RepoStore` has the repository methods as they are written, statement by
statement, with a parameter for how each statement ends (done, refused, or carried out although the
caller saw an error). `Cluster` is the whole cluster as a step system: nodes, PostgreSQL sessions,
the advisory lock table, rows, blobs and requests in flight. Between two steps of one request any
other request may run, and any statement, unlock or node may fail. On it:

- `MutualExclusion`: the PostgreSQL locker excludes, with re-entrant sessions, pooled connections,
  colliding lock numbers and lost unlocks.
- `Lossless`: every run of API requests, with unlocked deletes and renames mixed in, refines the
  logs; nothing is ever lost or rewritten. `Provenance` says which content each kind of request
  appends.
- `References`: every storage key named by a live row, a snapshot or a request resolves to exactly
  the bytes whose size and checksum stand beside it, as long as nobody removes blobs, and exactly
  when the web delete breaks that.
- `Durability`: put together, every version of every live document can be read back at every moment
  of every API run, with the bytes of a file that was uploaded.
- `WebDelete`: the exact condition under which the web delete leaves every reference resolvable.
- `Names` and `Faults`: names stay unique in their bucket; any step may fail, and what a failure takes
  with it.
- `Answers`: what a client is told, and what that says about the history.
- `Progress`: no reachable state is deadlocked, as long as nobody outside holds a lock number that a
  waiting request needs.
- `Traces` and `UnlockedUpdates`: reachable counterexamples for what does not hold.

**Locks and leadership.** `AdvisoryLocks` is the server side, `Locker` and `Leader` are the objects
of `internal/cluster`, `Fnv` the hash that turns a key into a lock number.

**Content store.** `LocalStore` has `Put`, `Get` and `Delete` of the local store, and concurrent
`Put`s with crashes as a step system over the file system.

**Queries.** `Rebind` (placeholders), `Like` (patterns), `Audit` (filter builder and paging of the
audit log), `Paging` (limit and offset, the pager of the web pages).

**Binary parsing.** `Ole2` is the summary information parser, with Go's 64-bit arithmetic, and a
writer for the layout that it reads. `Oleps` is about the layout of [MS-OLEPS] and what the parser
makes of it.

**Rights.** `Rights` has the evaluation of rights, the rights table and the permission levels;
`Cascade` the copying of a right down a project. `Metadata` has tags and custom properties.

## Where the code and its documentation part

The model follows the code.

- The web update and the web restore take no lock. Two web updates can overwrite a version that is
  in no row afterwards (`UnlockedUpdates.WebRunLosesAVersion`).
- An API update without a file writes back the content that it loaded before it took the lock, so a
  change of name can bring an old content back (`UnlockedUpdates.NameUpdateCanRevertContent`). The
  history stays complete.
- docs/DATABASE.md:227 says that a file is never deleted while a snapshot points to it. The web
  delete removes the blob of the key that it read before the deletion, without looking who else names
  it: `WebDelete.WebDeleteIsHarmlessExactlyWhen` has the exact condition,
  `WebDelete.RestoreThenWebDeleteDangles` and `WebDelete.UpdateDuringWebDeleteDangles` have runs that
  lose the file of a snapshot.
- An update that races with a delete changes no row, and yet is answered 200 with `null`; with a new
  file from which metadata was extracted it dereferences that nil (internal/api/documents.go:259-260).
  `Answers.WriteAppendsExactlyWhenLive` and `Answers.AnswerIsNullExactlyWhenDeleted` have the exact
  conditions, `Answers.OvertakenUpdateIsAnsweredWithNull` a run. A failed or overtaken update can leave
  a second snapshot of one version, with the same content.
- `has_more` is wrong for an offset close to 2^63, which a query parameter can give because the range
  error of its conversion is ignored (`Paging.HasMoreIsRightExactlyWithoutOverflow`).
- The web pager clamps the page number it shows, the query does not clamp the page it fetches, and the
  product of page and limit can overflow (`Paging.ShownPageIsFetchedPageExactlyInRange`,
  `Paging.WrappedPageIsShown`).
- LIKE patterns are built from unescaped input. The audit filter says that its limit is capped at 500;
  a larger one gives 50 (`Audit.LimitIsCappedExactlyUpToTheMaximum`).
- docs/DEPLOYMENT.md:677 says that the leader lock is released when the connection closes.
  `conn.Close` returns the connection to the pool; the lock goes away by the unlock or with the
  session. `Stop` never clears the leader flag.
- The OLE2 parser takes the section offset from byte 0x1C. By section 2.21 of [MS-OLEPS] the FMTID
  starts there and the offset follows at 0x2C, so of a conforming summary stream shorter than
  0xF29F85E8 octets the parser returns nothing (`Oleps.SectionIsFoundExactlyWhenHuge`,
  `Oleps.WrittenTextIsLost`).
- `Local.Put` treats every error of `Stat` other than not-exist as a present file: it reports success
  and stores nothing (`LocalStore.SuccessfulPutIsStoredExactlyWhen`). Its duplicate may be deleted
  between `Stat` and return.
- README.md:330 reserves `sys.` keys; the web property form and the web delete of a property do not
  look at the prefix (`Metadata.SystemKeysAreReadOnlyExactlyWhen`).
- The PostgreSQL migrations never widened the check on `rights.principal_type`, so a right of an API
  key is refused there. The open mode depends on the order of rows that no query fixes.
- Replacing properties deletes by `NOT LIKE 'sys.%'`, which on SQLite also spares `SYS.x`, although
  the handlers reserve only keys that begin with `sys.` exactly.

## Model

| member | source | states |
|---|---|---|
| History.LogsAreReadBack | docs/DATABASE.md:225 | rows and snapshots determine the whole log: two logs that fit the same tables are equal |
| History.InsertDocumentStartsLog | internal/repo/store.go:233-243 | the INSERT of a document starts its log with the uploaded content and leaves the others alone |
| History.InsertVersionKeepsLogs | internal/repo/store.go:328-346 | a snapshot of the current version, once or many times, changes no log and archives that version |
| History.DeleteAndRenameKeepLogs | internal/repo/store.go:320-326 | soft delete and rename, which take no lock, leave every log as it is |
| History.UpdateAppends | internal/repo/store.go:305-312 | the UPDATE of an archived version appends the new content to that document's log only |
| History.UpdateIsLosslessExactlyWhenArchived | internal/repo/store.go:294-318 | after the UPDATE some log still fits the tables if and only if the version it overwrites has a snapshot |
| RepoStore.Store.constructor | internal/repo/store.go:233-243 | an empty repository |
| RepoStore.Store.GetDocument | internal/repo/store.go:245-250 | deleted and unknown documents read as nothing, live ones as their row; an error exactly when the query fails |
| RepoStore.Store.GetDocumentVersion | internal/repo/store.go:552-566 | a version is found only under the document it belongs to |
| RepoStore.Store.CreateDocument | internal/repo/store.go:233-243 | one new row at version 1, exactly when no row of that bucket has the name, deleted rows included and other buckets not; all other rows stay; nothing comes back if it is deleted before the re-read |
| RepoStore.Store.CreateDocumentVersion | internal/repo/store.go:328-346 | the snapshot is there exactly when the INSERT took effect, whatever the caller is told |
| RepoStore.Store.UpdateDocument | internal/repo/store.go:294-318 | the tables after every combination of statement endings and of a delete by somebody else between two statements; without an error the row has the new name and content and one version more, its old version is in the snapshot, all other rows and snapshots stay, and nothing comes back exactly when it was deleted meanwhile |
| RepoStore.Store.RestoreDocumentVersion | internal/repo/store.go:570-582 | an update with the archived content under the current name, or no change at all, with the same answers |
| RepoStore.Store.DeleteDocument | internal/repo/store.go:320-326 | only the deletion mark changes, unknown documents are no error |
| RepoStore.Store.RenameDocument | internal/repo/store.go:376-386 | a live row whose new name is free in its bucket keeps everything but its name, and the answer has the new name; a taken name is refused, all other rows stay |
| RepoStore.UpdateKeepsHistory | internal/repo/store.go:294-318 | however its statements end and whoever deletes the document meanwhile, an update appends its content once or not at all |
| RepoStore.RestoreUndoesUpdate | internal/repo/store.go:568-582 | update, then restore of the snapshot it took: the old content is back, two entries longer, everything before unchanged |
| RepoStore.CallIsItsSteps | internal/repo/store.go:294-318 | read, archive and write of one request, run without interruption, are the method call |
| Names.StepKeepsUnique | internal/repo/store.go:376-386 | every event of the cluster keeps names unique in their bucket |
| Names.NamesAreUnique | internal/db/migrations/001_initial_schema.sql:61 | at every point of every run two documents of one bucket have different names, deleted ones, web updates and lost answers included |
| Faults.AnyLockStepMayFail | internal/cluster/locker.go:68-91 | at every point a request may fail, its lock may be refused or lost, its unlock may not arrive and its node may crash |
| Faults.AnyStatementMayFail | internal/repo/store.go:294-318 | every statement of a request may be refused, snapshots may also be lost |
| Faults.FreeNamesMayBeWritten | internal/repo/store.go:294-318 | an UPDATE or INSERT may end in any way once its name is free in the bucket |
| Faults.CrashTakesOnlyTheNode | internal/cluster/locker.go:68-91 | a crash takes the node's requests, sessions and locks and nothing else |
| Faults.ConnectionsEndOrAreKept | internal/cluster/locker.go:84-91 | a discarded connection loses its session and its locks, a pooled one keeps them |
| Faults.IdleConnectionsMayEnd | internal/cluster/locker.go:68-91 | an idle session may end at any moment and takes its locks along |
| Faults.DeleteAndRenameTouchOneRow | internal/repo/store.go:320-326 | the cluster events of a delete and a rename change the mark or the name of one row and nothing else |
| MutualExclusion.StepKeepsSafe | internal/cluster/locker.go:68-91 | every event of the cluster keeps: sessions are not shared, and whoever is inside holds the lock |
| MutualExclusion.AtMostOneInside | internal/cluster/locker.go:68-91 | two requests inside have different lock numbers and different keys |
| MutualExclusion.MutualExclusionHolds | internal/cluster/locker.go:64-91 | at every point of every run at most one request in the cluster is inside the critical section of a key |
| MutualExclusion.KeyTextInjective | internal/api/documents.go:93-96 | no document has the lock key text of another one or of a bucket |
| MutualExclusion.SameKeyExactlyWhen | internal/api/documents.go:191-194 | two locking requests have the same key text if and only if both upload into one bucket or both are about one document; the web update and restore alone take no lock |
| Lossless.StepRefines | internal/api/documents.go:187-264 | every API event is one append to one log, one new log, or nothing |
| Lossless.ApiRunsKeepInv | internal/api/documents.go:89-313 | the invariant, including what each request in flight remembers, over every API run |
| Lossless.ApiRunsAreLossless | docs/DATABASE.md:225 | at every point of every API run the rows spell out the logs, and later logs only extend earlier ones |
| Provenance.WriteAppendsOneContent | internal/repo/store.go:305-317 | an effective UPDATE appends one entry, makes it current and adds one to the version |
| Provenance.UploadStartsWithItsFile | internal/api/documents.go:132-144 | the INSERT of an upload starts the log with the type, length, digest and key of its file |
| Provenance.FileUpdateAppendsItsFile | internal/api/documents.go:236-248 | an update with a file appends one entry, with that file's detected type, its length, its digest and the key of the digest |
| Provenance.NoFileUpdateAppendsTheLoadedVersion | internal/api/documents.go:208-219 | an update without a file appends the content of the version that was current when the request was loaded |
| Provenance.RestoreAppendsTheArchivedVersion | internal/api/documents.go:293-313 | restoring snapshot n makes entry n current, keeps all entries and adds one version |
| Provenance.NameUpdateKeepsContentExactlyWhenFresh | internal/api/documents.go:208-219 | an update without a file keeps the current content if and only if the content it loaded is still the current one |
| Provenance.NothingElseAppends | internal/api/documents.go:89-313 | no other event changes a log; only an upload starts one |
| Provenance.EveryVersionIsAFileThatArrived | docs/DATABASE.md:225 | in every API run each version of each document has the type, length, digest and key of one file that a request of the run brought |
| ContentAddress.StorageKeyInjective | internal/storage/storage.go:88 | the two-part storage key loses nothing of the digest |
| ContentAddress.KeySpellsDigest | internal/storage/storage.go:88 | the key is the digest with a slash after its second character |
| ContentAddress.PutBlobHolds | internal/storage/storage.go:78-88 | with or without deduplication, the bytes under the key are the bytes put |
| References.NamesOldContent | internal/api/documents.go:138-150 | a step names only contents that were named before, or that its Put has just stored |
| References.StepResolves | internal/api/documents.go:138-144 | every event but a blob removal keeps every reference resolvable |
| References.RunsResolve | docs/DATABASE.md:227 | in every run without blob removal every row, snapshot and request resolves to bytes of its size and checksum |
| References.RemovalIsHarmlessExactlyWhenUnnamed | internal/web/handlers.go:433-436 | removing a blob from any state keeps all references if and only if nothing names its key |
| WebDelete.WebDeleteIsTwoEvents | internal/web/handlers.go:422-438 | the web delete is the soft delete of the row and the removal of the blob of a key that was read before |
| WebDelete.RowsResolveAfterWebDeleteExactlyWhen | docs/DATABASE.md:227 | what rows and snapshots name still resolves after a web delete if and only if no other live row and no snapshot names the removed key |
| WebDelete.WebDeleteIsHarmlessExactlyWhen | internal/web/handlers.go:422-438 | all references still resolve after a web delete if and only if no other live row, no snapshot and no request in flight names the removed key |
| WebDelete.WebDeleteAfterRestoreDangles | internal/web/handlers.go:422-438 | the deletion alone is harmless; with the removal, a document whose content is also an older version's loses that version |
| WebDelete.RestoreThenWebDeleteDangles | internal/web/handlers.go:422-438 | a run with upload, update, restore and web delete at whose end a snapshot has lost its file |
| WebDelete.UpdateDuringWebDeleteDangles | internal/web/handlers.go:422-438 | a run in which an update between the read of the key and the deletion makes the web delete remove an archived file |
| Answers.WriteAppendsExactlyWhenLive | internal/repo/store.go:305-317 | an UPDATE that ends as done appends to the history if and only if the document is live at that moment |
| Answers.AnswerIsNullExactlyWhenDeleted | internal/api/documents.go:252-263 | the answer is null, or a panic if metadata was extracted from a file, if and only if the document is deleted at the re-read |
| Answers.AnswerWithABodyIsTheLastEntry | internal/api/documents.go:252-263 | an update or restore answered with a document has been appended: the answer is the last entry of the log |
| Answers.OvertakenUpdateIsAnsweredWithNull | internal/api/documents.go:252-263 | a run of API events in which an update is overtaken by a delete, changes nothing and is answered with null or panics |
| Answers.AnsweredExactlyWhenDone | internal/api/documents.go:187-263 | a request is answered at exactly the event after which it only leaves |
| Answers.RefusedExactlyWhenSomethingFailed | internal/api/documents.go:187-263 | the answer is a refusal if and only if a lock, a statement, a read or the re-read failed, or a row or version was not there |
| Durability.LogEntryReads | internal/repo/store.go:294-318 | entry n of a log is read from the row if n is current and from a snapshot with that number otherwise |
| Durability.EveryVersionCanBeReadBack | docs/DATABASE.md:225-227 | in every API run, at every moment, every version of every live document is there: its type, size and checksum are those of a file that arrived, its key spells the checksum, and under that key are the bytes of that file |
| Progress.StepKeepsNoLeak | internal/api/documents.go:93-100 | while unlocks arrive, every advisory lock is held once, by a request inside its critical section |
| Progress.Finish | internal/api/documents.go:191-198 | a request with nobody in its way runs to its end |
| Progress.BlockedStaysBlocked | internal/cluster/locker.go:80-83 | a request that has yet to take a lock number held outside stays in flight in every continuation |
| Progress.NoReachableStateIsStuckExactlyWhen | internal/api/documents.go:93-100 | from a state reached with clean unlocks all requests in flight can finish if and only if none of them has yet to take a lock number that somebody outside keeps |
| Progress.NothingWaitsForTheLeader | internal/cluster/leader.go:88-112 | nothing is stuck, with or without a leader, as long as no document or bucket has the leader's lock number |
| Traces.LateUpdateReached | internal/api/context.go:132-149 | a run of API events in which an update is about to write a version that is no longer current |
| Traces.RacingReached | internal/web/handlers.go:825-852 | a run in which two web updates have read the same row |
| Traces.OvertakenByDeleteReached | internal/api/documents.go:267-274 | a run of API events in which an update has archived the current version of a document deleted since |
| Traces.RestoredReached | internal/api/documents.go:293-313 | a run of API events at whose end a snapshot and the current row have the same content |
| UnlockedUpdates.InterleavedUpdatesLoseAVersion | internal/repo/store.go:294-318 | two interleaved updates leave tables that no log fits, for every document and all contents |
| UnlockedUpdates.WebUpdatesLoseAVersion | internal/web/handlers.go:829-875 | from every state in which two web updates have read the same row, they can do so |
| UnlockedUpdates.WebRunLosesAVersion | internal/web/handlers.go:829-875 | such a run exists from the empty database |
| UnlockedUpdates.NameUpdateCanRevertContent | internal/api/documents.go:208-252 | a reachable state in which a change of name brings an old content back |
| AdvisoryLocks.UnlockUndoesLock | internal/cluster/locker.go:73-90 | lock and unlock on one session cancel, re-entrant or not |
| AdvisoryLocks.LostUnlockShutsOutExactlyTheOthers | internal/cluster/locker.go:84-89 | a lost unlock blocks every other session and lets the pooled session itself in again |
| AdvisoryLocks.LockServer.constructor | internal/cluster/locker.go:80 | no lock is held at first |
| AdvisoryLocks.LockServer.AdvisoryLock | internal/cluster/locker.go:80 | the session holds the lock once more than before, and no other lock changes |
| AdvisoryLocks.LockServer.TryAdvisoryLock | internal/cluster/leader.go:97-99 | the answer is yes exactly when no other session holds the lock, and then this one does |
| AdvisoryLocks.LockServer.AdvisoryUnlock | internal/cluster/locker.go:88 | the session still holds the lock exactly if it held it more than once; without holding it nothing changes, and no other lock does |
| AdvisoryLocks.LockServer.EndSession | internal/cluster/locker.go:68-91 | no lock of the session is left and no other lock changes |
| Locker.PGLocker.constructor | internal/cluster/locker.go:61-63 | no connection is in use at first |
| Locker.PGLocker.Lock | internal/cluster/locker.go:68-83 | on success the lock of the key's number is held on a connection of its own; on failure the connection goes back, with the lock if the server had granted it |
| Locker.Unlocker.constructor | internal/cluster/locker.go:84-91 | the closure remembers number and connection |
| Locker.Unlocker.Unlock | internal/cluster/locker.go:84-89 | one release of that number by that connection, which is free again even if the release was lost |
| Locker.CriticalSection | internal/cluster/locker.go:64-91 | lock, then unlock, leaves server and pool as they were |
| Fnv.KeyToInt64 | internal/cluster/locker.go:98-102 | the loop computes the fold over the octets, and the signed 64-bit number that is congruent to it |
| Fnv.PublishedVectors | internal/cluster/locker.go:94-102 | order, prime and basis of the fold are those of FNV-1a: it gives the published 64-bit values of the empty string and of "a" |
| Fnv.StepInjective | internal/cluster/locker.go:98-102 | a hash step is a bijection in the state and injective in the octet |
| Fnv.FoldInjective | internal/cluster/locker.go:98-102 | equal suffixes never make two different states equal |
| Fnv.OneOctetSeparates | internal/cluster/locker.go:94-102 | keys of equal length that differ in one octet have different lock numbers |
| Leader.PGLeaderElector.constructor | internal/cluster/leader.go:78-84 | a new elector is no leader and has no connection |
| Leader.PGLeaderElector.Start | internal/cluster/leader.go:88-112 | leader exactly if the lock was won; a failed start keeps pointing at the closed connection, and may leave the lock on its session |
| Leader.PGLeaderElector.Tick | internal/cluster/leader.go:149-166 | a tick tries only while not leader and becomes leader only with the lock |
| Leader.PGLeaderElector.Stop | internal/cluster/leader.go:116-130 | a leader unlocks, the connection goes back to the pool, the flag stays |
| Leader.StepKeepsSafe | internal/cluster/leader.go:88-167 | every event keeps: a leader's own session holds the lock, and sessions are not shared |
| Leader.AtMostOneLeader | docs/DEPLOYMENT.md:677 | at every point of every run at most one node that has not given up the lock calls itself leader, and it holds the lock |
| Leader.TakenStaysTaken | internal/cluster/leader.go:154-163 | while someone else holds the lock a round of ticks changes nothing |
| Leader.OneRoundElects | docs/DEPLOYMENT.md:677 | with the lock free, one round of successful ticks in any order makes exactly the first node leader |
| Leader.StopFreesTheLockExactlyWhen | internal/cluster/leader.go:120-129 | a stopping leader frees the lock if and only if its session ends, or the unlock arrives and the lock was held once |
| Leader.StoppedLeaderStillClaims | internal/cluster/leader.go:116-132 | after Stop the old leader and its successor both answer IsLeader with true |
| Leader.TwoClaimsReached | internal/cluster/leader.go:116-132 | a run at whose end a stopped node and the leader both answer IsLeader with true |
| LocalStore.Local.constructor | internal/storage/storage.go:38-45 | an empty store |
| LocalStore.EveryReaderCutsSomething | internal/storage/storage.go:64 | whatever chunks a reader delivers, they are one byte string in pieces |
| LocalStore.Local.Copy | internal/storage/storage.go:64 | after the last chunk the temporary file and the hash have had exactly the byte string that was cut into the chunks, in its order |
| LocalStore.Local.Put | internal/storage/storage.go:47-89 | for every byte string, every cut of it into chunks and every fault: success exactly when each needed call works, then its length, its digest and the digest with a slash after two characters, and the bytes in place if Stat answered; a Stat that fails otherwise is taken for a present file; the temporary file goes |
| LocalStore.SuccessfulPutIsStoredExactlyWhen | internal/storage/storage.go:78-88 | after a success the bytes are under the key if and only if Stat answered or the file was there |
| LocalStore.UnansweredStatLosesTheFile | internal/storage/storage.go:78-88 | on an empty store an unanswered Stat is a success that stores nothing, for all data |
| LocalStore.Local.Get | internal/storage/storage.go:92-102 | an opened file is the one under the key, whose bytes then have the digest that the key spells; not-found exactly when there is none |
| LocalStore.Local.Delete | internal/storage/storage.go:105-111 | only that key goes; a missing file is no error |
| LocalStore.PutThenGet | internal/storage/storage.go:47-102 | for every byte string and every cut of it into chunks: after a success Get returns that byte string if and only if Stat answered or the file was there, and not-found otherwise; older files keep theirs |
| LocalStore.StepIsAtomic | internal/storage/storage.go:78-86 | seen from outside, the events of a Put change nothing until one of them does what a whole Put does |
| LocalStore.VisibleFilesAreComplete | internal/storage/storage.go:47-89 | in every state of any number of concurrent Puts and crashes a visible file hashes to its name |
| LocalStore.VisibleContentStays | internal/storage/storage.go:78-86 | visible content never changes, only Delete removes it |
| LocalStore.SettledPutIsReadable | internal/storage/storage.go:78-102 | from the moment a Put settles its bytes are readable until someone deletes the key |
| LocalStore.LostPutReached | internal/storage/storage.go:78-88 | a run of one Put that finishes with success and leaves no file |
| Rebind.Rebind | internal/db/db.go:32-41 | the loop numbers the placeholders for PostgreSQL and leaves SQLite queries alone |
| Rebind.ValueOfDigits | internal/db/db.go:36 | the decimal digits of the counter read back as the counter |
| Rebind.DecimalDigits | internal/db/db.go:36 | digits are decimal, most significant first |
| Rebind.NumberingIsReversibleExactlyWhenSeparated | internal/db/db.go:29-41 | turning every `$k` back into `?` gives the query again if and only if no `?` and no `$` is followed by a digit |
| Rebind.NumberingPreservesMeaning | internal/db/db.go:29-41 | binding by number in the rebound query is binding by position in the original, for every argument list |
| Rebind.MeaningIsPreservedExactlyWhenSeparated | internal/db/db.go:29-41 | binding by number agrees with binding by position for all argument lists if and only if no `?` and no `$` is followed by a digit |
| Like.PlainPrefix | internal/audit/store.go:92-95 | for a prefix without special characters, `prefix%` accepts exactly the strings that start with it, up to the backend's case folding |
| Like.PlainContains | internal/repo/store.go:271-284 | for a query without special characters, `%q%` accepts exactly the names that contain it, up to case folding |
| Like.PrefixPatternMeansPrefixExactlyWhenPlain | internal/audit/store.go:92-95 | the prefix pattern means prefix for all strings if and only if the input has no special character |
| Like.SearchPatternMeansSubstringExactlyWhenPlain | internal/repo/store.go:271-284 | the search pattern means substring for all names if and only if the input has no special character |
| Like.UnderscoreIsOneCharacter | internal/repo/store.go:271-284 | without percent signs and escapes a pattern accepts the strings of its length that agree outside its underscores |
| Like.PercentIsAnyRun | internal/repo/store.go:271-284 | a percent sign accepts any run of characters |
| Like.BackslashEscapes | internal/repo/store.go:271-284 | a backslash makes the next character ordinary on PostgreSQL and is ordinary on SQLite |
| Like.CaseFolding | internal/repo/store.go:271-284 | SQLite takes ASCII letters that differ in case for the same, and no others; PostgreSQL none |
| Paging.ValidLimit | internal/repo/store.go:92-103 | no limit is 50, a limit above 500 is 500, those in 1..500 stay |
| Paging.ValidOffset | internal/repo/store.go:92-103 | offsets are not negative |
| Paging.Slice | internal/repo/store.go:259-262 | LIMIT and OFFSET as a slice: the rows at those places, and short only at the end |
| Paging.HasMoreIsRightExactlyWithoutOverflow | internal/api/handler.go:69-79 | has_more is right if and only if offset plus limit fits 64 bits |
| Paging.WalkApi | internal/api/handler.go:37-79 | following has_more from offset 0 gives every row once, in order, in max(1, ceil(total/limit)) requests |
| Paging.NewPager | internal/web/handlers.go:57-81 | the page shown lies in 1..totalPages and is the one asked for if that does; the previous and the next link are there exactly after the first and before the last page |
| Paging.WebPage | internal/web/handlers.go:57-90 | one list request in range: the rows of that page, and the next link exactly before the last page |
| Paging.WalkWeb | internal/web/handlers.go:57-90 | following the next links from page 1 gives every row once, in order |
| Paging.ShownPageIsFetchedPageExactlyInRange | internal/web/handlers.go:57-90 | the page fetched is the page shown if and only if the requested page is not past the last, or its 64-bit product with the limit comes back to the offset shown; without overflow, only in range |
| Paging.WrappedPageIsShown | internal/web/handlers.go:84-90 | page 2^58 + 1 of 64 rows each: the offset wraps to 0 and a list of one page is shown as asked |
| Audit.NewestFirstSorts | internal/audit/store.go:126-130 | the listing order is a rearrangement of the rows, newest first |
| Audit.AcceptedAreThoseThatPass | internal/audit/store.go:84-114 | what the filter selects are exactly the rows that pass each of the five set fields |
| Audit.ClauseTexts | internal/audit/store.go:84-112 | the seven clauses, word for word |
| Audit.PageQueryText | internal/audit/store.go:126-131 | the page query is the count query with newest first, LIMIT and OFFSET, in this order |
| Audit.StarMeansPrefixExactlyWhenPlain | internal/audit/store.go:91-100 | a trailing star means prefix for all actions if and only if the prefix has no LIKE special character |
| Audit.BuildAction | internal/audit/store.go:91-100 | the action branch adds the clause and the argument for exactly the action filter |
| Audit.BuildTimes | internal/audit/store.go:105-112 | likewise for the two time bounds |
| Audit.BuildWhere | internal/audit/store.go:84-114 | clause and arguments accept exactly the events that pass every set field, with one placeholder per argument |
| Audit.PageQueryRebinds | internal/audit/store.go:114-131 | the page query has two placeholders more, and rebinding keeps its meaning |
| Audit.SelectIsAccepted | internal/audit/store.go:114-131 | any clause that accepts like the filter selects exactly the accepted rows |
| Audit.ScanRows | internal/audit/store.go:133-148 | the scan loop returns the rows it was given, in order |
| Audit.List | internal/audit/store.go:74-149 | total is the number of passing events and the page is the requested slice of them, newest first; every event on it passes principal, action, resource and both time bounds, each in its own words |
| Audit.LimitIsCappedExactlyUpToTheMaximum | internal/audit/store.go:68-79 | a positive limit is capped at 500 as documented if and only if it is at most 500; a larger one gives 50 |
| Ole2.ReadLE32 | internal/meta/extractor.go:281-286 | four octets, least significant first, without overflow |
| Ole2.TrimRight | internal/meta/extractor.go:306 | all trailing NULs go, nothing else |
| Ole2.ReadString | internal/meta/extractor.go:294-306 | the string that an entry leads to, if its offsets and type are valid |
| Ole2.ReadEntry | internal/meta/extractor.go:293-313 | the loop body turns the last strings among i entries into those among i + 1 |
| Ole2.ParseSummaryInfo | internal/meta/extractor.go:277-316 | on any bytes: no index out of range, no overflow, and the last valid strings with the identifiers 2 and 4 among the first min(count, 64) entries |
| Ole2.ParserReadsLayout | internal/meta/extractor.go:277-316 | on any stream in the layout that the code reads, the last title and author texts are found, in any entry order |
| Ole2.EncodeIsLaidOut | internal/meta/extractor.go:281-305 | what the writer writes is in that layout |
| Ole2.TrimNulUndoesPadding | internal/meta/extractor.go:306 | trimming takes off exactly the padding of a string without trailing NUL |
| Ole2.ParserReadsWhatWasWritten | internal/meta/extractor.go:277-316 | round trip: the parser returns the string written, with any padding and among other properties |
| Oleps.SectionIsFoundExactlyWhenHuge | internal/meta/extractor.go:278-284 | in a summary information stream of section 2.21 of [MS-OLEPS] the parser finds a section if and only if the stream has at least 0xF29F85E8 octets, and returns nothing otherwise |
| Oleps.ConformingTextIsFoundExactlyWhenEmpty | internal/meta/extractor.go:277-316 | of a conforming stream below that length the parser returns what it says if and only if it says nothing; the loop started at the offset of 0x2C would return it |
| Oleps.WriterConforms | internal/meta/extractor.go:277-316 | what the conforming writer writes conforms, with its length |
| Oleps.WrittenTextIsLost | internal/meta/extractor.go:277-316 | every string written into a conforming stream below four gigabytes is lost |
| Oleps.OneTitleIsLost | internal/meta/extractor.go:277-316 | the 73-octet stream with the title "A", whose title is lost |
| Rights.ExplicitNeedsOneGrant | internal/auth/rbac.go:78-91 | explicit mode says yes exactly when some row for the resource or `*` grants the action |
| Rights.ExplicitIsMonotone | internal/auth/rbac.go:78-91 | more rows never take an access away, and order and repetition do not matter |
| Rights.OneRowPermitsItsFlags | internal/auth/rbac.go:93-105 | one row about the resource or `*`, in either mode: each of the four actions is permitted by its own flag, and no other action |
| Rights.OneRowPermitsItsLevel | internal/web/handlers.go:1407-1422 | in either mode a level permits exactly {read}, {create, read}, {create, read, update} or all four actions, and any other level nothing |
| Rights.OpenIsTheFirstMatchingRow | internal/auth/rbac.go:63-74 | in open mode the first row about the resource or `*` decides, flag by flag |
| Rights.OtherRowsDecideNothing | internal/auth/rbac.go:63-91 | a row about another resource or type leaves explicit mode at no and open mode at yes |
| Rights.AdministratorsMayDoEverything | internal/auth/rbac.go:48-51 | an administrator may do everything, whatever rows and mode |
| Rights.OpenFollowsSomeRow | internal/auth/rbac.go:63-74 | open mode follows some row about the resource, and says yes if there is none |
| Rights.OpenImpliesExplicitOnceARowMatches | internal/auth/rbac.go:63-91 | with a matching row, open mode grants nothing that explicit mode does not |
| Rights.OpenIgnoresOrderExactlyWhenRowsAgree | internal/auth/rbac.go:61-74 | open mode gives the same answer for every order of the rows if and only if the matching rows agree |
| Rights.CanIsWellDefinedExactlyWhen | internal/auth/rbac.go:48-59 | the answer is the same for every order of the rows if and only if the principal is an administrator, the mode is not open, or the matching rows agree |
| Rights.DisplayedLevelIsTrueExactlyWhenHierarchical | internal/web/handlers.go:1436-1449 | the level displayed claims exactly the flags of the row if and only if they form a level, and never less than they grant |
| Rights.StoredLevelIsDisplayed | internal/web/handlers.go:1407-1449 | whatever level the form sends is stored as a level and displayed as that level |
| Rights.AuthStore.constructor | internal/auth/store.go:413-435 | an empty rights table |
| Rights.AuthStore.UpsertRight | internal/auth/store.go:413-435 | the row of that principal and resource has these flags and all others stay, or the failure or the constraint, which on PostgreSQL refuses API keys, left the table alone |
| Rights.AuthStore.DeleteRight | internal/auth/store.go:439-454 | that row goes; a missing row is an error |
| Rights.AuthStore.GetUserRights | internal/auth/store.go:364-382 | each row of the user and of the groups that contain the user once, and no others, in no particular order |
| Rights.ExplicitReadsTheTable | internal/auth/store.go:362-382 | whatever the order of the rows, explicit mode decides by the contents of the table |
| Cascade.CascadeDocuments | internal/web/handlers.go:1387-1392 | the inner loop is one upsert per listed document, in order, going on after failures |
| Cascade.CascadeBucket | internal/web/handlers.go:1381-1393 | the bucket's own row first, then its documents |
| Cascade.CascadeBuckets | internal/web/handlers.go:1381-1393 | the outer loop is the upserts of each listed bucket in order |
| Cascade.CascadeBucketRight | internal/web/handlers.go:1397-1405 | the same loop for one bucket, without a row for it |
| Cascade.CascadeProjectRight | internal/web/handlers.go:1379-1394 | the nested loops are those upserts, for every listing and every failure |
| Cascade.CascadeWritesWhatLanded | internal/web/handlers.go:1379-1405 | whatever fails, a row has the base flags if an upsert of it landed and is unchanged otherwise |
| Cascade.ProjectTargetsAre | internal/web/handlers.go:1379-1394 | the rows upserted are those of the listed buckets and of their listed documents |
| Cascade.CascadeSetsExactlyTheReachedRows | internal/web/handlers.go:1378-1394 | with complete listings and successful upserts exactly the first 500 buckets and the first 500 documents of each get the base flags |
| Cascade.CascadeGrantsTheBaseLevel | internal/web/handlers.go:1378-1394 | on all of those, explicit mode grants every action of the base level, and otherwise only what other rows of that user grant |
| Cascade.ReachedInNumbers | internal/web/handlers.go:1378-1394 | reached are the rows of that principal for the first 500 buckets and the first 500 documents of each |
| Cascade.CascadedLevelPermitsOnDocuments | internal/web/handlers.go:1378-1422 | a cascaded level permits on what it reaches exactly the actions of that level, to a user with no other row there |
| Cascade.FirstPageIsTheSmallestNames | internal/repo/store.go:252-269 | a document is in the first page if and only if fewer than 500 documents of the bucket have smaller names |
| Metadata.UpsertEach | internal/repo/store.go:719-726 | the loop over a map upserts every pair, whatever the order, or stops at the first failure |
| Metadata.MetadataStore.constructor | internal/repo/store.go:585-640 | no tags and no properties |
| Metadata.MetadataStore.SetDocumentTags | internal/repo/store.go:620-640 | all non-empty tags replace the old ones, or a failure at any statement leaves all tags as they were |
| Metadata.MetadataStore.SetDocumentProperties | internal/repo/store.go:708-728 | reserved old keys plus the new properties, for every iteration order, or the old state if any statement fails |
| Metadata.MetadataStore.MergeDocumentProperties | internal/repo/store.go:732-750 | an upsert of all pairs or of none; nothing happens for no pairs |
| Metadata.MetadataStore.ListDocumentTags | internal/repo/store.go:587-603 | each tag once, in collation order |
| Metadata.MetadataStore.Clean | internal/api/tags.go:59-65 | the loop keeps exactly the trimmed non-empty tags |
| Metadata.MetadataStore.ReplaceTags | internal/api/tags.go:41-79 | 200 exactly with a lock, a body, a transaction of one statement more than non-blank tags that works, and a read-back, then with the sorted list; the tags become the trimmed non-empty ones exactly when such a transaction is kept, and are the old ones otherwise |
| Metadata.MetadataStore.WithoutReserved | internal/api/properties.go:56-62 | the loop drops exactly the keys that begin with `sys.` |
| Metadata.MetadataStore.ReplaceProperties | internal/api/properties.go:41-73 | 200 exactly with a lock, a body, a transaction of one statement more than unreserved pairs that works, and a read-back; the properties become the reserved old ones plus the unreserved submitted ones exactly when such a transaction is kept, and are the old ones otherwise |
| Metadata.MetadataStore.SetProperty | internal/api/properties.go:77-96 | a reserved key is refused, any other is one upsert |
| Metadata.MetadataStore.DeleteProperty | internal/api/properties.go:99-111 | a reserved key is refused, any other is deleted |
| Metadata.MetadataStore.SetPropertyWeb | internal/web/handlers.go:1013-1045 | the trimmed key gets the value, reserved or not; an empty key is refused |
| Metadata.MetadataStore.DeletePropertyWeb | internal/web/handlers.go:1047-1056 | the key is deleted, reserved or not |
| Metadata.TrimSpaceLeavesTheMiddle | internal/api/tags.go:61 | trimming takes all space off both ends and nothing else |
| Metadata.SpaceCharacters | internal/api/tags.go:61 | which characters are space, and that visible ASCII, zero-width and format characters are not |
| Metadata.CleanTagsAreTheTrimmedOnes | internal/api/tags.go:58-65 | a tag is stored exactly when it is not empty, has no space at its ends and was submitted between spaces |
| Metadata.ReservedMeans | internal/repo/store.go:715-717 | `sys.%` spares every `sys.` key, on PostgreSQL exactly those, on SQLite also other letter cases |
| Metadata.ReplaceIsAsPromisedExactlyWhen | internal/api/properties.go:38-73 | the result is old `sys.` keys plus the filtered body if and only if no other old key, absent from the body, is taken for a reserved one |
| Metadata.OldKeyInCapitalsSurvives | internal/repo/store.go:715-717 | the property `SYS.x` survives a replacement by nothing on SQLite |
| Metadata.CallKeepsSystemKeysExactlyWhen | README.md:330 | a request leaves the `sys.` keys alone if and only if it is not a web request that writes a new value to one or deletes one that is there |
| Metadata.SystemKeysAreReadOnlyExactlyWhen | README.md:330 | over any sequence of requests the `sys.` keys are at every moment what they were if and only if none of them is such a web request |
| Metadata.ApiKeepsSystemKeys | internal/api/properties.go:38-111 | no sequence of API requests adds, changes or removes a `sys.` key, whichever of them fail |
| Metadata.WebWritesReservedKeys | internal/web/handlers.go:1013-1056 | the web form writes `sys.x` and the web delete takes it away |

## Left out

- Session loss: the session that carries a running request's lock, or a running elector's lock, is
  assumed to live as long as its process; network partitions and tick timing are not modelled.
- A statement still running on the server after its node has crashed is an effect before the crash, and
  one that a live handler gave up on takes effect, if at all, before that handler unlocks: an UPDATE that
  arrives after the unlock would lose a version, as in UnlockedUpdates.InterleavedUpdatesLoseAVersion.
- Cluster takes storage.Put as one event; LocalStore.StepIsAtomic is what justifies that. It assumes that
  Stat answers; LocalStore.SuccessfulPutIsStoredExactlyWhen says what happens otherwise.
- A crash in LocalStore is that of the process: the code never syncs, so files lost by a crash of the
  machine are not modelled.
- SHA-256 is a parameter: 64 characters, and no two byte strings with the same digest.
- Progress.NoReachableStateIsStuckExactlyWhen: assumes that unlocks arrive and that the pool can always
  open a connection; NoOpLocker, which locks nothing, has no theorem.
- The handlers around the modelled steps: multipart parsing, content-type detection, file name
  sanitising, created_by and time stamps, and the web upload, whose row step is that of the API upload.
- NameUpdateCanRevertContent: one run with its own names and contents; NameUpdateKeepsContentExactlyWhenFresh has the general condition.
- wrapConstraint, which recognises only SQLite's message, so that PostgreSQL conflicts answer 500.
- S3, Azure and Google Cloud stores; password, JWT and API-key cryptography; HTTP routing, templates
  and security headers; migrations, configuration, health checks, logging and generated row mapping.
- Image, PDF, OOXML, audio and video extraction, which wrap libraries.
- cluster_nodes rows, which lag behind the lock and carry no guarantee.
- Audit.List: the two queries succeed; the detail column and the column list are not part of the text modelled;
  comparing time stamps is a parameter that is a total preorder.
- Paging.WalkApi: for tables of at most 2^63 - 1 - 500 rows.
- Paging.WalkWeb: for tables of at most 2^63 - 1 - limit rows, as are the other lemmas about the pager.
- Ole2.ParseSummaryInfo: for inputs whose length is a Go int, as every slice's is.
- Rights.Can: the ancestors argument, which the code ignores; row ids of the rights table.
- Metadata: the lock around the replace handlers is a parameter that says whether it was obtained;
  Cluster has those handlers as lock holders. Adding and removing a single tag are one statement each.
- Cascade: bucket and document listings are taken in the order of ORDER BY name; the database's
  collation is not modelled.
