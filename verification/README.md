# Verification of signond's state machines

signond is a single sign-on daemon: it queues authentication requests for
plugins, keeps identities and secrets in two databases, holds the secrets on an
encrypted file system opened by keys, and backs the storage up. This project
models those parts of it, and the client's call queue, in Dafny, and proves what
they keep over whole runs.

`dafny verify dfyconfig.toml` checks the whole project.

## How the models are built

Each state machine appears twice. The step functions and run lemmas of a module
work on values; beside them stand classes with the source's fields, whose methods
change those fields in place, with the source's loops and early exits, and are
each proved to make exactly the step of the value model. What happens outside the
process (a plugin that starts or not, a LUKS header that opens or not, a commit, a
file copy) is an outcome passed in, and the theorems hold for every outcome.

The table below names, of the methods, those with loops or an invariant to keep.
The other methods of these classes are straight-line code, each proved to be the
step function its contract names.

| file | part of the daemon |
|---|---|
| `SessionQueue.dfy` | the authentication request queue and the plugin proxy's gate |
| `SessionRegistry.dfy` | the registries of session cores |
| `Disposables.dfy` | the collection of unused objects, which re-enters itself |
| `MetaDataTables.dfy`, `MetaDataProofs.dfy`, `MetaDataDb.dfy` | the metadata database: tables and statements, what updates achieve, the database object |
| `SecretsStore.dfy`, `SecretsCache.dfy`, `CredentialsDb.dfy` | the secrets tables, the cache in front of them, the objects that route between the two |
| `SecureStorage.dfy`, `SecureStorageObjects.dfy` | mounting in stages, keys and slots, and the secrets database in step with the mount |
| `Backup.dfy` | backup and restore with rollback |
| `AsyncProxy.dfy` | the client's pending calls and subscriptions |
| `BlobIO.dfy` | paging of session data |
| `Mechanisms.dfy` | mechanism filtering |
| `Common.dfy` | optional values and lists, shared by the others |

## Where the code differs from what it promises

The models follow the code. Where a promise fails, a lemma gives the exact
condition under which it holds, and usually a concrete run in which it does not.

- A cancelled request can be answered twice: `startNewRequest` clears the
  cancellation mark before it looks whether a request is active
  (`SessionQueue.ExactlyOneReply`, `SessionQueue.RestartAnswersTwice`).
- A crash report between a cancelled request and the posted restart removes the
  next request without a reply (`SessionQueue.AtLeastOneReply`,
  `SessionQueue.BrokenPipeLosesRequest`).
- A core with waiting requests can be collected, and the requests go unanswered
  (`SessionQueue.AtLeastOneReply`, `SessionQueue.TakesAlongExactly`,
  `SessionQueue.CollectedUnanswered`).
- Moving a core from one stored id directly to another leaves it registered twice
  (`SessionRegistry.SetIdExactly`, `SessionRegistry.MovedCoreAnswersToBoth`).
- An object that refuses to be destroyed is taken off the list of disposable
  objects all the same; what left the list was destroyed if and only if it did not
  refuse (`Disposables.Collector.DestroyUnused`, `SessionQueue.RefusesExactly`,
  `SessionQueue.IdleCoreRefuses`).
- Updating an identity that is not there can leave owner rows, which a later
  identity inherits with the id (`MetaDataProofs.RoundTrip`,
  `MetaDataProofs.StrayOwner`).
- An oversize blob cached after a smaller one loses both, and a login without a
  stored password reaches the store only by way of the cache
  (`SecretsCache.ClosedAgreesExactly`, `SecretsCache.FlushBlob`,
  `SecretsCache.OversizeBlobHidesEarlierOne`).
- A flush empties the cache although some of its statements failed
  (`SecretsCache.FailedFlushExactly`).
- A removed identity can come back from the cache (`SecretsCache.RemovedComesBackExactly`,
  `SecretsCache.RemovedComesBack`).
- `removeEncryptionKey` reports success whether or not a slot was freed
  (`SecureStorage.RevokedSlotExactly`, `SecureStorage.RevokedKeyOpensExactly`).
- A key revoked and inserted again under its own mount counts as authorised
  (`SecureStorage.RunsKeepInvExactly`, `SecureStorage.ReinsertedKeyHasNoSlot`).
- Keychain entries are numbered by their count, so an addition after a removal can
  overwrite a key (`SecureStorage.AddKeepsOthers`, `SecureStorage.KeychainForgets`).
- The slot for the last authorised key reads the database object without a check
  (`SecureStorage.LastKeySlotExactly`, `SecureStorage.UnopenedSystemCannotLoseLastKey`,
  `SecureStorage.ClosedSystemCannotLoseLastKey`).
- A backup deletes the container of the secrets, which is named by its full path, has
  no copy of it, and reports success; no restore brings it back
  (`Backup.BackupThenRestore`, `Backup.ContainerIsLost`).
- A failed restore leaves the copies of files with absolute names behind
  (`Backup.FailedRestoreExactly`, `Backup.FailedRestoreKeepsCopy`).
- A leftover aside file keeps a file from being replaced by its missing backup
  (`Backup.RestoreMatchesBackupExactly`, `Backup.InterruptedRestoreShieldsFile`).
- Cancelling a call made while the proxy is invalid, or cancelling twice, makes it
  finish twice (`AsyncProxy.CancelExactly`, `AsyncProxy.CancelledWhileInvalid`).
- So does an error slot that cancels another waiting call while calls fail
  (`AsyncProxy.FailureExactly`, `AsyncProxy.CancelledWhileFailing`).
- The comment on single mechanisms at `src/signond/signonidentityinfo.cpp:106`
  does not hold for a padded one (`Mechanisms.PassesExactly`,
  `Mechanisms.PaddedMechanismIsRejected`).

## Model

| member | source | states |
|---|---|---|
| `SessionQueue.SessionCore.CancelRequest` | src/signond/signonsessioncore.cpp:254-299 | the first request with the key is answered as cancelled; the active head is only marked and stays, any other request leaves; an unknown key changes nothing |
| `SessionQueue.FindKey` | src/signond/signonsessioncore.cpp:258-264 | the position of the first request with the key, or the length when there is none |
| `SessionQueue.RunsAreOrdered` | src/signond/signonsessioncore.cpp:237-299 | in every run: at most one request is active, it is the head and the one last handed to the plugin, and collection is off meanwhile; what was handed over followed by what waits is every arrival in order, minus those that left before starting |
| `SessionQueue.StepKeepsOrder` | src/signond/signonsessioncore.cpp:895-922 | every single event keeps that invariant |
| `SessionQueue.StepSimulates` | src/signond/signonsessioncore.cpp:254-299 | every event moves each message, the replies sent on it with their kinds, and its mark exactly as the message's own small machine says |
| `SessionQueue.ExactlyOneReply` | src/signond/signonsessioncore.cpp:254-299 | at the end of any run with nothing active, every message that left was answered exactly once and no other was, if and only if the run had none of three named missteps and left no request behind in a destroyed core |
| `SessionQueue.AtLeastOneReply` | src/signond/signonsessioncore.cpp:542-554 | over every run, no request leaves unanswered if and only if no terminal event meets a stale cancellation mark with no request active, and none is left behind in a destroyed core |
| `SessionQueue.SpoiledForGood` | src/signond/signonsessioncore.cpp:254-299 | a wrong number of replies is never repaired by later events |
| `SessionQueue.GatedRunsAreSafe` | src/signond/pluginproxy.cpp:345-422 | while the plugin's pipe holds, the gate is shut whenever no request is active, dialogs belong to the active uncancelled request, and results only answer requests that were handed over |
| `SessionQueue.GatedRunsAnswer` | src/signond/pluginproxy.cpp:345-422 | so in such runs every departing request gets a reply, if and only if none is left behind in a destroyed core |
| `SessionQueue.RepliesExactly` | src/signond/signonsessioncore.cpp:779-802 | over every run, a message got a reply of some kind, if and only if an event of the run sends it: cancelled for a cancellation, the plugin's result or failure, a crash as a failure, and a refusal for a request that could not be started |
| `SessionQueue.OneReplyTells` | src/signond/signonsessioncore.cpp:542-625 | without missteps the one reply of a message that left tells what became of it |
| `SessionQueue.TerminalExactly` | src/signond/signonsessioncore.cpp:542-625 | a result, an error or a crash answers the unmarked head by the kind that fits, closes its dialog, takes it out and posts a restart; a marked one goes silently |
| `SessionQueue.ResponseExactly` | src/signond/pluginproxy.cpp:356-436 | every other response does nothing behind a shut gate; otherwise a store gets through, an allowed dialog or a refresh opens one for an unmarked head, and nothing else changes |
| `SessionQueue.DialogCloses` | src/signond/signonsessioncore.cpp:840-893 | a dialog that was answered is out of the way, and nothing else has changed |
| `SessionQueue.NeverStalls` | src/signond/signonsessioncore.cpp:895-947 | while the pipe holds and the credentials system is ready, whenever requests wait and none is active a restart is posted: no wake-up is lost |
| `SessionQueue.AbandonLeavesBehind` | src/signond/signonsessioncore.cpp:924-941 | requests are left behind at the end of a run, if and only if the core was destroyed at a moment when some waited |
| `SessionQueue.RestartAnswersTwice` | src/signond/signonsessioncore.cpp:895-899 | a concrete ordinary run in which a posted restart clears the mark and the cancelled request is answered twice |
| `SessionQueue.BrokenPipeLosesRequest` | src/signond/pluginproxy.cpp:450-465 | a concrete run in which a crash report takes a request out without any reply |
| `SessionQueue.OnlyActiveStores` | src/signond/pluginproxy.cpp:356-362 | in such runs the plugin stores data only while a request is active |
| `SessionQueue.TakesAlongExactly` | src/signond/signonsessioncore.cpp:924-930 | at any point of any run, collecting the core takes waiting requests along unanswered, if and only if it is there, some wait, none is active, no dialog is watched, and no request was started since a restart last found the queue empty |
| `SessionQueue.TakenAlongArrivedLate` | src/signond/signonsessioncore.cpp:237-252 | while the pipe holds, such requests arrived after the last restart ran, and with none posted none of them found the credentials system ready |
| `SessionQueue.CollectedUnanswered` | src/signond/signonsessioncore.cpp:250-251 | a concrete run: a request made before the credentials system is ready is collected unanswered |
| `SessionQueue.RefusesExactly` | src/signond/signonsessioncore.cpp:926-930 | while the pipe holds, a core that may be collected refuses, if and only if the answer to a dialog is still on its way |
| `SessionQueue.IdleCoreRefuses` | src/signond/signonsessioncore.cpp:840-893 | a concrete run: the result overtakes the answered dialog, and the idle core refuses to be destroyed |
| `SessionRegistry.SessionNameInjective` | src/signond/signonsessioncore.cpp:69-72 | different pairs of id and method have different names |
| `SessionRegistry.FindsTheLiveCore` | src/signond/signonsessioncore.cpp:108-137 | asking for a stored id and method yields the live core that has them; if there is none, and always without a stored id, a new core is made and registered, or nothing changes when the plugin cannot be loaded |
| `SessionRegistry.OneCoreEach` | src/signond/signonsessioncore.cpp:114-118 | two live cores never share a stored id and method |
| `SessionRegistry.SetIdExactly` | src/signond/signonsessioncore.cpp:301-325 | changing an id keeps the registries right if and only if the id moves to or from zero, stays, or is refused; it takes effect if and only if it is new to the core and no live core of the method has it |
| `SessionRegistry.MovedCoreAnswersToBoth` | src/signond/signonsessioncore.cpp:314-324 | a concrete run: a core moved from one stored id to another is still given to whoever asks for the first |
| `SessionRegistry.RunsKeepValid` | src/signond/signonsessioncore.cpp:108-137 | in every run with such id changes each live core is registered exactly once, under its current id and method |
| `SessionRegistry.DestroyKeepsValid` | src/signond/signonsessioncore.cpp:932-935 | a destroyed core leaves the live ones and its own registration, and every other core stays where it was |
| `SessionRegistry.StopAllExactly` | src/signond/signonsessioncore.cpp:201-208 | stopping all sessions leaves no core and no registration |
| `SessionRegistry.Registries.SessionCore` | src/signond/signonsessioncore.cpp:108-137 | the lookup-or-create on the registries in place |
| `SessionRegistry.Registries.ChangeId` | src/signond/signonsessioncore.cpp:301-325 | the id change in place, and when it keeps the registries valid |
| `SessionRegistry.Registries.DestroyCore` | src/signond/signonsessioncore.cpp:924-942 | the removal in place |
| `Disposables.Collector.DestroyUnused` | src/signond/signondisposable.cpp:109-131 | terminates although it re-enters itself; afterwards no listed object is collectable at the time read on entry, what is still listed is untouched, and whatever left the list was idle past its limit and was destroyed, if and only if it did not refuse; objects that may not be collected stay |
| `Disposables.Collector.Collect` | src/signond/signondisposable.cpp:118-125 | the object is off the list afterwards, and destroyed exactly if it did not refuse |
| `Disposables.Collector.Destroy` | src/signond/signonsessioncore.cpp:924-942 | a busy core refuses and is only marked as used; any other object ends without children and scheduled for deletion, and so does every object collected meanwhile that did not refuse |
| `Disposables.Collector.DeleteFirstChild` | src/signond/signonsessioncore.cpp:814-820 | deleting a child runs the collection again, and all children together have become fewer |
| `Disposables.TotalShrinks` | src/signond/signondisposable.cpp:109-131 | the termination measure: the children of all objects together |
| `Lists.RemoveOneMembers` | src/signond/signondisposable.cpp:123-123 | removing an object from a list without duplicates removes it and nothing else |
| `MetaDataProofs.RoundTrip` | src/signond/credentialsdb.cpp:717-796 | a committed update of a new or existing identity reads back as handed in (method map with mechanisms as sets, access list, non-empty owners, realms, flags, type, caption, username blank when secret), if and only if no stray owner row waits under a new id |
| `MetaDataProofs.MethodMapReadBack` | src/signond/credentialsdb.cpp:886-945 | the method map survives its encoding as rows and the joins, methods without mechanisms included |
| `MetaDataProofs.TokensReadBack` | src/signond/credentialsdb.cpp:946-958 | the access list survives, with an empty method map too |
| `MetaDataProofs.OwnersReadBack` | src/signond/credentialsdb.cpp:960-972 | the owners read back are the non-empty ones given, plus stray ones |
| `MetaDataProofs.RealmsReadBack` | src/signond/credentialsdb.cpp:1235-1258 | the realms of an identity are replaced by those given |
| `MetaDataProofs.FlagsReadBack` | src/signond/credentialsdb.cpp:1191-1194 | the three flag bits are told apart again |
| `MetaDataTables.AclSpecsMembers` | src/signond/credentialsdb.cpp:886-958 | exactly which rows an update puts into the access control table |
| `MetaDataProofs.UpdateFrame` | src/signond/credentialsdb.cpp:828-981 | whatever comes of an update, also of one that names a missing identity, every other identity reads as before, although the name tables are shared |
| `MetaDataProofs.UnknownUpdate` | src/signond/credentialsdb.cpp:859-980 | what an update of a missing identity leaves: nothing, names and owner rows, or owner rows put in after the trigger ended the transaction; and when it is reported done |
| `MetaDataProofs.CommittedUpdate` | src/signond/credentialsdb.cpp:974-980 | for a known identity no trigger fires, the committed tables are given in one piece, and a failed commit changes nothing |
| `MetaDataProofs.KnownRunsReadBack` | src/signond/credentialsdb.cpp:828-981 | when no update ever names a missing identity, every update of the run reads back as handed in |
| `MetaDataProofs.StrayOwner` | src/signond/credentialsdb.cpp:859-867 | a concrete early update whose owner row is inherited by the first real identity |
| `MetaDataProofs.RunsKeepIntegrity` | src/signond/credentialsdb.cpp:377-625 | over every run of updates (missing ids and failed commits included), removals, references, new methods and clears: identities in the access, realm and reference tables exist, ids of methods, mechanisms and tokens resolve, and the name tables stay injective |
| `MetaDataProofs.UnknownUpdateKeepsIntegrity` | src/signond/credentialsdb.cpp:1235-1258 | such an update keeps the references between tables whole |
| `MetaDataProofs.RemovalIsClean` | src/signond/credentialsdb.cpp:983-998 | removing an identity leaves no row of it in any table |
| `MetaDataProofs.RemovalFrame` | src/signond/credentialsdb.cpp:983-998 | the removed identity reads as absent, every other one as before |
| `MetaDataProofs.ClearEmptiesEverything` | src/signond/credentialsdb.cpp:1000-1014 | clearing empties every table, the references too although they are never named; the id counters stay; a clear that fails changes nothing |
| `MetaDataProofs.RunsHideSecretNames` | src/signond/credentialsdb.cpp:1186-1233 | over every run of operations no row of the credentials has a user name that is secret |
| `MetaDataProofs.AddReferenceExactly` | src/signond/credentialsdb.cpp:1032-1077 | adding a reference works exactly for an identity that is there, and adds just that one |
| `MetaDataProofs.RemoveReferenceExactly` | src/signond/credentialsdb.cpp:1079-1127 | when removing references works, and that it takes those of the token, or the one asked for, and no others |
| `MetaDataProofs.ReferencesSurvive` | src/signond/credentialsdb.cpp:983-998 | removing an identity takes its references and no others, updating one takes none |
| `MetaDataProofs.NewMethodExactly` | src/signond/credentialsdb.cpp:1172-1184 | a method's name is added once with a free number, and every other keeps its own |
| `MetaDataProofs.InsertMethodsEffect` | src/signond/credentialsdb.cpp:1144-1170 | interning keeps every id that was there and gives new names free ids |
| `MetaDataDb.MetaDataDB.UpdateIdentityInfo` | src/signond/credentialsdb.cpp:828-981 | the statement loops in place compute the update, and integrity is kept |
| `MetaDataDb.MetaDataDB.ExecInsertMethods` | src/signond/credentialsdb.cpp:1144-1170 | the nested interning loops |
| `MetaDataDb.MetaDataDB.ExecUpdateRealms` | src/signond/credentialsdb.cpp:1235-1258 | delete then insert, stopping at the first row the trigger refuses |
| `MetaDataDb.MetaDataDB.ExecInsertAclRows` | src/signond/credentialsdb.cpp:886-958 | the nested row loops insert the rows in the order of the specification |
| `MetaDataDb.MetaDataDB.ExecInsertOwners` | src/signond/credentialsdb.cpp:960-972 | the owner rows, empty tokens skipped |
| `MetaDataDb.MetaDataDB.Identity` | src/signond/credentialsdb.cpp:717-796 | the queries for realms, owners, tokens and methods with the inner one for mechanisms, row by row, read what the joins define |
| `MetaDataDb.MetaDataDB.ListMethods` | src/signond/credentialsdb.cpp:766-781 | one query for the methods and one for the mechanisms of each give the method map |
| `MetaDataDb.MetaDataDB.AclIds` | src/signond/credentialsdb.cpp:758-781 | the scan of the access control rows finds exactly the ids of one column for one identity |
| `MetaDataDb.MetaDataDB.Remove` | src/signond/credentialsdb.cpp:983-998 | the deletes and cascades of a removal in one transaction |
| `MetaDataDb.MetaDataDB.ClearAllTables` | src/signond/credentialsdb.cpp:1000-1014 | the deletes and cascades of a clear in one transaction |
| `MetaDataDb.MetaDataDB.AddRef` | src/signond/credentialsdb.cpp:1032-1077 | a reference is added with its token, or nothing changes |
| `MetaDataDb.MetaDataDB.RemoveRef` | src/signond/credentialsdb.cpp:1079-1127 | a reference, or all of a token's, is removed; nothing changes when there is none |
| `SecretsStore.StoreThenLoad` | src/signond/default-secrets-storage.cpp:150-173 | loading after storing gives exactly the non-null entries |
| `SecretsStore.StoreFrame` | src/signond/default-secrets-storage.cpp:175-243 | what other identities and methods stored is untouched |
| `SecretsStore.StoreKeepsBound` | src/signond/default-secrets-storage.cpp:208-213 | the sizes stored for each identity and method stay under the limit |
| `SecretsStore.OneEntryFits` | src/signond/default-secrets-storage.cpp:208-209 | for data of one entry the limit is 4095 for key and serialised value together |
| `SecretsStore.SizeOverRemove` | src/signond/default-secrets-storage.cpp:208-208 | the running counter does not depend on the order of the entries |
| `SecretsStore.DataOf` | src/signond/default-secrets-storage.cpp:150-173 | the loaded map has the stored cells of that identity and method and no others |
| `SecretsStore.SecretsDB.StoreBlob` | src/signond/default-secrets-storage.cpp:175-243 | succeeds exactly when the data fits and the statements do; a failure leaves the store as it was |
| `SecretsStore.SecretsDB.WriteEntries` | src/signond/default-secrets-storage.cpp:197-234 | the counting loop reports success exactly for data under the limit |
| `SecretsCache.FlushRefinesDirectWriting` | src/signond/credentialsdb.cpp:1319-1332 | for every sequence of regular writes, writing to the cache and flushing leaves the store that writing directly leaves |
| `SecretsCache.FlushIsUnique` | src/signond/credentialsdb.cpp:87-118 | the flushed store is determined, whatever order the cache is walked in |
| `SecretsCache.FlushBlob` | src/signond/credentialsdb.cpp:77-84 | caching a blob then flushing is flushing then storing it, if and only if the blob fits, or the entry held no fitting one before, or the store had the same data already |
| `SecretsCache.FlushLogin` | src/signond/credentialsdb.cpp:64-75 | the same for a login that is written at all |
| `SecretsCache.ClosedAgreesExactly` | src/signond/credentialsdb.cpp:1414-1505 | for every sequence of writes, regular or not: cached and flushed is the same as written directly, if and only if for each identity the last login agrees with the last stored one, and for each method the last blob is the last that fits or the store had its data already |
| `SecretsCache.SingleLoginAgrees` | src/signond/credentialsdb.cpp:1414-1438 | for a single login write, exactly when the two ways agree |
| `SecretsCache.FailedFlushExactly` | src/signond/credentialsdb.cpp:1328-1330 | a flush in which statements fail, after which the cache is emptied all the same, leaves what a full one leaves, if and only if each failed statement would have changed nothing |
| `SecretsCache.OversizeBlobHidesEarlierOne` | src/signond/credentialsdb.cpp:1482-1505 | a blob over the limit makes the two ways differ |
| `SecretsCache.UnaskedPasswordStaysOut` | src/signond/credentialsdb.cpp:100-107 | an entry whose last write did not ask for storage puts no non-empty password into the store |
| `SecretsCache.RunsStoreOnlyWhatWasAsked` | src/signond/credentialsdb.cpp:1319-1342 | over every run of writes, flushes, closings, removals and clears, whichever of their statements fail, a stored password was asked to be stored for that identity, and all stored data keeps to the limit |
| `SecretsCache.DropExactly` | src/signond/default-secrets-storage.cpp:117-128 | removing an identity takes its login and all its data, and nothing of any other |
| `SecretsCache.DropBlobExactly` | src/signond/default-secrets-storage.cpp:245-272 | removing data takes that of the one method, or of all for method 0, and nothing else |
| `SecretsCache.WipeExactly` | src/signond/default-secrets-storage.cpp:77-86 | clearing takes everything stored and nothing cached |
| `SecretsCache.RemovedComesBackExactly` | src/signond/credentialsdb.cpp:1440-1462 | over every run: an identity removed, or cleared with all others, is in the store again after the next opening, if and only if a login of it waits in the cache, which removals do not touch, and its statement does not fail |
| `SecretsCache.RemovedComesBack` | src/signond/credentialsdb.cpp:1440-1450 | a concrete run in which it does |
| `SecretsCache.CacheIsPending` | src/signond/credentialsdb.cpp:64-84 | in every run the cache is what the writes since it was last emptied make of it |
| `SecretsCache.ReadsBack` | src/signond/credentialsdb.cpp:1371-1388 | a login that was written is read back, open or closed |
| `SecretsCache.ReadsBackAfterOpeningExactly` | src/signond/credentialsdb.cpp:1319-1332 | one written while closed is still read back after the opening, if and only if it was to be stored, and is not blank or finds a blank one stored |
| `CredentialsDb.MemoryCache.StoreToDB` | src/signond/credentialsdb.cpp:86-118 | the nested loops over cache and blobs, in any order and going on after failures, write exactly what did not fail |
| `CredentialsDb.CredentialsDB.UpdateSecrets` | src/signond/credentialsdb.cpp:1420-1433 | nothing without secrets; otherwise routed to store or cache, the user name blank unless secret |
| `CredentialsDb.OnlySecretsAreWritten` | src/signond/credentialsdb.cpp:1420-1424 | a user name goes into the secrets only if it is secret and was given, a password as it was given |
| `CredentialsDb.CredentialsDB.StoreData` | src/signond/credentialsdb.cpp:1482-1505 | the method is numbered first, which may fail; then store or cache, and what is reported |
| `CredentialsDb.CredentialsDB.LoadData` | src/signond/credentialsdb.cpp:1464-1480 | empty for id 0 or an unknown method; otherwise the store's data when open and the cache's when closed |
| `CredentialsDb.CredentialsDB.Credentials` | src/signond/credentialsdb.cpp:1371-1388 | reads the login from the store or the cache, by the flag and openness |
| `CredentialsDb.CredentialsDB.OpenSecretsDB` | src/signond/credentialsdb.cpp:1319-1332 | opening flushes the cache into the store and empties it, whatever statements fail; a failed opening leaves the storage closed |
| `CredentialsDb.CredentialsDB.RemoveCredentials` | src/signond/credentialsdb.cpp:1440-1450 | refused while closed; the identity's metadata goes only if its secrets went |
| `CredentialsDb.CredentialsDB.Clear` | src/signond/credentialsdb.cpp:1452-1462 | likewise for everything |
| `CredentialsDb.CredentialsDB.RemoveData` | src/signond/credentialsdb.cpp:1507-1524 | refused while closed, for id 0 and for an unknown method; an empty method stands for all |
| `SecureStorage.SecretsFollowTheMount` | src/signond/credentialsaccessmanager.cpp:651-675 | over every run from a good disk: the secrets database is only open while the mount flag is up and the credentials system open, it is closed before every drop of the flag, between events the mount holds all its resources or none, and the disk stays good |
| `SecureStorage.DisksStayGood` | src/extensions/cryptsetup/crypto-manager.cpp:170-173 | however many lives of the process came before, the next one finds a disk whose keychain lists, once each, keys that hold a slot |
| `SecureStorage.RunsKeepInv` | lib/signond/SignOn/key-handler.cpp:106-218 | in every run from such a disk in which the key of a mount is not inserted without holding a slot, authorised keys and keychain are keys holding a slot |
| `SecureStorage.RunsKeepInvExactly` | lib/signond/SignOn/key-handler.cpp:186-218 | this holds at every point of a run, if and only if the run has no such insertion |
| `SecureStorage.SlotlessWasRevoked` | src/extensions/cryptsetup/crypto-manager.cpp:455-468 | such a key can only be one revoked since the mount it made |
| `SecureStorage.InsertKeepsKeysExactly` | src/extensions/cryptsetup/crypto-manager.cpp:470-483 | inserting a key keeps that, if and only if the key is not the current one of a mounted storage without a slot |
| `SecureStorage.ReinsertedKeyHasNoSlot` | lib/signond/SignOn/key-handler.cpp:186-218 | a concrete run from a new disk: the only key is removed and inserted again, and counts as authorised without a slot |
| `SecureStorage.OpensExactly` | src/extensions/cryptsetup/crypto-manager.cpp:258-312 | once everything outside works, a key mounts the storage if and only if it holds a slot |
| `SecureStorage.AuthorizedKeyOpens` | src/extensions/cryptsetup/crypto-manager.cpp:258-312 | so any authorised key does |
| `SecureStorage.MountStaged` | src/extensions/cryptsetup/crypto-manager.cpp:258-312 | mounting ends at rest for every pattern of failures, and succeeds only with a key holding a slot, which then is in the keychain |
| `SecureStorage.SetupStaged` | src/extensions/cryptsetup/crypto-manager.cpp:175-254 | setting up ends at rest for every pattern of failures; on success the key is the only slot and the only keychain entry |
| `SecureStorage.UnmountStaged` | src/extensions/cryptsetup/crypto-manager.cpp:345-381 | from any stage every held resource goes to its release step, last acquired first |
| `SecureStorage.SetMountedInStep` | lib/signond/SignOn/abstract-crypto-manager.cpp:154-166 | the slots of the two signals keep the database inside the mount |
| `SecureStorage.KeyFixedWhileMounted` | lib/signond/SignOn/abstract-crypto-manager.cpp:67-75 | no event changes the encryption key of a mounted storage without the mount flag having been dropped in between |
| `SecureStorage.AuthorizeKeepsKeys` | lib/signond/SignOn/key-handler.cpp:106-149 | authorising a key, with or without formatting, keeps all authorised keys on slots |
| `SecureStorage.RevokeKeepsKeys` | lib/signond/SignOn/key-handler.cpp:151-184 | revoking a key keeps all authorised keys on slots |
| `SecureStorage.RevokedSlotExactly` | src/extensions/cryptsetup/crypto-manager.cpp:455-468 | after a revocation reported done the key holds no slot, if and only if the slot could be changed or there was none |
| `SecureStorage.RevokedKeyOpensExactly` | lib/signond/SignOn/key-handler.cpp:174-183 | a key whose revocation was reported done opens the closed storage again, and is authorised when inserted, if and only if its slot was not freed |
| `SecureStorage.DisableKeepsKeys` | lib/signond/SignOn/key-handler.cpp:221-236 | so does disabling one, with the closing of the storage it may bring |
| `SecureStorage.DisableExactly` | lib/signond/SignOn/key-handler.cpp:221-236 | disabling the last authorised key that is inserted closes the storage, database and mount; disabling any other leaves it as it is |
| `SecureStorage.InsertExactly` | lib/signond/SignOn/key-handler.cpp:186-218 | an inserted key is noted, and authorised if and only if it is the current or a listed key of a mounted storage, or mounts it |
| `SecureStorage.AuthorizeExactly` | lib/signond/SignOn/key-handler.cpp:106-149 | formatting leaves the key as the only authorised one, or none; otherwise it is added, with slot and keychain entry, if and only if another key with a slot could mount the storage and the slots could be changed |
| `SecureStorage.RevokeExactly` | lib/signond/SignOn/key-handler.cpp:151-184 | a revocation goes through if and only if some key is authorised and the storage is mounted or could be; then the key is no longer authorised |
| `SecureStorage.RemoveKeyExactly` | src/signond/credentialsaccessmanager.cpp:553-562 | a removed key is disabled, and revoked if and only if the storage could be mounted for that |
| `SecureStorage.OpenSystemExactly` | src/signond/credentialsaccessmanager.cpp:465-490 | opening the system opens the database with the mount, if it can; failing metadata leave just the object |
| `SecureStorage.CloseSystemExactly` | src/signond/credentialsaccessmanager.cpp:492-508 | closing it closes an open database together with its mount |
| `SecureStorage.MountExactly` | src/extensions/cryptsetup/crypto-manager.cpp:258-312 | mounting succeeds if and only if there is a key with a slot and every step works |
| `SecureStorage.SetupExactly` | src/extensions/cryptsetup/crypto-manager.cpp:175-254 | so does setting up; the file is there once it could be made, and the header is touched once the format went through |
| `SecureStorage.UnmountReports` | src/extensions/cryptsetup/crypto-manager.cpp:352-380 | unmounting reports success if and only if every held resource could be released |
| `SecureStorage.AddKeepsOthers` | src/extensions/cryptsetup/crypto-manager.cpp:50-58 | adding to the keychain keeps its other keys, if and only if the number it takes is free |
| `SecureStorage.KeychainForgets` | src/extensions/cryptsetup/crypto-manager.cpp:50-69 | a removal followed by an addition that loses a third key |
| `SecureStorage.ObjectExactly` | src/signond/credentialsaccessmanager.cpp:443-508 | in every run there is a database object, if and only if some opening of the system was not followed by a closing of the open system |
| `SecureStorage.LastKeySlotExactly` | src/signond/credentialsaccessmanager.cpp:544-551 | the slot for the last authorised key finds the object it reads, if and only if the key is not the last one or there is such an opening |
| `SecureStorage.UnopenedSystemCannotLoseLastKey` | src/signond/credentialsaccessmanager.cpp:544-551 | a concrete run in which the system was never opened and the object is missing |
| `SecureStorage.ClosedSystemCannotLoseLastKey` | src/signond/credentialsaccessmanager.cpp:544-551 | another in which it was closed again |
| `SecureStorageObjects.CryptoManager.RemoveKeyFromKeychain` | src/extensions/cryptsetup/crypto-manager.cpp:60-69 | one entry of the key goes, if it has any, and nothing else; entries being distinct, the key is off the list |
| `SecureStorageObjects.CryptoManager.KeychainContainsKey` | src/extensions/cryptsetup/crypto-manager.cpp:71-80 | the search loop finds exactly the listed keys |
| `SecureStorageObjects.KeyHandler.Authorize` | lib/signond/SignOn/key-handler.cpp:106-149 | authorisation in place, the authorised key used being any one of the set |
| `SecureStorageObjects.KeyHandler.Revoke` | lib/signond/SignOn/key-handler.cpp:151-184 | revocation in place |
| `SecureStorageObjects.KeyHandler.OnKeyInserted` | lib/signond/SignOn/key-handler.cpp:186-218 | insertion in place, and when it keeps the invariant |
| `SecureStorageObjects.KeyHandler.OnKeyDisabled` | lib/signond/SignOn/key-handler.cpp:221-236 | disabling in place |
| `SecureStorageObjects.KeyHandler.OnKeyRemoved` | lib/signond/SignOn/key-handler.cpp:238-248 | removal: disabled first, then revoked |
| `Backup.FailedRestoreExactly` | src/signond/signondaemon.cpp:880-891 | a restore that fails leaves the file system exactly as it was, leftover aside files included, if and only if no file with an absolute name was copied before it failed |
| `Backup.FailedRestoreKeepsCopy` | src/signond/signondaemon.cpp:880-891 | a concrete restore in which one was, and the copy stays |
| `Backup.RestoreSucceedsExactly` | src/signond/signondaemon.cpp:850-878 | a restore succeeds if and only if each file with a backup can be copied and was moved out of the way |
| `Backup.SuccessfulRestore` | src/signond/signondaemon.cpp:850-898 | a successful restore makes every file with a relative name its backup or absent, except one kept in place by a leftover aside file; one with an absolute name is gone and its backup goes elsewhere; no new aside file, and nothing else is touched |
| `Backup.RestoreMatchesBackupExactly` | src/signond/signondaemon.cpp:855-866 | the named files equal their backups, if and only if each one without a backup had no leftover aside file, and each absolute name with one had and kept just that content |
| `Backup.InterruptedRestoreShieldsFile` | src/signond/signondaemon.cpp:848-878 | a concrete run: a restore cut off leaves an aside file, and the next one reports success but keeps a file that has no backup |
| `Backup.BackupThenRestoreExactly` | src/signond/signondaemon.cpp:930-956 | whatever happened to the storage in between, backup and restore that succeed give every file with a relative name as of the backup, missing ones as empty files; all named files, if and only if each absolute name was kept as it was by a leftover aside file |
| `Backup.BackupThenRestore` | src/signond/signondaemon.cpp:930-956 | so from a backup on its own every named file is recovered, if and only if no name is absolute |
| `Backup.ContainerIsLost` | src/signond/signondaemon.cpp:816-822 | the daemon's own list: the crypto manager names the container by its full path, the backup reports success, the container is gone and not in it, and a restore brings nothing back |
| `Backup.DaemonFilesAreApart` | src/extensions/cryptsetup/crypto-manager.cpp:399-402 | that list, under any absolute storage path, meets what the other results ask of a list |
| `Backup.FileTreeEffect` | src/signond/signondaemon.cpp:902-928 | what is there stays, a missing file is created empty, one with an absolute name elsewhere than where it is missing, and nothing else changes |
| `Backup.CopyToBackupEffect` | src/signond/signondaemon.cpp:799-834 | a successful copy makes the backup of each relative name the file of the storage; the file of an absolute name is removed, and what lies at the joined path, if anything, is copied |
| `Backup.BackupSucceedsExactly` | src/signond/signondaemon.cpp:813-833 | a backup succeeds if and only if each file that is there to be copied can be |
| `Backup.FileTreeSucceedsExactly` | src/signond/signondaemon.cpp:913-927 | the file tree is made if and only if each missing file can be created |
| `Backup.ErasedExactly` | src/signond/signondaemon.cpp:783-797 | no file right in the backup directory is left, every other one is as it was |
| `Backup.SignonDaemon.CopyFromBackupDir` | src/signond/signondaemon.cpp:836-900 | the restore with its rollback loops in place |
| `Backup.SignonDaemon.CopyToBackupDir` | src/signond/signondaemon.cpp:799-834 | the backup loop in place, stopping at a failed copy |
| `Backup.SignonDaemon.CreateStorageFileTree` | src/signond/signondaemon.cpp:902-928 | the file tree loop in place, stopping at a file that cannot be created |
| `Backup.SignonDaemon.Backup` | src/signond/signondaemon.cpp:945-965 | file tree, erasing and copying in order |
| `Backup.SignonDaemon.EraseBackupDir` | src/signond/signondaemon.cpp:783-797 | the files right in the backup directory are gone, and no others |
| `AsyncProxy.RunsKeepInv` | lib/SignOn/async-dbus-proxy.cpp:159-322 | over every run in which the client cancels only what it may, on its own or in an error slot: each unfinished call is in exactly one of queue, in flight or awaiting a posted failure, none finishes twice, and a ready proxy has connection, path and an interface carrying every subscription in order |
| `AsyncProxy.RunsTrack` | lib/SignOn/async-dbus-proxy.cpp:159-297 | over every run: connection, path and status are what the history says, and a ready proxy's interface carries exactly the subscriptions ever asked for, in order |
| `AsyncProxy.RunsKeepVia` | lib/SignOn/async-dbus-proxy.cpp:128-137 | over every run: a sent call's interface counts as destroyed, if and only if it is no longer the current one |
| `AsyncProxy.ReplyExactly` | lib/SignOn/async-dbus-proxy.cpp:105-126 | a reply finishes its call, if and only if the object did not go away with the interface it was sent over; otherwise the call waits again; no other call is touched |
| `AsyncProxy.PostExactly` | lib/SignOn/async-dbus-proxy.cpp:99-103 | a posted failure finishes its call and touches no other |
| `AsyncProxy.CancelEffect` | lib/SignOn/async-dbus-proxy.cpp:76-84 | cancelling a sent call does nothing; any other finishes and waits no longer |
| `AsyncProxy.QueueExactly` | lib/SignOn/async-dbus-proxy.cpp:248-282 | a new call is sent over the current interface, waits, or is failed by a posted event, by status |
| `AsyncProxy.UpdateExactly` | lib/SignOn/async-dbus-proxy.cpp:184-207 | what becomes of every call, and of the subscriptions, when the interface is rebuilt |
| `AsyncProxy.CancelExactly` | lib/SignOn/async-dbus-proxy.cpp:76-84 | cancelling keeps that account, if and only if the call was sent or has neither finished nor a failure posted |
| `AsyncProxy.FailureExactly` | lib/SignOn/async-dbus-proxy.cpp:174-181 | failing the waiting calls keeps that account, if and only if no error slot that runs in the loop cancels a call that was not sent |
| `AsyncProxy.CancelledWhileInvalid` | lib/SignOn/async-dbus-proxy.cpp:76-84 | a concrete run: a call made while the proxy is invalid is cancelled and finishes twice |
| `AsyncProxy.CancelledWhileFailing` | lib/SignOn/async-dbus-proxy.cpp:174-181 | a concrete run: an error slot cancels the next waiting call, which finishes twice within the loop |
| `AsyncProxy.UpdateKeepsInv` | lib/SignOn/async-dbus-proxy.cpp:184-207 | rebuilding the interface loses no call and replays the subscriptions |
| `AsyncProxy.ReplyKeepsInv` | lib/SignOn/async-dbus-proxy.cpp:105-126 | a reply finishes the call, or queues it again when its object went away |
| `AsyncProxy.QueueKeepsInv` | lib/SignOn/async-dbus-proxy.cpp:248-282 | a new call is sent, queued, or failed by a posted event |
| `AsyncProxy.AsyncDBusProxy.OnConnection` | lib/SignOn/async-dbus-proxy.cpp:209-214 | a new connection |
| `AsyncProxy.AsyncDBusProxy.OnDisconnected` | lib/SignOn/async-dbus-proxy.cpp:216-224 | the connection and the path are gone |
| `AsyncProxy.AsyncDBusProxy.SendQueue` | lib/SignOn/async-dbus-proxy.cpp:163-174 | the sending loop over a copy of the queue |
| `AsyncProxy.AsyncDBusProxy.FailQueue` | lib/SignOn/async-dbus-proxy.cpp:175-180 | the failing loop over a copy of the queue, error slots included |
| `AsyncProxy.AsyncDBusProxy.ChangeObjectPath` | lib/SignOn/async-dbus-proxy.cpp:226-231 | a new path, whether or not there was one |
| `AsyncProxy.AsyncDBusProxy.Fail` | lib/SignOn/async-dbus-proxy.cpp:233-238 | an error fails all waiting calls |
| `AsyncProxy.AsyncDBusProxy.QueueCall` | lib/SignOn/async-dbus-proxy.cpp:248-282 | routing of a new call by status |
| `AsyncProxy.AsyncDBusProxy.SubscribeTo` | lib/SignOn/async-dbus-proxy.cpp:284-297 | a subscription is recorded, and connected when ready |
| `AsyncProxy.AsyncDBusProxy.OnReply` | lib/SignOn/async-dbus-proxy.cpp:105-126 | finish or requeue |
| `AsyncProxy.AsyncDBusProxy.OnPostedFailure` | lib/SignOn/async-dbus-proxy.cpp:99-103 | a posted failure finishes its call |
| `AsyncProxy.AsyncDBusProxy.CancelCall` | lib/SignOn/async-dbus-proxy.cpp:76-84 | too late once sent; otherwise the call finishes |
| `BlobIO.PagesAreRight` | lib/plugins/signon-plugins-common/SignOn/blobiohandler.cpp:223-239 | pages are non-empty, full but the last, as few as possible, and together the bytes |
| `BlobIO.ReceivesWhole` | lib/plugins/signon-plugins-common/SignOn/blobiohandler.cpp:96-133 | however the bytes are cut into non-empty fractions, they come out once, without an error |
| `BlobIO.ReceivesExactly` | lib/plugins/signon-plugins-common/SignOn/blobiohandler.cpp:109-133 | whatever size was announced: the bytes come out, once, if and only if the fractions reach the size exactly |
| `BlobIO.DryStreamFails` | lib/plugins/signon-plugins-common/SignOn/blobiohandler.cpp:117-122 | a stream that runs dry too soon reports one error, delivers nothing, and ends with the notification off |
| `BlobIO.RoundTrip` | lib/plugins/signon-plugins-common/SignOn/blobiohandler.cpp:55-133 | for every byte array the receiver told its size and fed its pages delivers it once, with the notification on exactly while a multi-page blob is incomplete |
| `BlobIO.BlobIOHandler.PageByteArray` | lib/plugins/signon-plugins-common/SignOn/blobiohandler.cpp:223-239 | the paging loop |
| `BlobIO.BlobIOHandler.Transfer` | lib/plugins/signon-plugins-common/SignOn/blobiohandler.cpp:55-107 | a whole transfer delivers the bytes once |
| `Mechanisms.CheckIsIdempotent` | src/signond/signonidentityinfo.cpp:75-121 | checking what passed lets it pass unchanged |
| `Mechanisms.PassesExactly` | src/signond/signonidentityinfo.cpp:93-121 | with restrictions a request passes if and only if it is allowed as a whole or lists two or more mechanisms of which one is allowed |
| `Mechanisms.CheckExactly` | src/signond/signonidentityinfo.cpp:75-121 | for every method map: a request passes if and only if there are no methods at all, or this one is listed and its mechanisms are not restricted or pass as above; what comes back is the request unless part of a list was taken out |
| `Mechanisms.PassesOnlyAllowed` | src/signond/signonidentityinfo.cpp:93-121 | what passes is the mechanism itself or the allowed ones of the list, in order |
| `Mechanisms.PaddedMechanismIsRejected` | src/signond/signonidentityinfo.cpp:106-109 | a single allowed mechanism with a space before it is turned away |
| `Mechanisms.SplitJoin` | src/signond/signonidentityinfo.cpp:103-119 | splitting undoes joining on parts that are non-empty and free of spaces |
| `Mechanisms.IdentityInfo.CheckMethodAndMechanism` | src/signond/signonidentityinfo.cpp:75-121 | the filtering loop and the early exits |

## Left out

- `SessionQueue`: the parameters merged from the database, the password and username updates after a result, dialog parameters, state-changed signals, what is stored, error names and the computation of the UI policy; a plugin's UI request carries whether it was allowed.
- `SessionQueue.SessionCore.QueryUiSlot`: that the queue is not empty when the slot runs is what the source asserts; a result that overtakes an answered dialog can break it, so it is a precondition here.
- `SessionRegistry`, `AsyncProxy`: cores and pending calls are known by number, and their fields are kept in maps and lists of the owning object; aliasing between such objects is not modelled.
- `SessionRegistry.RunsKeepValid`, `SessionQueue`: a core is gone once its destruction starts; the window until `deleteLater` runs is not modelled.
- `SessionQueue.TakesAlongExactly`: time; a core is taken to have been idle past its limit whenever collection is on.
- `Disposables.Collector.DestroyUnused`: the idle notification timer, and the deletion itself, which `deleteLater` puts off; identities have no children here.
- `MetaDataTables`: SQL text, statement errors other than the triggers' ROLLBACK, null strings, and 32-bit ids; rows are read back as sets, in no order.
- `MetaDataProofs.RunsKeepIntegrity`: says nothing of the identity column of OWNER, which no trigger guards.
- The schema upgrade in `MetaDataDB::updateDB` and the queries by filter.
- `SecretsCache.ClosedAgreesExactly`: compares the stores; a login that is not to be stored, written while the storage is open, also stays in the cache until the next opening.
- The encoding of values and maps as byte streams: a value comes with its serialised bytes, and blobs are byte strings.
- `SecureStorage`: readiness of key managers, the authorizer's dialog and its queue of notifiers; a step that fails is taken to acquire nothing, and a reported mount to be a real one, as the source takes it.
- `SecureStorage.SetupStaged`: resources left over from an earlier process, which the source tries to release first; a failed format is taken to leave the header as it was.
- `Backup`: directories that cannot be made, names with `.` or `..` in them, lists in which two names mean one file, ownership and permissions, and the closing and reopening of the credentials system around a backup.
- `AsyncProxy.RunsKeepInv`: client callbacks that change the proxy's status while it changes; other callbacks but cancels in error slots are taken to come after the event.
- That waiting requests are eventually started and requeued calls eventually sent: the code does not ensure it.
- D-Bus adaptors, process handling, configuration loading, plugins, client wrappers and access control decisions: transport and thin forwarding.
