# Verification of the CRM's chat, records, sessions and maintenance logic

A Dafny model of the parts of the CRM whose correctness depends on interleavings, orders and counting, with proofs of what
those parts promise. `dafny verify dfyconfig.toml` checks the whole project.

## What is modelled

* **Chat threads** (`Chat*.dfy`, `ReadMarkers.dfy`, `Marker*.dfy`). Threads, participants, messages, idempotency records and the outbox are
  maps from their unique keys. A call is a sequence of separate steps: it reads and checks a snapshot, looks its idempotency
  key up, and runs one atomic transaction that is guarded by a version or by a unique key. The steps of all calls interleave
  freely (`ChatMachine`). `ChatStore` runs the same transactions as statements on mutable tables with rollback. What a call may
  do and what it comes to is stated in terms of rows alone: who may change which row (`ChatRights`), the exact answer of an
  undisturbed call (`ChatServed`), the text and the fate of every message (`ChatText`), and the threads of working groups
  (`ChatGroups`).
* **Reading messages and threads** (`OrderedRows.dfy`, `MessagePaging.dfy`, `ThreadListing.dfy`, `ListingMoves.dfy`). Queries are
  filters over a table in a total order, cut to a limit.
* **Calendar events and capabilities** (`OrgRecords*.dfy`). Calls that read and commit in separate steps, over versioned rows
  that share the outbox; what a row holds after any run (`OrgRecordsHistory`).
* **Deactivation** (`Deactivation.dfy`, `DeactivationRuns.dfy`, `HandoverRuns.dfy`). The handover of open work and documents,
  statement by statement, with rollback; and deactivations, updates of users and offboardings whose reads, counts and
  transactions interleave with everything else.
* **Sessions** (`Sessions.dfy`, `SessionSteps.dfy`, `SessionRevocation.dfy`). Logins, rotations, guard checks and changes of users as
  interleaved steps; the guard reads the session and its user in two steps.
* **Live events** (`Realtime*.dfy`). The registry of subjects, one promise queue for every subscriber, the access check with
  its two queries, and teardown; what arrives, and that it does arrive (`RealtimeProgress`).
* **Backups** (`BackupRetention.dfy`, `BackupRotation.dfy`). The rotation loop over the records of a directory, the
  backups it stands for, and runs of backups with a rotation after each.
* **Organization tree** (`OrgTree.dfy`, `OrgTreeRows.dfy`). The search marking and the recursive traversal with their mutable
  sets, on any parent graph.
* **Import manifests** (`CompanyMapping.dfy`, `ByteSum.dfy`). The refinement loop over two maps, and a sum in binary64.

Mutable code is modelled by classes and loops whose contracts name a function of the old state; the properties are proved
about these functions. `Basics.dfy` and `VersionLog.dfy` hold shared vocabulary.

## What the code does not promise, and when it does

Twelve expectations one might have do not hold in general. Each is proved with its exact condition and with an input or a run
that breaks it.

* A group conversation keeps an owner only because clients send thread versions the server has issued. The last-owner check
  is made on the snapshot; a version one ahead of the snapshot gets through after a concurrent change
  (`GroupSafetyExact`, `AheadLosesOwner`).
* Two `create` calls with one idempotency key can both succeed with different threads when one of them asks for a direct
  conversation and their fingerprints differ (`CreateAgreementExact`, `RaceDisagrees`): the upsert of an existing conversation
  keeps the older record.
* A working group has no unique key for its thread. It has at most one, over all interleavings, if and only if no two calls that
  found none are under way at once (`OneThreadExact`, `TwoThreads`). Later calls agree on the oldest one as long as no thread is
  inserted that sorts before it (`SameThreadExact`).
* `markRead` and posts write markers without a guard. No marker ever moves back, over all interleavings, if and only if no other
  call of a seat is between its review and its commit while a marking of that seat is, and posts sort after their author's
  marker (`MarkerSafetyExact`, `TwoMarkingsMoveBack`, `UnorderedPostMovesBack`).
* A post makes the author's count 0 only when its key sorts last (`PostCountsExact`, `TiedPostMiscounts`).
* On later pages of the plain thread listing the cursor takes the place of the working-group filter, because two spread
  objects define the same property (`PlainWalkExact`, `HiddenThreadListed`). The unread listing selects by identifiers that
  were filtered before.
* Without a search the organization tree emits the units below a collapsed one after the tree, at depth 0
  (`BrowsingDepthsExact`, `CollapsedChildMisplaced`).
* `deactivate` does not exclude the target as the new owner (`HandoverExact`, `SelfHandoverKeepsTask`).
* `deactivate` counts open work before its transaction. Every deactivation that was not asked to hand over to its target leaves
  the target with nothing, over all interleavings, if and only if no step gives the target of a call without a new owner
  something after it was counted; what is given then stays with the closed account (`HandsOverExact`, `LateTaskStays`).
* The last administrator is protected by a count before the transaction, and completing an offboarding takes no count at all. A
  workspace keeps an administrator, over all interleavings, if and only if the calls that passed the count and are not committed
  yet concern at most one active administrator and no offboarding meets an active administrator (`AdminsSafeExact`,
  `LastAdminsLost`, `OffboardedAdminLost`).
* A live stream takes its subject before it subscribes; the registry may have dropped that subject in between
  (`RegistryExact`, `LateSubscriptionMisses`).
* A mass revocation alone does not catch a login or a rotation that is under way; it catches every earlier read for good if and
  only if no unfinished request carries a version of the user then (`RevocationExact`, `RevocationMissesLateRow`). The version
  check of the guard catches the rest (`StaleNeverAccepted`).

## Model

| member | source | states |
|---|---|---|
| ChatFrames.ProgressExtends | apps/api/src/modules/communication/messages.service.ts:147-1582 | every step of every call leads to a later database: versions do not fall, rows and records stay, and an unchanged thread version means unchanged roles and membership (working-group threads excepted) |
| ChatSafety.RunSound | apps/api/src/modules/communication/messages.service.ts:147-1582 | in every run every call in progress still knows something true: its snapshot is an earlier state in which its checks passed |
| ChatSafety.GuardMeetsSnapshot | apps/api/src/modules/communication/messages.service.ts:1068-1078 | a commit whose version guard matches meets exactly the members and owners that the snapshot showed |
| ChatSafety.AddKeepsSafe | apps/api/src/modules/communication/messages.service.ts:1025-1165 | adding a participant keeps an owner and 2 to 50 active participants |
| ChatSafety.SetRoleKeepsSafe | apps/api/src/modules/communication/messages.service.ts:1167-1254 | a role change keeps at least one active owner |
| ChatSafety.RemoveKeepsSafe | apps/api/src/modules/communication/messages.service.ts:1256-1344 | a removal keeps an owner and at least two participants |
| ChatSafety.CreateKeepsSafe | apps/api/src/modules/communication/messages.service.ts:228-300 | a new group conversation starts with its creator as owner and 3 to 50 members |
| ChatSafety.RunKeepsSafe | apps/api/src/modules/communication/messages.service.ts:1025-1344 | over every interleaving of all calls, every GROUP thread keeps an active owner and 2 to 50 active participants |
| ChatGuardExactness.AheadLosesOwner | apps/api/src/modules/communication/messages.service.ts:1256-1344 | a run in which an expected version one ahead of the read one leaves a group without an owner |
| ChatGuardExactness.GroupSafetyExact | apps/api/src/modules/communication/messages.service.ts:1025-1344 | groups are safe in all runs if and only if expected versions are never above the version read |
| ChatRights.SeatsTraced | apps/api/src/modules/communication/messages.service.ts:883-1582 | in every run a participant row appears or changes only by a call whose request asks for exactly that row and whose caller had the rights for it when it was checked |
| ChatRights.WorkIsDone | apps/api/src/modules/communication/messages.service.ts:883-1582 | a call that answers as having done its work has written its row, exactly as asked |
| ChatRights.ManagedByLeader | apps/api/src/modules/communication/messages.service.ts:1025-1344 | when no client runs ahead, whoever adds, removes or changes a role leads the thread in the database that the transaction meets |
| ChatRights.RemovalEntitled | apps/api/src/modules/communication/messages.service.ts:1256-1344 | somebody leaves only by their own request, or by that of a participant who is an owner or an administrator |
| ChatRights.RoleEntitled | apps/api/src/modules/communication/messages.service.ts:1025-1254 | a role in a collaborative thread changes, and a user joins one, only by the request of an owner or an administrator in it, and gets the role that was asked for |
| ChatRights.MessageEntitled | apps/api/src/modules/communication/messages.service.ts:1346-1504 | a message changes only by an edit or a deletion of its author or of an administrator who can read its thread |
| ChatServed.PostServed | apps/api/src/modules/communication/messages.service.ts:860-1006 | what an undisturbed post answers, for every request and database: the text and reply rules, the key, the new message |
| ChatServed.AddServed | apps/api/src/modules/communication/messages.service.ts:1025-1165 | the same for adding a participant: rights, directory, size, key, thread version |
| ChatServed.SetRoleServed | apps/api/src/modules/communication/messages.service.ts:1167-1254 | the same for a role change, with the last owner kept and an unchanged role answered as such |
| ChatServed.RemoveServed | apps/api/src/modules/communication/messages.service.ts:1256-1344 | the same for a removal, with the size and owner rules |
| ChatServed.EditServed | apps/api/src/modules/communication/messages.service.ts:1346-1426 | the same for an edit; the same text changes nothing |
| ChatServed.DeleteServed | apps/api/src/modules/communication/messages.service.ts:1428-1504 | the same for a deletion; a deleted message changes nothing |
| ChatServed.MarkReadServed | apps/api/src/modules/communication/messages.service.ts:1506-1545 | the same for marking as read; a target that is not after the marker changes nothing |
| ChatServed.PreferServed | apps/api/src/modules/communication/messages.service.ts:1547-1582 | the same for the mute flag |
| ChatServed.GroupCreateServed | apps/api/src/modules/communication/messages.service.ts:147-334 | the same for creating a group conversation: input rules, directory, key |
| ChatServed.DirectCreateServed | apps/api/src/modules/communication/messages.service.ts:147-334 | the same for a direct conversation: an existing one is the answer |
| ChatServed.OpenServed | apps/api/src/modules/communication/messages.service.ts:336-456 | the same for the thread of a working group |
| ChatServed.KeysDistinguish | apps/api/src/modules/communication/messages.service.ts:147-198 | two idempotency keys are one exactly for the same user, operation and given key (and thread, for a participant) |
| ChatServed.FingerprintsDistinguish | apps/api/src/modules/communication/messages.service.ts:147-198 | under one key two requests have one fingerprint exactly when they ask for the same thing |
| ChatText.MessageIsItsHistory | apps/api/src/modules/communication/messages.service.ts:883-1504 | in every run a message has the text of the last committed edit, else that of its post; author, thread, reply target and time are those of the post; it is deleted exactly if a deletion was committed; its version counts the rewrites |
| ChatText.RepliesFlat | apps/api/src/modules/communication/messages.service.ts:860-896 | in every run replies are one level deep and stay in the thread of the message they answer |
| ChatText.PostedReply | apps/api/src/modules/communication/messages.service.ts:860-921 | a committed post has 1 to 8000 characters and answers no message, or one of its thread that is itself no reply |
| ChatText.LastMessageMoves | apps/api/src/modules/communication/messages.service.ts:922-940 | the time of the last message of a thread changes by posts in it alone, to the time of the post |
| ChatGroups.ExistingIsJoined | apps/api/src/modules/communication/messages.service.ts:336-401 | in every run an opening that starts when the group has a thread inserts none; it answers with the oldest one, in which its caller then takes part, unless the company is not the caller's or a transaction fails |
| ChatGroups.SameThreadExact | apps/api/src/modules/communication/messages.service.ts:366-384 | openings keep finding the same thread if and only if no thread inserted for the group since sorts before it |
| ChatGroups.JoinedRow | apps/api/src/modules/communication/messages.service.ts:384-401 | who joins gets the role the working group gives them; a row that was left keeps its marker and mute flag |
| ChatGroups.OpenedRows | apps/api/src/modules/communication/messages.service.ts:402-456 | a new thread of a working group has exactly one active row for each member, and the group's owner leads it |
| ChatGroups.CreatedRows | apps/api/src/modules/communication/messages.service.ts:228-300 | a created conversation has exactly one active row for its creator and each other user; in a group the creator leads |
| ChatGroups.TwoThreads | apps/api/src/modules/communication/messages.service.ts:366-456 | a run in which two calls that both found none leave one group with two threads |
| ChatGroups.OneThreadExact | apps/api/src/modules/communication/messages.service.ts:336-456 | a working group has at most one thread in all runs if and only if at most one call that found none is under way at a time |
| ChatOutbox.OutboxComplete | apps/api/src/modules/communication/messages.service.ts:897-1004 | in every reachable state a thread's outbox events carry 1 to its current version, each exactly once and in order |
| ChatOutbox.NextVersionIsNew | apps/api/src/modules/communication/messages.service.ts:897-1004 | no outbox event of a thread carries a version above its current one |
| ChatOnce.OneDirectThreadPerPair | apps/api/src/modules/communication/messages.service.ts:2182-2216 | at most one DIRECT thread for an unordered pair and company, in every interleaving |
| ChatOnce.DirectCreatesAgree | apps/api/src/modules/communication/messages.service.ts:147-334 | all successful direct creates for a pair, from either side and by the recovery path too, return that one thread, whose active members are the pair |
| ChatDirect.LostRaceRecovers | apps/api/src/modules/communication/messages.service.ts:300-334 | a creation that finds its pair taken at the insert answers with the conversation of the pair, whatever happens in between |
| ChatDirect.ExistingReplays | apps/api/src/modules/communication/messages.service.ts:186-226 | an answer with an existing conversation is on record: every later retry gets the same one |
| ChatOnce.OneEffectPerKey | apps/api/src/modules/communication/messages.service.ts:883-1006 | all successes under one key return one id for one fingerprint, and at most one of them committed (post, add, group create) |
| ChatOnce.OneMessagePerKey | apps/api/src/modules/communication/messages.service.ts:883-1006 | at most one message per user, key and operation in every reachable state |
| ChatOnce.OneCallPerMessage | apps/api/src/modules/communication/messages.service.ts:897-921 | every message was committed by exactly one call |
| ChatCreateExactness.RaceDisagrees | apps/api/src/modules/communication/messages.service.ts:186-226 | a run in which two creates with one key and different fingerprints both succeed with different threads |
| ChatCreateExactness.CreateAgreementExact | apps/api/src/modules/communication/messages.service.ts:147-334 | creates under one key agree in all runs if and only if their fingerprints agree or neither is direct |
| ChatStore.Store.CreateThread | apps/api/src/modules/communication/messages.service.ts:228-299 | thread, participants, record and event as statements: all of them or none |
| ChatStore.Store.PostMessage | apps/api/src/modules/communication/messages.service.ts:897-1003 | message, marker, thread version, record and event, or none of them |
| ChatStore.Store.AddParticipant | apps/api/src/modules/communication/messages.service.ts:1068-1156 | the version is claimed first, then the row is inserted or revived |
| ChatStore.Store.UpdateParticipant | apps/api/src/modules/communication/messages.service.ts:1198-1247 | thread and row versions both guard the role change |
| ChatStore.Store.RemoveParticipant | apps/api/src/modules/communication/messages.service.ts:1287-1338 | thread and row versions both guard the removal |
| ChatStore.Store.RewriteMessage | apps/api/src/modules/communication/messages.service.ts:1346-1504 | an edit or a deletion under the message version, with a new thread version |
| ChatStore.Store.GroupThread | apps/api/src/modules/communication/messages.service.ts:384-456 | joining the thread that was found or opening one with a row for every member, as the machine's step |
| ChatStore.Store.Transact | apps/api/src/modules/communication/messages.service.ts:897-1582 | the statements of every request perform exactly the transaction that the machine commits, or nothing |
| ReadMarkers.PostUnread | apps/api/src/modules/communication/messages.service.ts:897-940 | which messages are unread for whom after a post, exactly |
| ReadMarkers.PostCounts | apps/api/src/modules/communication/messages.service.ts:897-940 | a post that sorts last makes the author's count 0 and adds exactly 1 to every other participant's |
| ReadMarkers.PostCountsExact | apps/api/src/modules/communication/messages.service.ts:897-940 | for any key of the new message: when the author's count becomes 0 and when another count grows |
| ReadMarkers.TiedPostMiscounts | apps/api/src/modules/communication/messages.service.ts:897-960 | a post at the time of a message with a larger identifier leaves its author with an unread message |
| ReadMarkers.MarkReadUnread | apps/api/src/modules/communication/messages.service.ts:1506-1545 | a serial markRead moves the marker forward and raises no count |
| ReadMarkers.RewriteUnread | apps/api/src/modules/communication/messages.service.ts:1346-1504 | a deletion takes exactly the message out of the counts that had it, an edit changes none |
| ReadMarkers.PostMarkerExact | apps/api/src/modules/communication/messages.service.ts:922-940 | a post moves its author's marker forward if and only if the new message sorts after it |
| ReadMarkers.ConcurrentMarkReadExact | apps/api/src/modules/communication/messages.service.ts:1506-1545 | two markings reviewed on one state keep the marker forward in both commit orders if and only if they name the same message |
| MarkerRuns.UndisturbedForward | apps/api/src/modules/communication/messages.service.ts:1506-1545 | a marking that meets the marker its review saw moves it forward, whatever happened in between |
| MarkerExactness.TwoMarkingsMoveBack | apps/api/src/modules/communication/messages.service.ts:1506-1545 | a run in which two markings of one seat are under way at once and the marker ends further back |
| MarkerExactness.UnorderedPostMovesBack | apps/api/src/modules/communication/messages.service.ts:897-940 | a run of posts, one after the other, in which one that sorts earlier moves its author's marker back |
| MarkerExactness.MarkerSafetyExact | apps/api/src/modules/communication/messages.service.ts:897-1545 | no marker moves back in any run with at most n calls of a seat under way beside a marking if and only if n is at most 1 and posts sort after their author's marker; posts may overlap posts |
| MessagePaging.PageBeforeSlice | apps/api/src/modules/communication/messages.service.ts:554-591 | a page before any cursor is the slice of the thread directly before it, and both its cursors tell whether their side has more |
| MessagePaging.PageAfterSlice | apps/api/src/modules/communication/messages.service.ts:554-591 | the same for a page after any cursor, whether or not it names a message |
| MessagePaging.OlderWalk | apps/api/src/modules/communication/messages.service.ts:554-591 | following `olderCursor` to its end yields exactly the messages before the start, in order; the walk ends |
| MessagePaging.WholeThreadWalk | apps/api/src/modules/communication/messages.service.ts:554-591 | from an uncursored page the walk reads every row of the thread once, in ascending order |
| MessagePaging.NewerWalk | apps/api/src/modules/communication/messages.service.ts:554-591 | following `newerCursor` from any cursor yields exactly the messages after it |
| MessagePaging.AroundSlice | apps/api/src/modules/communication/messages.service.ts:521-552 | a page around the message at position i holds exactly min(i, (limit - 1) / 2) messages before it and min(n - 1 - i, limit - 1 - (limit - 1) / 2) after it, contiguous and in order |
| MessagePaging.AroundBounds | apps/api/src/modules/communication/messages.service.ts:521-552 | it has at most `limit` messages and the target, and a cursor is null exactly when its side is exhausted |
| MessagePaging.AroundReconstructs | apps/api/src/modules/communication/messages.service.ts:521-591 | continuing from both cursors reconstructs the thread without gap or overlap |
| ThreadListing.CursorSqlIsOrder | apps/api/src/modules/communication/messages.service.ts:2071-2096 | the spelled-out cursor condition is the strict order (lastMessageAt with null last, createdAt, id) descending |
| ThreadListing.ExistsIsPositive | apps/api/src/modules/communication/messages.service.ts:1849-2020 | the EXISTS of the unread listing holds exactly when the grouped count is positive |
| ThreadListing.PageIsPrefix | apps/api/src/modules/communication/messages.service.ts:69-136 | an unread page is the first `limit` threads past the cursor, although the rows are loaded by a second query |
| ThreadListing.WalkLists | apps/api/src/modules/communication/messages.service.ts:69-136 | walking the pages lists the remaining threads in order, each with its count |
| ThreadListing.UnreadWalkComplete | apps/api/src/modules/communication/messages.service.ts:1849-2020 | the walk gives every visible thread with a positive count exactly once, in listing order |
| ThreadListing.SummaryCountsWalk | apps/api/src/modules/communication/messages.service.ts:1932-1989 | the summary's unread number is the number of threads walked |
| ThreadListing.SummaryCountsAll | apps/api/src/modules/communication/messages.service.ts:1932-1989 | the summary's total counts exactly the visible threads, and its unread number those of them with an unread message |
| ThreadListing.PlainWalkExact | apps/api/src/modules/communication/messages.service.ts:82-136 | the plain listing walks exactly the visible threads if and only if it ends on page one or no hidden thread sorts behind that page |
| ThreadListing.HiddenThreadListed | apps/api/src/modules/communication/messages.service.ts:82-136 | three threads, one of them hidden, and one thread on a page: the walk does not list exactly the visible ones |
| ThreadListing.PlainItemsCount | apps/api/src/modules/communication/messages.service.ts:100-136 | every thread of a plain page carries the number of its unread messages, 0 included |
| ListingMoves.PostInListing | apps/api/src/modules/communication/messages.service.ts:897-2020 | after a post the listing of every other participant shows the thread with one message more and at the front exactly when no other listed thread sorts after it; nobody else has it listed |
| ListingMoves.PostKeepsOthers | apps/api/src/modules/communication/messages.service.ts:897-2020 | for every caller all other threads stay listed with their counts in their order |
| OrgRecords.EventOutboxComplete | apps/api/src/modules/calendar/calendar.service.ts:64-107 | each version of an event from 1 to the current one is in the outbox exactly once, in every interleaving |
| OrgRecords.CapabilityOutboxComplete | apps/api/src/modules/admin/admin.service.ts:241-292 | the same for a capability row, including concurrent first writes |
| OrgRecordsOnce.OneEventPerKey | apps/api/src/modules/calendar/calendar.service.ts:160-274 | all successes under a key answer with one event and were asked with one fingerprint |
| OrgRecordsOnce.OneEffectPerKey | apps/api/src/modules/calendar/calendar.service.ts:160-274 | every event was committed by exactly one call, and no other call under its key committed one |
| OrgRecordsOnce.ReplayExact | apps/api/src/modules/calendar/calendar.service.ts:174-198 | a retry of the recorded request finds its event exactly when the caller's workspace is the event's |
| OrgRecordsOnce.NoStaleEventUpdate | apps/api/src/modules/calendar/calendar.service.ts:43-110 | at most one call commits an update of an event at a given version, and the event is past that version |
| OrgRecordsOnce.NoStaleCapabilityUpdate | apps/api/src/modules/admin/admin.service.ts:241-292 | the same for a capability |
| OrgRecordsHistory.EventIsItsHistory | apps/api/src/modules/calendar/calendar.service.ts:43-274 | in every run an event holds the content of its last committed save or update, and belongs to whoever saved it |
| OrgRecordsHistory.EventStep | apps/api/src/modules/calendar/calendar.service.ts:64-107 | an event changes only by a save of its own or by an update of its owner under the version it has |
| OrgRecordsHistory.CapabilityIsItsHistory | apps/api/src/modules/admin/admin.service.ts:241-292 | in every run a capability is on or off as the last committed call asked, and has a row exactly if one was committed |
| OrgRecordsHistory.SaveServed | apps/api/src/modules/calendar/calendar.service.ts:160-274 | what an undisturbed save answers, for every request and database |
| OrgRecordsHistory.UpdateServed | apps/api/src/modules/calendar/calendar.service.ts:43-110 | the same for an update |
| OrgRecordsHistory.CapabilityServed | apps/api/src/modules/admin/admin.service.ts:241-292 | the same for a capability |
| OrgRecordsHistory.KeysDistinguish | apps/api/src/modules/calendar/calendar.service.ts:174-198 | two idempotency keys are one exactly for the same user, given key and way of creating |
| OrgRecordsStore.Store.PersistEvent | apps/api/src/modules/calendar/calendar.service.ts:160-274 | lookup and transaction of one uninterrupted call |
| OrgRecordsStore.Store.UpdateEvent | apps/api/src/modules/calendar/calendar.service.ts:64-107 | the guarded update with its event, or nothing |
| OrgRecordsStore.Store.WriteCapability | apps/api/src/modules/admin/admin.service.ts:254-289 | a guarded update of the row that was read, or an insert under the unique key |
| OrgRecordsStore.Store.UpdateCapability | apps/api/src/modules/admin/admin.service.ts:241-292 | an uninterrupted call succeeds exactly when the expected version is the current one, 0 for none |
| Deactivation.HandoverExact | apps/api/src/modules/admin/admin.service.ts:174-215 | the target is left without open reported tasks, open responsibilities and unarchived documents, every task keeps a responsible person and versions follow reporters, if and only if the new owner is somebody else or the target held nothing alone |
| Deactivation.SelfHandoverKeepsTask | apps/api/src/modules/admin/admin.service.ts:174-217 | a target named as their own new owner keeps an open task, and its version rises |
| Deactivation.HandoverKeeps | apps/api/src/modules/admin/admin.service.ts:174-217 | closed tasks, other participations, other documents, accounts and sessions stay; the new owner has what both had; the account is closed, its version raised, its sessions revoked |
| Deactivation.ResponsibleAfter | apps/api/src/modules/admin/admin.service.ts:189-213 | for each task, when somebody is still responsible after the handover |
| Deactivation.RefusalCounts | apps/api/src/modules/admin/admin.service.ts:146-173 | when a deactivation goes on, and when it is refused with the numbers of open tasks the target reports or is responsible for and of unarchived documents |
| Deactivation.MissingOwnerFails | apps/api/src/modules/admin/admin.service.ts:174-215 | the transaction fails exactly when it would hand a task to a user who does not exist |
| DeactivationRuns.SerialDecides | apps/api/src/modules/admin/admin.service.ts:146-173 | without other steps in between, the interleaved checks are the serial ones |
| DeactivationRuns.UpdateCloses | apps/api/src/modules/admin/admin.service.ts:95-99 | an update sets the type and flag asked for, raises the version, and revokes all sessions of the user exactly if it makes the account inactive |
| DeactivationRuns.LastAdminsLost | apps/api/src/modules/admin/admin.service.ts:150-153 | a run in which the two last administrators deactivate each other |
| DeactivationRuns.OffboardedAdminLost | apps/api/src/modules/lifecycle/lifecycle.service.ts:76-90 | a run in which an offboarding is completed for the only administrator |
| DeactivationRuns.AdminsSafeExact | apps/api/src/modules/admin/admin.service.ts:75-217 | deactivations, updates and offboardings leave every workspace an administrator in all runs if and only if those that passed the count and are not committed yet concern at most one active administrator and no offboarding meets one |
| HandoverRuns.LateTaskStays | apps/api/src/modules/admin/admin.service.ts:166-216 | a run in which a task given to the target after the count stays with the closed account |
| HandoverRuns.HandsOverExact | apps/api/src/modules/admin/admin.service.ts:146-221 | in all runs with at most n gifts to the target of a counted call every deactivation not asked to hand over to its target hands everything over, if and only if n is 0 |
| Deactivation.Directory.PassResponsibility | apps/api/src/modules/admin/admin.service.ts:189-213 | the loop over the affected tasks, in any order, gives the same participants; a missing new owner fails it |
| Deactivation.Directory.MoveEverything | apps/api/src/modules/admin/admin.service.ts:174-215 | reporters, responsibilities and documents move together or not at all |
| Deactivation.Directory.Deactivate | apps/api/src/modules/admin/admin.service.ts:146-221 | the refusals in their order, the blocked answer with its impact, and the transaction |
| Sessions.RunInformed | apps/api/src/modules/auth/auth.service.ts:265-284 | in every run a version that a session or request carries is current exactly when no bump came after the read |
| Sessions.HistoryTrue | apps/api/src/modules/auth/auth.service.ts:22-74 | the recorded creation read of a session is a step at which a login or the guard read that user |
| SessionSteps.GuardAnswers | apps/api/src/modules/auth/auth.guard.ts:29-38 | the guard rejects what is revoked, expired or not of an active user with an open company, revokes what was idle too long, and accepts the rest with a current version |
| SessionSteps.SessionRowAfter | apps/api/src/modules/auth/auth.guard.ts:29-38 | a session is revoked exactly by a timeout, a rotation, its own revocation or a revoking change of its user, and for good; it is never prolonged, and its last use is the last touch |
| SessionSteps.NewSession | apps/api/src/modules/auth/auth.service.ts:265-284 | a session appears exactly when a login or a rotation inserts it, with the user and version its request had read |
| SessionSteps.RequestAfter | apps/api/src/modules/auth/auth.service.ts:22-74 | what a login, a guard check or a rotation knows after any step |
| SessionSteps.UserRowAfter | apps/api/src/modules/admin/admin.service.ts:95-99 | a user changes only as an administrator asked, and each change raises the version by one |
| Sessions.GuardExact | apps/api/src/modules/auth/auth.guard.ts:29-38 | the guard accepts exactly the usable sessions whose creation read came after the last bump |
| Sessions.StaleNeverAccepted | apps/api/src/modules/auth/auth.guard.ts:29-38 | after a bump no session whose creation read the user before it is ever accepted, however late it was inserted |
| Sessions.RevocationMissesLateRow | apps/api/src/modules/admin/admin.service.ts:216-217 | a run whose session row, inserted after the mass revocation, is not revoked |
| SessionRevocation.PresentRevoked | apps/api/src/modules/admin/admin.service.ts:95-99 | a session that is there at a mass revocation is revoked in every later state |
| SessionRevocation.RevocationExact | apps/api/src/modules/admin/admin.service.ts:95-99 | a mass revocation catches for good every session whose creation read came before it if and only if no unfinished login, admitted or rotating request carries a version of the user then |
| Sessions.SessionStore.CanActivate | apps/api/src/modules/auth/auth.guard.ts:29-38 | the decision in its order; an idle session is revoked before its version is looked at |
| Sessions.SessionStore.RotateSession | apps/api/src/modules/auth/auth.service.ts:281-284 | the old row is revoked first; the new one carries the version the guard read |
| Sessions.SessionStore.ChangeUser | apps/api/src/modules/admin/admin.service.ts:95-99 | the version always rises, sessions are revoked only on request |
| RealtimeDelivery.DeliveredInOrder | apps/api/src/modules/communication/chat-realtime.service.ts:50-88 | in every run the chat events received are the first publications to the subject since the subscription, in order and without a gap; a reset or error comes last |
| RealtimeDelivery.DeliveredAfterCheck | apps/api/src/modules/communication/chat-realtime.service.ts:50-71 | each one was published to the subscriber's thread, and both access queries succeeded after its publication |
| RealtimeDelivery.ResetExactly | apps/api/src/modules/communication/chat-realtime.service.ts:50-71 | in every run a stream receives a reset if and only if some step finds no access for its next item while it is open; there is at most one, and nothing follows it |
| RealtimeDelivery.NothingAfterClose | apps/api/src/modules/communication/chat-realtime.service.ts:55-86 | a closed stream receives nothing more, whatever is queued |
| RealtimeProgress.PlainDelivers | apps/api/src/modules/communication/chat-realtime.service.ts:15-71 | outside working groups one query with access delivers the head of the queue, and nothing else happens to the stream |
| RealtimeProgress.GroupDelivers | apps/api/src/modules/communication/chat-realtime.service.ts:15-71 | in a working group the second query delivers it |
| RealtimeProgress.QueueDrains | apps/api/src/modules/communication/chat-realtime.service.ts:50-71 | with access and without failures at most two queries for each item empty the queue, and the client receives all of it in order |
| RealtimeProgress.EverythingArrives | apps/api/src/modules/communication/chat-realtime.service.ts:50-88 | from every state of every run, while access stays and nothing fails, finitely many queries deliver all publications to the subject since the subscription, and all to the thread when every subscription was in time |
| RealtimeProgress.AccessChanges | apps/api/src/modules/communication/chat-realtime.service.ts:15-48 | the rows the access check reads are those that the last change of them left |
| RealtimeProgress.FailureErrs | apps/api/src/modules/communication/chat-realtime.service.ts:66-80 | a query that throws ends an open stream with an error; a heartbeat queues a ping |
| RealtimeProgress.ClosedDrops | apps/api/src/modules/communication/chat-realtime.service.ts:55-57 | a closed stream drops its waiting items without a query |
| RealtimeRegistry.LiveReaches | apps/api/src/modules/communication/chat-realtime.service.ts:117-128 | a publication reaches every open stream of its thread exactly when the registry holds their subjects |
| RealtimeRegistry.RegistryExact | apps/api/src/modules/communication/chat-realtime.service.ts:50-88 | this holds throughout a run if and only if every subscription finds its subject registered |
| RealtimeRegistry.NothingMissed | apps/api/src/modules/communication/chat-realtime.service.ts:50-88 | then received and waiting events are exactly the publications to the thread since the subscription |
| RealtimeRegistry.LateSubscriptionMisses | apps/api/src/modules/communication/chat-realtime.service.ts:50-88 | a run in which a late subscription misses a publication |
| RealtimeHub.Hub.Next | apps/api/src/modules/communication/chat-realtime.service.ts:128-128 | the loop over the observers, in any order |
| RealtimeHub.Hub.BeginItem | apps/api/src/modules/communication/chat-realtime.service.ts:15-33 | the head of the queue and the first access query |
| RealtimeHub.Hub.FinishItem | apps/api/src/modules/communication/chat-realtime.service.ts:34-71 | the second access query and its consequence |
| RealtimeHub.Hub.Take | apps/api/src/modules/communication/chat-realtime.service.ts:15-128 | the mutable registry and queues take every step exactly as the stream machine does |
| BackupRetention.ChosenAt | apps/api/scripts/backup.ts:22-30 | the loop chooses a record exactly when it is the first of its period and fewer than the limit of periods come before it |
| BackupRetention.SameKept | apps/api/scripts/backup.ts:22-30 | dropping any records that are not chosen does not change what a rotation keeps |
| BackupRotation.IncrementalIsBatch | apps/api/scripts/backup.ts:9-55 | rotating after every completed backup leaves exactly what one rotation over all directories ever made leaves, for all limits and times |
| BackupRotation.RotationIdempotent | apps/api/scripts/backup.ts:9-39 | a second rotation with the same current backup leaves the directory as it is, so it removes 0 |
| BackupRotation.RotationBound | apps/api/scripts/backup.ts:22-38 | at most daily + monthly + 1 backups are left |
| BackupRotation.ChosenIsRepresentative | apps/api/scripts/backup.ts:21-30 | what the loop chooses are the newest backups of the newest periods; backups of one time count in listing order |
| BackupRotation.RotationKeeps | apps/api/scripts/backup.ts:21-38 | a rotation keeps exactly the current backup, the newest backup of each of the newest days and of each of the newest months, and the directories without a readable manifest |
| BackupRotation.BackupRoot.SelectKept | apps/api/scripts/backup.ts:22-30 | the loop over the sorted records with its three sets |
| BackupRotation.BackupRoot.Rotate | apps/api/scripts/backup.ts:31-38 | the removal loop leaves the survivors and counts what it removed |
| OrgTree.SiblingsSorted | apps/web/src/pages/OrganizationPage.tsx:20-20 | siblings are listed by sort order, then by name |
| OrgTree.ChildrenMembers | apps/web/src/pages/OrganizationPage.tsx:17-19 | the children of a unit are exactly the units that name it |
| OrgTree.MarkUp | apps/web/src/pages/OrganizationPage.tsx:27-31 | the upward walk ends on any graph and keeps the marked set closed under parents |
| OrgTree.MarkVisible | apps/web/src/pages/OrganizationPage.tsx:24-33 | the marked units are exactly the matching ones and all their ancestors, on any graph |
| OrgTree.TreeBuilder.AppendUnit | apps/web/src/pages/OrganizationPage.tsx:37-45 | the recursive closure with its mutable sets; it ends because the unvisited units get fewer |
| OrgTree.CreateOrgTree | apps/web/src/pages/OrganizationPage.tsx:16-49 | the rows are those of the traversal that shows the matching units and their ancestors, or everything without a search |
| OrgTreeRows.EachShownOnce | apps/web/src/pages/OrganizationPage.tsx:35-48 | on any parent graph every shown unit has exactly one row and no other unit has one |
| OrgTreeRows.SearchRows | apps/web/src/pages/OrganizationPage.tsx:22-48 | a search emits exactly the matching units and their ancestors, each once, cycles included |
| OrgTreeRows.ForestsHaveLevels | apps/web/src/pages/OrganizationPage.tsx:16-49 | depths exist if and only if all parents are present and no parent chain is a cycle |
| OrgTreeRows.SearchForestRows | apps/web/src/pages/OrganizationPage.tsx:35-48 | a search over a forest lists its rows in preorder, each with its true depth |
| OrgTreeRows.BrowsingDepthsExact | apps/web/src/pages/OrganizationPage.tsx:43-47 | without a search the depths are true if and only if every unit with children is expanded |
| CompanyMapping.RaisesExactly | packages/contracts/src/import.ts:133-142 | while the mapping is one to one, the last root with a code or an id stands for all of them |
| CompanyMapping.IssuesExact | packages/contracts/src/import.ts:131-145 | no issue if and only if the mapping is one to one; the first issue is raised by the first root that does not fit |
| CompanyMapping.IssuesAreContradictions | packages/contracts/src/import.ts:131-145 | all issues, in order: exactly the roots that contradict the last earlier root with their code or with their id |
| CompanyMapping.CheckMapping | packages/contracts/src/import.ts:131-145 | the loop with its two overwritten maps raises an issue exactly at those roots |
| ByteSum.RepresentableMeans | packages/contracts/src/import.ts:247-247 | the representable integers are those with a significand of at most 53 bits |
| ByteSum.RoundNearest | packages/contracts/src/import.ts:247-247 | rounding gives a nearest representable integer |
| ByteSum.TiesToEven | packages/contracts/src/import.ts:247-247 | ties go to the even significand |
| ByteSum.RoundMonotone | packages/contracts/src/import.ts:247-247 | rounding is monotone |
| ByteSum.SafeSumExact | packages/contracts/src/import.ts:247-250 | the rounded sum is a safe integer if and only if the exact sum is |
| ByteSum.RoundedSumDiffers | packages/contracts/src/import.ts:247-250 | beyond 2^53 the rounded sum can differ from the exact one |
| ByteSum.DeclaredBytesAreSafe | packages/contracts/src/import.ts:247-250 | the summing loop and the test accept exactly the lists with a safe exact sum |

## Left out

- Prisma, SQLite and the text of SQL: a table is a map or a sequence of rows, a query is its meaning.
- Audit and notification rows, views, labels, previews, search, recommendations and analytics: plumbing.
- File attachments: a post carries their identifiers, and the check that they may be attached is an input.
- Trimming and Unicode: texts arrive trimmed; the name order of units and the search test are inputs.
- Idempotency records do not expire during a run.
- DIRECT threads from before direct keys existed, and the bounded search for them; threads of kind COMPANY.
- Fingerprints, password hashes, tokens, two-factor steps, cookies and CSRF: fingerprints are injective, the rest is absent.
- The encoding of cursors: a cursor is the tuple it encodes.
- Restricted sessions, public and administrator routes, the last-seen refresh inside the guard (it is a step of its own).
- Waiting times, clocks and heartbeat intervals: times are inputs of steps, heartbeats are steps.
- User streams of the live service, which have no access check or queue.
- Encryption, upload, deletion on disk and the path-escape check of backups; rotation is over records with time, day and month.
- Shape checks of the import schemas, path uniqueness and required files: one-line tests.
- ChatOnce.OneEffectPerKey: direct creates are excluded because the statement is false for them; CreateAgreementExact has the exact condition.
- Creating users and administrators, and every change of tasks and documents outside these calls, are arbitrary changes that take no administrator away; offboardings do not check that work was handed over.
- BackupRotation.IncrementalIsBatch: directories are listed in the order in which they were made.
- BackupRotation.BackupRoot.Rotate: the library's in-place sort is a stable insertion into a sequence, because only its result matters.
- ThreadListing.UnreadWalkComplete: the pages of one walk read one state of the tables.
- MessagePaging.OlderWalk: the pages of one walk read one state of the tables.
- ByteSum.SafeSumExact: overflow to infinity is not modelled; the schema's bounds on the number and size of files keep sums far below it.
