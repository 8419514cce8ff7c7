# Verification of the ZeroMes state machines

ZeroMes is a messenger: a message service with an outbox worker, an auth service and a gateway in Go, and a
browser client in TypeScript that holds all keys. This project models the state machines behind that plumbing in
Dafny and proves what they keep over whole runs. `dafny verify dfyconfig.toml` checks it.

Each component that changes state is a class whose methods follow the source statement by statement. Where the
claims are about interleavings, a machine gives the same component as atomic steps (one SQL statement, transaction,
Kafka publish or browser event each), the methods are proved to take the machine's steps, and the results are
proved of all runs of the machine.

| files | component |
|---|---|
| `Payloads`, `OutboxMachine`, `OutboxSafety`, `OutboxMeaning`, `OutboxDrain`, `OutboxRounds`, `MessageService`, `Bags` | the four mutating calls, Kafka, and the outbox worker with its retries |
| `GroupMachine`, `GroupGuards`, `GroupService`, `GroupCreation` | group membership and key rotation under concurrent calls; creating a group |
| `Pagination`, `ReadMarks`, `ChatIds` | paging a chat through a changing table up to the chat window; read marks; chat ids |
| `Ilike`, `RateLimiter` | the search pattern and its meaning; the Redis rate limiter |
| `Texts`, `Codec`, `ChatKeys`, `Rekeying` | hexadecimal and base64; wrapped chat keys; changing the password |
| `ReconnectMachine`, `WebSocketClient`, `KeyStorage` | the reconnecting client; the private key on the device |

Assumptions. A SQL statement or transaction is atomic, a failed publish is not on the log, and a process does not
stop between its commit and its publish. One worker runs. Message ids are fresh. Clocks, random nonces, generated
ids and the success of each statement are parameters, so every result holds for all of them. AES-GCM is any AEAD
that opens what it seals, PBKDF2 any function, case folding any function that keeps `\`, `%` and `_` apart.

Where the code does less than its names, comments or documentation say, the model follows the code and states what
holds instead:

- `isAdmin` in RemoveGroupMember is a membership test: a removal goes through exactly when both users are active
  members (`RemovalIgnoresRoles`, `MemberRemovesAdmin`), and in every interleaving nobody leaves otherwise
  (`OnlyCheckedDepartures`).
- Adding a former member succeeds and stores a seed, but leaves the user out (`GroupMachine.ReAddingIsNoOp`).
- A rotation can stay due after all calls have ended (`MissedRotation`, exactly when by `DueIffMissed`), and a failed
  release ends rotation for good (`LeakedIffReleaseFailed`, `LeakIsForever`, a run in `LeakedRun`).
- `has_more` compares with the unclamped limit, so a limit outside 1..50 never pages (`WalkComplete`), and a
  deleted cursor row ends a walk early, which then misses exactly what lies below its last page (`CutWalkMisses`).
- The rate limiter is not a quota per window: it cuts off a steady client for good (`SteadyClientIsCutOff`).
- The saga does not undo its first step: when the second fails, the password has changed and the chat keys have
  not (`Rekeying.Servers.ChangePassword`).
- A key saved while the password is being changed can be overwritten (`RekeyPreserves`).
- The close of a replaced socket stops the ping of the live one (`PingLostIff`), disconnect() is undone by any later
  close code that is retried, always so (attempts being left) for a socket that was still connecting, which the
  browser closes with 1006 (`DisconnectUndone`), and the cap on the reconnect delay never applies (`BackoffValues`).
- A failed IndexedDB write or read can bring back an older private key, and an empty key in session mode is not
  restored (`RunRestoresLast`).

## Model

| member | source | states |
|---|---|---|
| `ChatIds.ChatIdIsSorted` | src/message-service/internal/messaging/service/service.go:36-38 | The id is the smaller id, a colon, and the larger one. |
| `ChatIds.LessMeans` | src/message-service/internal/messaging/service/service.go:37-37 | Smaller is meant as sort.Strings means it: the first difference decides, a proper prefix comes first. |
| `ChatIds.Symmetric` | src/message-service/internal/messaging/service/service.go:36-38 | Both participants compute the same chat id. |
| `ChatIds.InjectiveOnPairs` | src/message-service/internal/messaging/service/service.go:36-38 | For ids without a colon, two chats share an id if and only if they are the same unordered pair of users. |
| `ChatIds.PrintMeans` | src/message-service/internal/messaging/repository/postgres.go:201-206 | The text of a UUID is its digits in groups of 8, 4, 4, 4 and 12 with hyphens between them. |
| `ChatIds.PrintKeepsOrder` | src/message-service/internal/messaging/repository/postgres.go:201-206 | Canonical UUID text compares as the 16 bytes do, hyphens included: the order the CASE uses is the order Go sorts by. |
| `ChatIds.SqlAgreesWithGo` | src/message-service/internal/messaging/repository/postgres.go:201-206 | For all pairs of UUIDs the CASE in SQL and the sort in Go build the same chat id. |
| `ChatIds.SqlChatIdInjective` | src/message-service/internal/messaging/repository/postgres.go:201-206 | The id built in SQL names one unordered pair of UUIDs. |
| `Payloads.MessageRoundTrip` | src/message-service/internal/cores/outbox-worker/worker.go:77-88 | A marshalled message is unmarshalled to the same message, all ten fields. |
| `Payloads.RetryIsOriginal` | src/message-service/internal/cores/outbox-worker/worker.go:74-110 | For each of the four event kinds the worker decodes the stored payload into the very KafkaProducer call, with the very arguments, that the service had tried. |
| `Payloads.OddPayloads` | src/message-service/internal/cores/outbox-worker/worker.go:74-110 | An unknown event type is ignored, a payload of the wrong shape is an error, and absent fields are empty. |
| `ReadMarks.MarkAllMeans` | src/message-service/internal/messaging/repository/postgres.go:180-192 | After any sequence of marks by one reader in one chat a row is read exactly when some cutoff covers it in the original table; every other row is untouched. |
| `ReadMarks.MarksCollapse` | src/message-service/internal/messaging/repository/postgres.go:180-192 | Any such sequence equals a single mark at the latest cutoff. |
| `ReadMarks.ReadEventAgrees` | src/frontend/src/components/ChatWindow.tsx:250-268 | On the author's client, list ordered by distinct times and marked message loaded, the read flags agree with the server's rows after the event. |
| `ReadMarks.ReadEventMeans` | src/frontend/src/components/ChatWindow.tsx:255-267 | Exactly our messages up to and including the marked one become read. |
| `ReadMarks.UnloadedMarkLags` | src/frontend/src/components/ChatWindow.tsx:255-257 | When the marked message is not loaded the flags stay, and agree if and only if no unread message shown is covered by the mark. |
| `OutboxMeaning.ReceiveMeans` | src/message-service/internal/messaging/service/service.go:31-34 | Which requests are refused before anything is read. |
| `OutboxMeaning.LoadMeans` | src/message-service/internal/messaging/service/service.go:112-119 | The row read, and the reply when it cannot be read, is missing, or is somebody else's. |
| `OutboxMeaning.SendCommits` | src/message-service/internal/messaging/service/service.go:44-55 | A send stores its row, all ten fields, and both chats rows, and owes message_sent with that row. |
| `OutboxMeaning.DeleteCommits` | src/message-service/internal/messaging/service/service.go:121-125 | A delete leaves the table without exactly its row, and owes message_deleted with the row as read. |
| `OutboxMeaning.ReadCommits` | src/message-service/internal/messaging/service/service.go:153-157 | A read mark raises to 2 exactly the rows of the chat sent to the reader up to the time of the marked row, and owes message_read with reader and author in that order. |
| `OutboxMeaning.AlterCommits` | src/message-service/internal/messaging/service/service.go:194-198 | An edit replaces exactly the content of its row, and owes message_altered with the row as read and the new content. |
| `OutboxMeaning.FailedCommit` | src/message-service/internal/messaging/service/service.go:55-57 | A transaction that fails changes no table. |
| `OutboxMeaning.PublishMeans` | src/message-service/internal/messaging/service/service.go:60-60 | A publish appends the event to the log and ends the call, or leaves it to the outbox. |
| `OutboxMeaning.SaveMeans` | src/message-service/internal/messaging/service/service.go:65-81 | The outbox row, all nine fields; the call succeeds whether the insert does or not. |
| `OutboxSafety.StepKeeps` | src/message-service/internal/messaging/service/service.go:55-84 | Every atomic step of a call or of the worker, failing or not, keeps the invariant: rows sound, the worker's copies equal to its rows, tries explained, every event accounted for. |
| `OutboxSafety.RunKeeps` | src/message-service/internal/cores/outbox-worker/worker.go:45-72 | The invariant holds after every interleaving of calls and worker steps. |
| `OutboxSafety.EventsConserved` | src/message-service/internal/cores/outbox-worker/worker.go:45-72 | When no outbox statement fails: the multiset of events of the calls that changed the database equals published plus pending plus failed, however calls, worker and Kafka failures interleave. |
| `OutboxSafety.AtLeastOnce` | src/message-service/internal/messaging/service/service.go:60-81 | With outbox statements failing too: an applied event is published, in an open row, owed by a running call, or lost because publish and insert both failed; nothing published was not applied; surplus copies come only from rows that could not be marked. |
| `OutboxSafety.RunInventsNothing` | src/message-service/internal/cores/outbox-worker/worker.go:74-110 | No log entry, row or call ever carries an event that no call applied. |
| `OutboxSafety.RunSettles` | src/message-service/internal/messaging/repository/outbox_repository.go:80-111 | Rows never disappear, keep their event and time, never lose retries, and do not change once completed or failed. |
| `OutboxSafety.RowLife` | src/message-service/internal/cores/outbox-worker/worker.go:58-71 | Over every run: completed implies published, failed implies retry_count 5, retry_count never exceeds 5 nor the failed publishes, completed and failed are final. |
| `OutboxSafety.StatusesRise` | src/message-service/internal/messaging/repository/postgres.go:26-56 | In every run a message keeps its fields except content and status, its status never falls, a direct message has the chat id of its two users, and both chats rows exist. |
| `OutboxSafety.OnlyOwnersChange` | src/message-service/internal/messaging/service/service.go:112-123 | In every interleaving, between a call's check and its write included: a message disappears or changes its content only by a delete or edit of its own author, and its status rises only by a read mark of its recipient in its chat. |
| `OutboxDrain.FrontIsFetched` | src/message-service/internal/messaging/repository/outbox_repository.go:41-48 | A pending row with fewer than 100 pending rows before it is in every batch the query may return, ties broken in any way. |
| `OutboxDrain.FrontSettles` | src/message-service/internal/cores/outbox-worker/worker.go:58-71 | Six rounds whose updates succeed complete or fail such a row, whatever Kafka does. |
| `OutboxDrain.SettledWithin` | src/message-service/internal/cores/outbox-worker/worker.go:45-72 | When no two pending rows up to its time share their times, a pending row with k older pending rows is settled within 6 * (k / 100 + 1) rounds and one more for each round with a failed update, newer rows arriving at will. |
| `OutboxDrain.DrainedWithin` | src/message-service/internal/cores/outbox-worker/worker.go:45-72 | Whatever the ties, N rows pending up to some time are settled within 6 * N / 100 + 6 rounds and one more for each round with a failed update. |
| `OutboxRounds.WorkerRoundIsRound` | src/message-service/internal/cores/outbox-worker/worker.go:45-72 | A worker round of the machine, calls interleaved with it and anything failing, changes the table exactly as a round does; it is a round with a failure only if one of its updates fails. |
| `OutboxRounds.NoStarvation` | src/message-service/internal/cores/outbox-worker/worker.go:23-24 | The starvation bound for runs of the interleaved machine: calls, publishes, inserts, fetches and updates may fail, rows inserted meanwhile are newer, and times are distinct among the pending rows up to this one at the start. |
| `OutboxRounds.NoBacklog` | src/message-service/internal/cores/outbox-worker/worker.go:23-24 | The drain bound for the same runs, times distinct or not. |
| `MessageService.Service.Deliver` | src/message-service/internal/messaging/service/service.go:60-82 | Publishing a committed event, or saving it to the outbox: the new state is that of the machine's publish and save steps. |
| `MessageService.Service.SendMessage` | src/message-service/internal/messaging/service/service.go:31-85 | Reply, tables, log and outbox for every branch and failure, the stored row field by field; the call is the machine's five steps. |
| `MessageService.Service.GetByID` | src/message-service/internal/messaging/repository/postgres.go:132-162 | The row, or which error is reported instead. |
| `MessageService.Service.DeleteMessage` | src/message-service/internal/messaging/service/service.go:108-141 | Reply, tables, log and outbox for every branch: on success the table is the old one without exactly that row; the call is the machine's steps of a delete. |
| `MessageService.Service.MarkAsRead` | src/message-service/internal/messaging/service/service.go:143-178 | Reply, tables, log and outbox for every branch: on success exactly the rows of the chat sent to the reader up to the marked one rise to read; there is no membership check. |
| `MessageService.Service.AlterMessage` | src/message-service/internal/messaging/service/service.go:180-217 | Reply, tables, log and outbox for every branch: on success exactly the content changes; the event carries the message as it was before the edit. |
| `MessageService.Service.GetPendingEvents` | src/message-service/internal/messaging/repository/outbox_repository.go:41-78 | The oldest pending rows up to the limit, in order of time, none twice. |
| `MessageService.Service.PublishEvent` | src/message-service/internal/cores/outbox-worker/worker.go:74-110 | Dispatch and decoding: the log and the result are those of the machine's attempt. |
| `MessageService.Service.ProcessEvent` | src/message-service/internal/cores/outbox-worker/worker.go:58-71 | One pass of the loop is the machine's attempt and update. |
| `MessageService.Service.ProcessBatch` | src/message-service/internal/cores/outbox-worker/worker.go:58-71 | The loop over a batch is the sequence of those steps. |
| `MessageService.Service.ProcessEvents` | src/message-service/internal/cores/outbox-worker/worker.go:45-72 | One tick is a fetch of a possible batch followed by those steps. |
| `MessageService.TickIsRound` | src/message-service/internal/cores/outbox-worker/worker.go:45-72 | What one tick does keeps the invariant and is one round, without a failure when its updates succeed, so the drain bounds count ticks. |
| `MessageService.DeliveredCases` | src/message-service/internal/messaging/service/service.go:60-82 | The three ends of a committed event: on the log, in a new pending row, or lost. |
| `MessageService.SentCall` | src/message-service/internal/messaging/service/service.go:31-85 | Exactly what a lone send does to the tables. |
| `MessageService.LoadedCall` | src/message-service/internal/messaging/service/service.go:108-217 | Exactly what a lone delete, read mark or edit does once it found its message. |
| `MessageService.UnloadedCall` | src/message-service/internal/messaging/service/service.go:112-119 | A call that finds no message, or one of somebody else, changes nothing. |
| `GroupMachine.RotationSafe` | src/message-service/internal/messaging/service/service.go:456-477 | In every interleaving of remove, leave and add calls, any statement failing: at most one call is between acquiring and releasing the lock and the columns name its user; each departed member is covered by needs_rotation or a version raised since; key_version plus a due rotation is at most the number of departed rows; no stored seed is ahead of the version. |
| `GroupMachine.StepKeeps` | src/message-service/internal/messaging/repository/postgres.go:453-486 | Each single statement keeps that invariant. |
| `GroupMachine.NextAdvances` | src/message-service/internal/messaging/repository/postgres.go:466-476 | Only the call that holds the lock changes the version, by one. |
| `GroupMachine.RunAdvances` | src/message-service/internal/messaging/repository/postgres.go:338-355 | Over every run the version never falls and a membership row goes only from absent to active to left. |
| `GroupMachine.VersionBounded` | src/message-service/internal/messaging/repository/postgres.go:466-476 | The version never exceeds the number of users the group ever had. |
| `GroupMachine.LeakCause` | src/message-service/internal/messaging/service/service.go:465-473 | The lock is left set without a holder if and only if the holder's release statement fails. |
| `GroupMachine.LeakIsForever` | src/message-service/internal/messaging/service/service.go:471-473 | After that no run ever rotates the key again. |
| `GroupMachine.LeakedIffReleaseFailed` | src/message-service/internal/messaging/service/service.go:465-473 | Over a whole run the lock is left set without a holder if and only if a release statement failed in it. |
| `GroupMachine.DueIffMissed` | src/message-service/internal/messaging/service/service.go:456-477 | Whatever fails, once all calls have ended: the lock is set exactly when a release failed in the run, and a rotation is still due exactly when some step gave up on it (lock found set, acquire or increment failed) and no later step incremented. |
| `GroupMachine.LeakedRun` | src/message-service/internal/messaging/service/service.go:471-473 | A run that ends rotation for good: the release of a lone departure fails. |
| `GroupMachine.MissedRotation` | src/message-service/internal/messaging/service/service.go:461-463 | Such a run exists: one member leaves while another's call is between increment and release, and the rotation stays due. |
| `GroupMachine.SequentialVersions` | src/message-service/internal/messaging/service/service.go:371-375 | In failure-free runs of one call after the other key_version equals the number of departed rows. |
| `GroupGuards.AddIsGuarded` | src/message-service/internal/messaging/service/service.go:306-348 | An Add run alone with nothing failing goes through if and only if the one who adds is an active member and the one added is not; otherwise it names the reason and changes neither members nor seeds. |
| `GroupGuards.OnlyCheckedAdditions` | src/message-service/internal/messaging/service/service.go:311-332 | In every interleaving a row appears only, as an active plain member, by the insert of an Add whose actor was an active member when checked and whose user was checked not to be one. |
| `GroupGuards.OnlyCheckedSeeds` | src/message-service/internal/messaging/service/service.go:336-341 | In every interleaving a seed changes only by the last statement of such an Add, to the seed that Add carries. |
| `GroupGuards.LeaveIsGuarded` | src/message-service/internal/messaging/service/service.go:384-407 | A lone departure goes through if and only if the user is an active member. |
| `GroupGuards.EmptyIsRefused` | src/message-service/internal/messaging/service/service.go:307-309 | A call with an empty user is refused. |
| `GroupGuards.FailureEnds` | src/message-service/internal/messaging/service/service.go:355-373 | A statement that fails before or outside the rotation ends the call with its error and changes nothing. |
| `GroupGuards.FailedRotationIsLogged` | src/message-service/internal/messaging/service/service.go:375-381 | A rotation that fails leaves the departure in place and the reply without an error. |
| `GroupGuards.RemovalIgnoresRoles` | src/message-service/internal/messaging/service/service.go:350-382 | A removal run alone with nothing failing departs the user if and only if both users are active members, whatever their roles; otherwise it changes nothing and names the reason. |
| `GroupGuards.MemberRemovesAdmin` | src/message-service/internal/messaging/service/service.go:355-361 | A plain member removes the admin. |
| `GroupGuards.OnlyCheckedDepartures` | src/message-service/internal/messaging/service/service.go:355-371 | In every interleaving a member leaves only by the departure statement of a call of their own, or of a removal whose caller was an active member when checked; and the one who leaves had been checked to be active. |
| `GroupMachine.ReAddingIsNoOp` | src/message-service/internal/messaging/service/service.go:332-343 | Adding a user who is not active replies Ok and stores a seed at the current version, yet makes the user a member if and only if no row of a past membership exists. |
| `GroupService.Service.CheckGroupMembership` | src/message-service/internal/messaging/repository/postgres.go:380-394 | Membership as of its own turn; the call proceeds as the machine says. For isAdmin too it is only membership. |
| `GroupService.Service.RemoveMember` | src/message-service/migrations/000006_group_chats.up.sql:62-77 | The update of left_at together with its trigger. |
| `GroupService.Service.TryAcquireRotationLock` | src/message-service/internal/messaging/repository/postgres.go:453-464 | The conditional update of the lock columns. |
| `GroupService.Service.IncrementKeyVersion` | src/message-service/internal/messaging/repository/postgres.go:466-476 | The increment, which also clears needs_rotation. |
| `GroupService.Service.ReleaseRotationLock` | src/message-service/internal/messaging/repository/postgres.go:478-486 | The release, whose failure leaves the lock set. |
| `GroupService.Service.GetCurrentKeyVersion` | src/message-service/internal/messaging/repository/postgres.go:442-451 | The version as of its own turn. |
| `GroupService.Service.AddMember` | src/message-service/internal/messaging/repository/postgres.go:338-346 | The insert that does nothing on conflict. |
| `GroupService.Service.SaveGroupKeySeed` | src/message-service/internal/messaging/repository/postgres.go:417-426 | The upsert of a seed at the version read before. |
| `GroupService.Service.TryKeyRotation` | src/message-service/internal/messaging/service/service.go:456-477 | Whatever other calls do between its statements, the call ends as the machine's call does, returning the version it produced or read, or 0 on error. |
| `GroupService.Service.RemoveGroupMember` | src/message-service/internal/messaging/service/service.go:350-382 | The whole call, other calls interleaving anywhere, is a call of the machine with this reply. |
| `GroupService.Service.LeaveGroup` | src/message-service/internal/messaging/service/service.go:384-407 | The same for leaving. |
| `GroupService.Service.AddGroupMember` | src/message-service/internal/messaging/service/service.go:306-348 | The same for adding. |
| `GroupService.ServiceIsSafe` | src/message-service/internal/messaging/service/service.go:350-407 | Every reachable state of the service satisfies the invariant and the version bound. |
| `GroupService.DeparturesAreFinal` | src/message-service/internal/messaging/repository/postgres.go:338-355 | Who has left stays left, and stays covered, in every later state. |
| `GroupCreation.LastSeedIsLast` | src/message-service/internal/messaging/service/service.go:283-286 | Indexing the distributions keeps for each user the one nobody comes after. |
| `GroupCreation.NewGroup.AddMembers` | src/message-service/internal/messaging/service/service.go:268-281 | The members are the creator, as admin, and the non-empty ids, whatever their order and repetitions. |
| `GroupCreation.NewGroup.IndexSeeds` | src/message-service/internal/messaging/service/service.go:283-286 | The last distribution for each user wins. |
| `GroupCreation.NewGroup.HandOut` | src/message-service/internal/messaging/service/service.go:287-295 | Each listed member named by a distribution holds it at version 0; an empty id with a distribution fails the call. |
| `GroupCreation.NewGroup.CreateGroup` | src/message-service/internal/messaging/service/service.go:254-304 | On success members and seeds are given user by user, whatever the order and repetitions of the ids: the creator is the only admin, each listed member holds its last seed at version 0; without faults it succeeds exactly when the arguments allow. |
| `GroupCreation.CreatedIsInitial` | src/message-service/internal/messaging/service/service.go:254-304 | What it leaves is a legal start for the rotation results. |
| `Pagination.PageMeans` | src/message-service/internal/messaging/repository/postgres.go:64-95 | A page holds rows of its chat only, below the cursor, newest first, and what it leaves out of the chat is older than all of it and left out because the page is full. |
| `Pagination.GetByChatID` | src/message-service/internal/messaging/repository/postgres.go:58-130 | The newest rows of the chat asked for below the cursor, strictly descending by (created_at, id), up to the limit; none when the cursor row is gone. |
| `Pagination.GetMessages` | src/message-service/internal/messaging/transport/grpc_handler.go:93-104 | Only messages of the chat asked for, below the cursor, at most 50 or the limit in 1..50, none left out but for fullness; the last id as next_message_id; has_more compared with the unclamped limit; the two refusals and no others. |
| `Pagination.WalkDescends` | src/message-service/internal/messaging/repository/postgres.go:87-93 | All pages of a walk together are strictly descending, so nothing is returned twice, the table changing at will between pages. |
| `Pagination.NoneSkipped` | src/message-service/internal/messaging/repository/postgres.go:87-93 | A message present in every table is on a page so far or below the last full page. |
| `Pagination.WalkStaysInChat` | src/message-service/internal/messaging/repository/postgres.go:68-68 | Whatever happens to the tables, a walk returns messages of its chat only. |
| `Pagination.WalkIsExact` | src/message-service/internal/messaging/transport/grpc_handler.go:93-98 | With a limit in 1..50 a finished walk returns every message present all the time exactly once, in descending order, whatever else is inserted or deleted. |
| `Pagination.WalkIsShort` | src/message-service/internal/messaging/transport/grpc_handler.go:93-98 | Every walk ends: n messages that ever existed allow at most n / limit + 1 requests. |
| `Pagination.WalkCount` | src/message-service/internal/messaging/transport/grpc_handler.go:93-98 | On an unchanging chat of n messages it takes exactly n / limit + 1 requests and returns exactly the chat. |
| `Pagination.WalkComplete` | src/message-service/internal/messaging/transport/grpc_handler.go:97-97 | On an unchanging chat a finished walk returns the whole chat if and only if the limit is in 1..50 or the chat has at most 50 messages. |
| `Pagination.DeletedCursorEnds` | src/message-service/internal/messaging/repository/postgres.go:75-85 | A page is empty exactly when its cursor row is gone or nothing is below it. |
| `Pagination.UnfinishedWalk` | src/message-service/internal/messaging/repository/postgres.go:87-93 | A walk with more to load has returned, of the messages present in every table, exactly those not below its last page. |
| `Pagination.CutWalkMisses` | src/message-service/internal/messaging/repository/postgres.go:75-85 | A deleted cursor row ends the walk, which has then missed exactly the permanent messages below its last page; it is complete if and only if there are none. |
| `Pagination.ChatWindow.LoadMessages` | src/frontend/src/components/ChatWindow.tsx:99-101 | The window shows the first page, oldest first. |
| `Pagination.ChatWindow.LoadMoreMessages` | src/frontend/src/components/ChatWindow.tsx:288-335 | One more page is prepended: the window keeps showing the reversal of a walk; nothing happens when there is no more, and a deleted cursor row stops the paging. |
| `Pagination.ReverseSorts` | src/frontend/src/components/ChatWindow.tsx:324-326 | The shown list is ascending and holds the same messages. |
| `Pagination.WindowIsComplete` | src/frontend/src/components/ChatWindow.tsx:288-335 | With nothing more to load, no walk cut short and the chat unchanged, the window shows exactly the chat in ascending order, after n / 50 + 1 requests. |
| `Pagination.CutWindowMisses` | src/frontend/src/components/ChatWindow.tsx:307-310 | A window whose walk was cut short shows, of the permanent messages, exactly those no older than its oldest one. |
| `Ilike.EscapeILIKE` | src/auth-service/internal/auth/repository/postgres.go:16-21 | The three passes give the character-wise escape, and unescaping gives the text back. |
| `Ilike.PassesAreOne` | src/auth-service/internal/auth/repository/postgres.go:16-21 | Three sequential ReplaceAll passes equal one pass over the characters. |
| `Ilike.EscapeInjective` | src/auth-service/internal/auth/repository/postgres.go:16-21 | Different texts have different patterns. |
| `Ilike.UnderscoreMeans` | src/auth-service/internal/auth/repository/postgres.go:88-99 | In a pattern an underscore stands for any one character. |
| `Ilike.PercentMeans` | src/auth-service/internal/auth/repository/postgres.go:88-99 | In a pattern a percent sign stands for any text. |
| `Ilike.BackslashMeans` | src/auth-service/internal/auth/repository/postgres.go:88-99 | In a pattern a backslash takes the next character as it is, and there must be one. |
| `Ilike.EscapedMatchesPrefix` | src/auth-service/internal/auth/repository/postgres.go:88-99 | Under LIKE an escaped text followed by % matches exactly the texts it begins, and is never a bad pattern. |
| `Ilike.SearchMeansPrefix` | src/auth-service/internal/auth/repository/postgres.go:88-99 | Under ILIKE the search matches a login exactly when the login begins with the text up to case folding, for every folding that keeps the special characters apart. |
| `Ilike.AsciiSearch` | src/auth-service/internal/auth/repository/postgres.go:88-99 | ASCII folding is such a folding. |
| `Ilike.SearchUsers` | src/auth-service/internal/auth/repository/postgres.go:88-122 | The first ten users found, in scan order; all of them when there are fewer. |
| `RateLimiter.KeyInjective` | src/api-gateway/internal/cores/middleware/ratelimit.go:15-15 | Different route and client pairs have different counters, IPv6 addresses included. |
| `RateLimiter.BurstMeans` | src/api-gateway/internal/cores/middleware/ratelimit.go:17-19 | What the counter counts: the requests since the last pause of a whole window, characterised by the gaps between them. |
| `RateLimiter.Limiter.Handle` | src/api-gateway/internal/cores/middleware/ratelimit.go:14-33 | A request is refused exactly when Redis answers and its burst exceeds the limit; other keys are untouched; a failing Redis admits. |
| `RateLimiter.RejectedUntilPause` | src/api-gateway/internal/cores/middleware/ratelimit.go:25-30 | Between a rejection and a later admission lies a pause of at least a window. |
| `RateLimiter.PauseReadmits` | src/api-gateway/internal/cores/middleware/ratelimit.go:25-30 | The request after a rejected one is admitted if and only if such a pause precedes it. |
| `RateLimiter.SteadyClientIsCutOff` | src/api-gateway/internal/cores/middleware/ratelimit.go:19-25 | A client that never pauses for a window has exactly its first `limit` requests admitted, however slow it is. |
| `RateLimiter.WindowBound` | src/api-gateway/internal/cores/middleware/ratelimit.go:14-33 | At most `limit` requests of one key are admitted in any half-open interval of one window. |
| `RateLimiter.LimitHolds` | src/api-gateway/internal/cores/middleware/ratelimit.go:14-33 | The same over every history of all keys and Redis failures, for the requests Redis answered. |
| `Codec.FromHex` | src/frontend/src/lib/crypto/ecc.ts:94-100 | The array of the whole pairs of the text; the odd last character is lost. |
| `Codec.HexPairsParse` | src/frontend/src/lib/crypto/ecc.ts:96-98 | Each byte is what parseInt with radix 16 makes of its pair, NaN and negative numbers included. |
| `Codec.HexRoundTrip` | src/frontend/src/lib/crypto/ecc.ts:85-100 | fromHex after toHex is the identity on byte arrays. |
| `Codec.HexBackAndForth` | src/frontend/src/lib/crypto/ecc.ts:85-100 | toHex after fromHex lower-cases the text if and only if it is hexadecimal and of even length. |
| `Codec.Base64RoundTrip` | src/frontend/src/lib/crypto/encryption.ts:114-133 | Decoding base64 as browsers do, after encoding, is the identity on byte arrays. |
| `Codec.GroupIsNumber` | src/frontend/src/lib/crypto/encryption.ts:114-121 | Four characters are the 24 bits of three bytes as one number, shorter ends padded. |
| `Codec.EncodeTail` | src/frontend/src/lib/crypto/encryption.ts:114-121 | Every further three bytes are encoded the same way, four characters on. |
| `Codec.DecodeFails` | src/frontend/src/lib/crypto/encryption.ts:126-133 | Decoding fails if and only if a character is no digit or a single digit is left over. |
| `Codec.PaddingOptional` | src/frontend/src/lib/crypto/encryption.ts:126-133 | Text without its padding decodes to the same bytes. |
| `Codec.SpaceIgnored` | src/frontend/src/lib/crypto/encryption.ts:126-133 | White space is ignored wherever it stands. |
| `Codec.ArrayBufferToBase64` | src/frontend/src/lib/crypto/encryption.ts:114-121 | The loop yields the base64 of the array; btoa never throws on it. |
| `Codec.Base64ToArrayBuffer` | src/frontend/src/lib/crypto/encryption.ts:126-133 | The loop yields the decoded bytes, or reports atob's error. |
| `ChatKeys.EncryptChatKeyWithPrivateKey` | src/frontend/src/lib/crypto/encryption.ts:157-190 | Nonce and sealed key in one array, in base64; an unusable private key throws. |
| `ChatKeys.DecryptChatKeyWithPrivateKey` | src/frontend/src/lib/crypto/encryption.ts:199-225 | Slices at 12 and opens, or reports which text cannot be opened. |
| `ChatKeys.WrapRoundTrip` | src/frontend/src/lib/crypto/encryption.ts:157-225 | For any AEAD that opens what it seals, unwrapping a wrapped chat key returns it. |
| `ChatKeys.EncryptChatKey` | src/frontend/src/lib/crypto/encryption.ts:227-277 | Salt, nonce and sealed key in one array, in base64. |
| `ChatKeys.DecryptChatKey` | src/frontend/src/lib/crypto/encryption.ts:286-327 | Slices at 16 and 28, derives the key and opens. |
| `ChatKeys.PasswordWrapRoundTrip` | src/frontend/src/lib/crypto/encryption.ts:227-327 | The same round trip under a password, for any key derivation. |
| `Rekeying.RekeyPreserves` | src/frontend/src/pages/ChangePasswordPage.tsx:69-91 | Every row of the user that opened under the old private key when listed opens under the new one to the same chat key; all other rows, other users' included, are untouched; a key saved in between is lost exactly when its row was listed with a key that opened. |
| `Rekeying.UpdatesCount` | src/frontend/src/pages/ChangePasswordPage.tsx:66-91 | The loop pushes one update per chat that can be decrypted. |
| `Rekeying.UpdateHasChat` | src/frontend/src/pages/ChangePasswordPage.tsx:69-91 | Every update carries the key of a listed chat. |
| `Rekeying.ChatHasUpdate` | src/frontend/src/pages/ChangePasswordPage.tsx:69-91 | The key of every chat that opens is carried by an update. |
| `Rekeying.CountIsUpdates` | src/message-service/internal/messaging/repository/postgres.go:272-283 | The reported count is the number of chats that could be decrypted. |
| `Rekeying.LastUpdateWins` | src/message-service/internal/messaging/repository/postgres.go:272-283 | Of several updates for one companion the last one stands. |
| `Rekeying.RowUntouched` | src/message-service/internal/messaging/repository/postgres.go:273-277 | A row no update names stays as it was. |
| `Rekeying.ReEncryptChatKeys` | src/frontend/src/pages/ChangePasswordPage.tsx:69-91 | The loop with its try and catch computes the updates, in order. |
| `Rekeying.RekeyKeepsMeaning` | src/frontend/src/pages/ChangePasswordPage.tsx:69-91 | The same for all rows at once. |
| `Rekeying.Servers.AuthChangePassword` | src/auth-service/internal/auth/service/service.go:113-146 | The account changes if and only if the login exists, the old hash is the stored one and no statement fails; then exactly its hash and public key. |
| `Rekeying.Servers.UpdateChatKeys` | src/message-service/internal/messaging/repository/postgres.go:264-290 | All updates and their count, or, wherever the transaction fails, no change. |
| `Rekeying.Servers.ChangePassword` | src/api-gateway/internal/gateway/service/saga_orchestrator.go:22-48 | When either step fails no chat row changes; when the second fails the account has changed all the same; success is exactly both steps succeeding; with a wrong old password nothing changes. |
| `Rekeying.Servers.GetChats` | src/message-service/internal/messaging/repository/postgres.go:194-216 | Every row of the user once, NULL keys as empty text. |
| `Rekeying.Page.HandleSubmit` | src/frontend/src/pages/ChangePasswordPage.tsx:46-108 | The new account, rows and device key for every combination of failures, a wrong old password among them, a lost reply and saves in between included; and on success, the login being the user's own, every chat key the device could open with its old key it opens with its new one, all other rows unchanged. |
| `ReconnectMachine.RunsAreSafe` | src/frontend/src/lib/api/websocket.ts:223-280 | Under any sequence of events, late ones of replaced sockets included: attempts at most 5, at most one reconnect timer and one ping interval live, no delay above 16000 ms. |
| `ReconnectMachine.StepKeepsInv` | src/frontend/src/lib/api/websocket.ts:57-93 | Each event keeps the invariant behind that. |
| `ReconnectMachine.BackoffValues` | src/frontend/src/lib/api/websocket.ts:248-251 | The n-th delay is exactly 1000 * 2^(n-1) and the cap of 30000 never binds. |
| `ReconnectMachine.CloseArms` | src/frontend/src/lib/api/websocket.ts:223-242 | A close arms a timer if and only if its code is none of 1000, 1008, 4001, 4401 and attempts are left, and then with exactly that delay. |
| `ReconnectMachine.OnlyCloseArms` | src/frontend/src/lib/api/websocket.ts:244-258 | No other event arms one. |
| `ReconnectMachine.ConnectMeans` | src/frontend/src/lib/api/websocket.ts:57-78 | connect() while connected does nothing; otherwise it makes one more socket, or reports that none can be made. |
| `ReconnectMachine.DisconnectMeans` | src/frontend/src/lib/api/websocket.ts:83-93 | disconnect() leaves no timer, no ping, no socket of its own that could open, and nothing else changed. |
| `ReconnectMachine.OpenMeans` | src/frontend/src/lib/api/websocket.ts:180-186 | An open resets attempts and delay and replaces the ping. |
| `ReconnectMachine.CloseMeans` | src/frontend/src/lib/api/websocket.ts:223-226 | A close stops the ping and the status is disconnected. |
| `ReconnectMachine.OpenStartsOver` | src/frontend/src/lib/api/websocket.ts:180-186 | After an open, whatever came before, the first retried close waits exactly 1000 ms. |
| `ReconnectMachine.AttemptsFollowEvents` | src/frontend/src/lib/api/websocket.ts:180-246 | In every run the attempts are the retried closes since the last open, counted on the events, up to five. |
| `ReconnectMachine.Delays` | src/frontend/src/lib/api/websocket.ts:248-251 | The five delays are 1000, 2000, 4000, 8000 and 16000 ms. |
| `ReconnectMachine.MeasureFalls` | src/frontend/src/lib/api/websocket.ts:223-258 | Every delivered event lowers 3 * attempts left + 3 * live timers + the weights of the unclosed sockets, unless a socket opens or connect() is called. |
| `ReconnectMachine.GivesUp` | src/frontend/src/lib/api/websocket.ts:236-241 | While no socket opens and nobody calls connect(), only that many further events can be delivered. |
| `ReconnectMachine.SocketsBounded` | src/frontend/src/lib/api/websocket.ts:236-258 | Meanwhile at most one socket per live timer and attempt left is made. |
| `ReconnectMachine.CarefulRunsInStep` | src/frontend/src/lib/api/websocket.ts:180-186 | When connect() is called only with all sockets closed and no timer live: at most one socket is alive; while it is open the status is connected and a ping is live; the status is connected at no other time than that and a closing handshake the server started. |
| `ReconnectMachine.PingLostIff` | src/frontend/src/lib/api/websocket.ts:223-226 | In any run the one event that leaves an open connection without ping is the close of another socket. |
| `ReconnectMachine.ReplacedSocketStopsPing` | src/frontend/src/lib/api/websocket.ts:57-78 | A run in which that happens. |
| `ReconnectMachine.StaysDisconnected` | src/frontend/src/lib/api/websocket.ts:83-93 | disconnect() is final while later close codes are not retried. |
| `ReconnectMachine.DisconnectUndone` | src/frontend/src/lib/api/websocket.ts:236-238 | After disconnect(), the close of any socket still alive, connecting or replaced ones included, arms a timer again if and only if its code is retried and attempts are left. |
| `ReconnectMachine.ConnectingDisconnectUndone` | src/frontend/src/lib/api/websocket.ts:83-93 | A run in which that happens to a socket disconnect() found connecting. |
| `WebSocketClient.Client.Connect` | src/frontend/src/lib/api/websocket.ts:57-78 | The new fields and sockets are the machine's, the constructor throwing or not. |
| `WebSocketClient.Client.Disconnect` | src/frontend/src/lib/api/websocket.ts:83-93 | Timer and ping cleared, socket closing, reference dropped. |
| `WebSocketClient.Client.HandleClose` | src/frontend/src/lib/api/websocket.ts:223-242 | Ping cleared, reconnect scheduled or not, as the machine does. |
| `WebSocketClient.Client.Handle` | src/frontend/src/lib/api/websocket.ts:57-93 | Every event, through the handlers, is a step of the machine, and keeps the invariant. |
| `KeyStorage.SecureStorage.SavePrivateKeySecure` | src/frontend/src/lib/crypto/secureStorage.ts:114-171 | The save is a step of the device; cache and storage stand for the saved key if and only if the save survives. |
| `KeyStorage.SecureStorage.RestorePrivateKeySecure` | src/frontend/src/lib/crypto/secureStorage.ts:177-262 | Restoring is a step of the device, returning the cached array itself or a new one that becomes the cache; while IndexedDB can be read it returns the last key saved and not cleared, else null. |
| `KeyStorage.SecureStorage.Reload` | src/frontend/src/lib/crypto/secureStorage.ts:13-14 | A page reload is the step that loses the cache only. |
| `KeyStorage.SecureStorage.ClearKeysSecure` | src/frontend/src/lib/crypto/secureStorage.ts:277-310 | The cached array is zeroed in place and no key is left to restore, even when IndexedDB keeps its record. |
| `KeyStorage.SavedIsRecovered` | src/frontend/src/lib/crypto/secureStorage.ts:123-170 | A saved key is found after a reload if and only if: IndexedDB took it; or, in session mode, it is not empty; or, the put having failed, no older record that still opens to another key shadows it and it is not empty. |
| `KeyStorage.DeviceFollows` | src/frontend/src/lib/crypto/secureStorage.ts:114-310 | After any run of saves, clears, reloads and restores, failing or not: IndexedDB opens to the key of the last put it took and did not delete, localStorage to the last key saved there and not cleared, and the cache holds what the operations say. |
| `KeyStorage.RunRestoresLast` | src/frontend/src/lib/crypto/secureStorage.ts:114-310 | After any such run restoring returns the last key saved and not cleared, or null, if and only if the page was not reloaded since, or that key comes back in the read that decides, a condition on the operations alone; a failed read that cached a leftover is covered. |
| `KeyStorage.StorageIsACell` | src/frontend/src/lib/crypto/secureStorage.ts:114-310 | When puts and reads succeed and no session key is empty, clears failing or not, it always does: storage is one optional cell. |
| `KeyStorage.ReadFailureFindsLeftover` | src/frontend/src/lib/crypto/secureStorage.ts:215-231 | A record that cannot be read yields the key an earlier session left in localStorage. |
| `KeyStorage.ClearedIsGone` | src/frontend/src/lib/crypto/secureStorage.ts:284-303 | Nothing is restored after a clear. |

## Left out

- Crashes between a commit and its publish, and a publish that fails after reaching the log: the code keeps no record to recover from, so neither loss nor duplication is bounded there.
- Several worker processes: GetPendingEvents takes no lock, so two workers may publish the same row.
- DeleteProcessedEvents and GetFailedEvents: no code of the service calls them.
- OutboxRounds.NoStarvation: rows inserted during the rounds are newer, since an older one would be taken first.
- Rekeying.Servers.AuthChangePassword: for an unknown login GetByLogin reports neither a user nor an error and the service then dereferences nil; the model reports an ordinary error there.
- JSON text and byte encodings, SQL column types, NULL and empty UUID columns, partitions and Kafka partitioning: payloads are JSON values and columns are strings.
- The free-form SaveGroupKeySeed endpoint: its key_version is chosen by the caller, so no bound holds for the rows it writes.
- Group messages and group history: the same query shape as direct chats, with no property of its own.
- GroupMachine.RotationSafe: one group; calls on different groups touch different rows.
- Real-time events in the message list other than read marks: they append or map single messages without an order guarantee.
- LoadMoreMessages: decryption of the loaded texts and the loading flags, which allow one request at a time, are not modelled.
- Ilike.SearchUsers: query errors are passed on and not modelled.
- RateLimiter.Limiter.Handle: an INCR that runs without its EXPIRE, Redis eviction, and windows cut to whole seconds by the client library.
- UTF-16: JavaScript strings are sequences of characters here; they coincide on texts without surrogate pairs.
- Message encryption (encryptMessage, decryptMessage) beyond its base64: it needs the text encoder of the browser.
- AES-GCM, PBKDF2, ECDH, password hashing and JWT internals: cryptography is abstracted, and the stored hash is the credential it accepts.
- Rekeying.Page.HandleSubmit: form validation, and the storage calls after success, which KeyStorage covers; token invalidation is left out too.
- Status, message and error handlers of the WebSocket client, and the sending of pings: they do not change its state.
- KeyStorage.SecureStorage.SavePrivateKeySecure: a caller that writes to the array it saved changes the cache; the results hold while nobody does. A browser update that changes the fingerprint key is not modelled, nor a localStorage that refuses writes.
- The realtime hub and consumer, login and registration, metrics and user interface: plumbing, or keyed so that no invariant of their own holds.
