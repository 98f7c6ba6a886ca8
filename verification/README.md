# BitATM, modelled and proved in Dafny

BitATM is a relay-only chat server and a client that keeps its own cache. This project models the
protocol state the two sides share and proves what that state satisfies over every run:

- the group protocol on the server (members, roles, wrapped keys, messages, per-member receipts);
- receipts end to end: the server's stamps, packets in flight, the offline receipt queue, the
  sender's recipient table and the status derived from it;
- connection threads, the shared client registry and the session table;
- store and forward: the offline queue with its attempt cap and cleanup, history sync by cursor,
  and the client's deduplication on canonical timestamps;
- the pipe-delimited wire format read through a C++ stream, and the `,` `;` `:` codecs inside fields;
- the client's buffers for missing keys, and the visible conversation with its cache.

SQL tables are maps. A handler's `execute`, a timer's statement and a mutex-guarded registry call are
one atomic step each. Runs are sequences of states and events (`History`), so every main result
quantifies over all interleavings. Where the source works by changing things, a class runs the same
loops and is proved against the specification function that the lemmas are about.

`dafny verify dfyconfig.toml` checks everything.

## Files

| file | component |
|---|---|
| Runs.dfy | induction along a run |
| Text.dfy, Wire.dfy, StreamParser.dfy | decimal text, packets and their parser, as functions and as a stream class |
| FieldCodecs.dfy | lists and pairs packed into packet fields |
| Groups.dfy, GroupPackets.dfy, GroupCauses.dfy, GroupTables.dfy, GroupRoles.dfy, GroupReceipts.dfy, GroupServer.dfy | the group tables and handlers, which packet means what, who may do what, what each table holds after any run, roles, receipt rows, and the handlers as a class |
| RecipientStore.dfy, RecipientTrace.dfy, RecipientTable.dfy | the sender's receipt table, as a state machine, told from its events, and as a class |
| ReceiptFlow.dfy, ReceiptReach.dfy, ReceiptFailure.dfy | server, queue, packets in flight and clients together; who is told and what arrives; a run that over-reports |
| Connections.dfy, Sessions.dfy, SessionTrace.dfy, ClientRegistry.dfy | connection threads, session rows, who is logged in told from the events, the registry class |
| OfflineQueue.dfy, OfflineTables.dfy, OfflineDelivery.dfy, OfflineCleanup.dfy, OfflineRuns.dfy, OfflineFlush.dfy | store and forward: steps, whole-run results, cleanup, failing runs, and the loops as a class |
| Timestamps.dfy | calendar, canonical timestamps, text order |
| Ingest.dfy, Inbox.dfy | deduplicating cache and packet paths; packets that wait for a group key, and the handlers as a class |
| HistorySync.dfy, SyncCursor.dfy | history sync, and the cursor taken from real timestamps |
| PendingKeys.dfy, GroupCreations.dfy, KeyBuffers.dfy | work that waits for peers' keys |
| ChatView.dfy | the visible conversation |

## What turned out false

Each tempting claim is kept as the code has it: a run that breaks it, and the exact condition under
which it holds.

- "A group has exactly one creator": a founder who lists their own name, or a creator who grants
  admin to it, loses the creator row (`GroupRoles.GroupWithoutCreator`, `GroupRoles.CreatorRemainsIff`).
- "Seen means seen by all": a second snapshot with one more member over-reports
  (`RecipientStore.LateSnapshotOverReports`), and so does the interface, which writes group statuses on
  its own: a user whose name is the group's number sends a receipt for a direct message
  (`ReceiptFailure.NumericNameOverReports`). `RecipientStore.SeenMeansAllIff` and
  `ReceiptFlow.TruthfulIff` give the condition; with plain names only the snapshot is left
  (`ReceiptFlow.SeenStatusIsTrue`).
- "The status always shows the complete aggregate" and "it never moves back from seen": not when the
  message row is stored late (`RecipientStore.LateStoreDisagrees`), nor when the ACK of a direct message
  of the same time comes while the group is on screen (`RecipientStore.DirectAckMovesBack`);
  `RecipientStore.AgreementIff` and `RecipientStore.SeenMovesBackIff` give the conditions.
- "The queued row is the message just saved": `OfflineRuns.OlderTimeQueuesAnother`; it surely is if and
  only if every earlier message to the recipient is strictly earlier
  (`OfflineDelivery.QueuesTheNewMessageIff`).
- "The queue is empty for a new user", as a comment says (backend/src/RegisterHandler.cpp:116):
  `OfflineRuns.NewUserFindsARow`; it is if and only if every row ever queued for the name has ended
  (`OfflineDelivery.NewUserQueueEmptyIff`).
- "Cleanup cannot be observed": two rows of one message make it visible
  (`OfflineRuns.CleanupShowsOnSharedMessage`); with one row per message it cannot
  (`OfflineCleanup.CleanupIsInvisible`).
- "A client that logs in ends up with everything": a message that comes in with an older time than one
  the client has is missed for good (`HistorySync.LateMessageRun`, `HistorySync.LateMessageIsMissed`);
  `HistorySync.SyncCompleteIff` and `HistorySync.CurrentIff` give the conditions.
- "A disconnect revokes the session": `Sessions.LostLoginLeavesRowActive`; it does if and only if the
  thread had recorded the current token and the database took the update (`Sessions.CleanupRevokesIff`).
- "A creation goes out when every member's key is there": a member listed twice must reply twice
  (`GroupCreations.ListedTwiceWaitsTwice`, `GroupCreations.CreatedExactlyOnceIff`).
- Blank input is accepted or refused depending on an uninitialised type code
  (`Wire.GarbageMattersIffBlank`).

## Model

| member | source | states |
|---|---|---|
| Text.StoiOfToString | backend/src/LoginHandler.cpp:219-221 | a 32-bit group id printed with to_string is read back by stoi as itself |
| Text.StoiOfPrefix | backend/src/GroupMessageHandler.cpp:15-20 | stoi skips a leading blank, ignores what follows the digits and refuses what is no 32-bit int |
| Wire.RoundTrip | backend/src/ProtocolParser.cpp:7-30 | a packet whose five inner fields hold no pipe and whose last holds no newline survives print and parse, an empty last field included |
| Wire.RoundTripIff | common/protocol.h:36-86 | and only such a packet does |
| Wire.AcceptedIsClean | common/protocol.h:69-85 | any accepted wire text yields a valid type, no pipe in the five inner fields and no newline in the last |
| Wire.AcceptedIsFixedPoint | backend/src/ProtocolParser.cpp:7-30 | printing and parsing an accepted packet again changes nothing |
| Wire.GarbageMattersIffBlank | common/protocol.h:71-83 | the uninitialised type code decides the fate of blank input and of nothing else |
| Wire.SeparatorsAreUnchecked | common/protocol.h:73 | the two separators of the header may be anything but digits and blanks |
| Wire.ShortPacketIsAccepted | common/protocol.h:74-84 | a packet cut off after its first field is accepted with the others empty |
| Wire.CodesInOrder | common/protocol.h:17-34 | the numbers of the first eight packet types |
| Wire.LaterCodesInOrder | common/protocol.h:17-34 | the numbers of the other eight |
| StreamParser.InputStream.ExtractInt | common/protocol.h:73 | formatted int extraction with the eof and fail bits, skipped blanks and overflow clamping |
| StreamParser.InputStream.GetLine | common/protocol.h:74-79 | getline leaves the text after the delimiter, and sets eof or fail exactly as the stream reading function says |
| StreamParser.ExtractPacket | common/protocol.h:69-85 | the extraction sequence on a mutable stream computes the reading function, final flags included |
| StreamParser.Parse | backend/src/ProtocolParser.cpp:18-30 | the parser returns, for every clean packet's text, that packet, and agrees with Deserialize on all input |
| FieldCodecs.ListRoundTripIff | backend/src/CreateGroupHandler.cpp:18-26 | a joined list decodes to itself if and only if no element is empty or holds the delimiter |
| FieldCodecs.WireOrder | backend/src/ProtocolParser.cpp:7-13 | cut at the pipes, a printed packet is type, version, from, to, body, key, timestamp and errorMsg, in that order |
| FieldCodecs.KeyMapRoundTripIff | backend/src/CreateGroupHandler.cpp:33-45 | a name:key map decodes to itself if and only if every pair is packable |
| FieldCodecs.MemberListRoundTripIff | frontend/src/NetworkManager.cpp:724-733 | the member:role list decodes to itself if and only if names avoid colon and semicolon and roles avoid semicolon |
| FieldCodecs.CreateGroupSurvivesWire | frontend/src/NetworkManager.cpp:421-434 | through serialize and deserialize the server decodes the very members and keys the client packed |
| FieldCodecs.GroupInfoSurvivesWire | backend/src/GroupInfoHandler.cpp:51-64 | through the wire the client decodes the very member:role list the server packed |
| FieldCodecs.SendAckSurvivesWire | backend/src/GroupMessageHandler.cpp:51-64 | through the wire the client decodes the very recipient snapshot |
| FieldCodecs.AtMostOnePairOffTheWire | backend/src/GroupKeyExchangeHandler.cpp:12-25 | in any packet off the wire the pipe split finds at most one pair, so the multi-pair rotation is unreachable |
| FieldCodecs.ParseMembers | backend/src/CreateGroupHandler.cpp:18-26 | the getline loop returns the non-empty pieces, in order |
| FieldCodecs.ParseKeyPairs | backend/src/CreateGroupHandler.cpp:33-45 | the getline loop returns the decodable name:key pairs, in order |
| FieldCodecs.JoinAll | backend/src/GroupMessageHandler.cpp:58-63 | the joining loop computes the join that the decoders invert |
| Groups.HistoryIsConsistent | backend/src/GroupRepository.cpp:44-351 | in every reachable state rows refer to existing groups and messages, creator rows name the recorded creator, receipt rows belong to current members of the message's group, seen implies delivered |
| GroupPackets.RegisterIff | backend/src/RegisterHandler.cpp:78-85 | a packet registers u if and only if it is a REGISTER from u with a name of 1 to 64 characters and a password of at least 8 |
| GroupPackets.CreateIff | backend/src/CreateGroupHandler.cpp:51-70 | a packet creates a group if and only if it has a title, a key map and 1 to 31 listed members, which are its decoded fields |
| GroupPackets.MessageIff | backend/src/GroupMessageHandler.cpp:14-24 | which packet is a group message, with its group, claimed sender and body |
| GroupPackets.LeaveIff | backend/src/GroupLeaveHandler.cpp:12-28 | which packet is a leave, and which a kick of whom |
| GroupPackets.GrantIff | backend/src/GroupInfoHandler.cpp:12-33 | which packet grants admin to whom in which group |
| GroupPackets.RevokeIff | backend/src/GroupInfoHandler.cpp:34-46 | which packet revokes it |
| GroupPackets.DeleteIff | backend/src/DeleteGroupHandler.cpp:14-22 | which packet deletes which group |
| GroupPackets.ExchangeIff | backend/src/GroupKeyExchangeHandler.cpp:32-60 | which packet hands out which keys |
| GroupPackets.ReadIff | backend/src/ReadReceiptHandler.cpp:17-40 | which packet is a group read receipt, of whom and for what |
| GroupPackets.DeliveredIff | backend/src/AckHandler.cpp:26-34 | which packet is a group delivered receipt |
| GroupPackets.CreationArrives | frontend/src/NetworkManager.cpp:421-434 | through the wire and the decoder the server founds exactly the group the client asked for, members and wrapped keys included |
| GroupTables.UserTrace | backend/src/RegisterHandler.cpp:91-99 | a user exists if and only if somebody has registered under that name |
| GroupTables.GroupTrace | backend/src/DeleteGroupHandler.cpp:22-57 | a group exists, with its title and creator, exactly from its founding to its deletion by the creator |
| GroupTables.MemberTrace | backend/src/GroupLeaveHandler.cpp:22-43 | a member row exists if and only if a founding, invitation or key exchange made it and since then there was no own leave, no kick by a creator or admin (the creator if the member was an admin) and no deletion |
| GroupTables.MessageTrace | backend/src/GroupRepository.cpp:166-183 | a group message is kept, as its packet wrote it, from its sending to the deletion of its group |
| GroupTables.SaveKeysIs | backend/src/CreateGroupHandler.cpp:79-90 | saving pairs one by one leaves each user the last key listed before the first unknown user, and everything else as it was |
| GroupTables.KeyTrace | backend/src/GroupKeyExchangeHandler.cpp:60-146 | the key table holds v for u in g if and only if the founding of g or a key exchange by its creator or an admin gave u that key, no later one replaced it, u has not left and g stands |
| GroupRoles.AdminTrace | backend/src/GroupInfoHandler.cpp:24-46 | an admin row exists if and only if a grant by the creator of that moment has no later revoke, removal or deletion |
| GroupRoles.CreatorRemainsIff | backend/src/CreateGroupHandler.cpp:83-90 | while a group exists its creator row is there if and only if the founder did not list themself and the creator never granted their own name |
| GroupRoles.CreatorIsUnique | backend/src/CreateGroupHandler.cpp:76-90 | at most one creator row per group, and it names the recorded creator |
| GroupRoles.GroupWithoutCreator | backend/src/GroupRepository.cpp:44-57 | a run after which a group exists and has no creator: its founder listed themself |
| GroupReceipts.ReceiptTrace | backend/src/GroupRepository.cpp:261-351 | a receipt row exists if and only if its member was another member when the message was sent and has not left since; a rejoin brings nothing back |
| GroupReceipts.StampsNeverChange | backend/src/GroupRepository.cpp:279-336 | a delivered or seen stamp, once set, keeps its value while the row exists |
| GroupReceipts.StampStep | backend/src/GroupRepository.cpp:279-336 | one packet sets a stamp if and only if it is that member's own receipt for that message's group and timestamp, to the clock of that packet |
| GroupReceipts.StampTrace | backend/src/GroupRepository.cpp:279-336 | seen is set if and only if that member sent a READ_RECEIPT for the message's group and timestamp, delivered if and only if they sent one or a delivered ACK, while the row stood |
| GroupServer.Handlers.CreateGroup | backend/src/CreateGroupHandler.cpp:65-139 | unknown names refuse the request; otherwise group, members and keys are written as the step function says |
| GroupServer.Handlers.GroupMessage | backend/src/GroupMessageHandler.cpp:14-65 | stores the message with one row per other member and returns exactly that snapshot |
| GroupServer.Handlers.GroupLeave | backend/src/GroupLeaveHandler.cpp:12-72 | leave and kick rules, with the member, key and receipt rows they remove |
| GroupServer.Handlers.GroupInfo | backend/src/GroupInfoHandler.cpp:12-46 | grant and revoke by the creator only |
| GroupServer.Handlers.DeleteGroup | backend/src/DeleteGroupHandler.cpp:14-57 | creator only; everyone who was a member is told once; the group and all its rows go |
| GroupServer.Handlers.KeyExchange | backend/src/GroupKeyExchangeHandler.cpp:32-146 | the add, rotate and single-key branches and their rights |
| GroupServer.Handlers.MarkReceipt | backend/src/ReadReceiptHandler.cpp:17-75 | first stamp wins, delivered filled in by seen, refused for non-members |
| GroupServer.Handlers.Serve | backend/src/Server.cpp:76-90 | any sequence of packets is a history of the step function and ends consistent |
| GroupServer.Handlers.GetMembers | backend/src/GroupRepository.cpp:74-97 | every member once |
| GroupServer.Others | backend/src/GroupMessageHandler.cpp:30-37 | the members except the sender, each once |
| RecipientStore.AgreementIff | frontend/src/NetworkManager.cpp:334-360 | over a whole run the stored status agrees with every complete aggregate if and only if no message row is stored after its aggregate was complete and the interface never writes another status over a complete one |
| RecipientStore.SeenMeansAllIff | frontend/src/LocalStorage.cpp:458-525 | over a whole run "seen" means every recipient row is seen if and only if no snapshot adds a member to a message already seen and the interface never writes seen for one not seen by all |
| RecipientStore.SeenMovesBackIff | frontend/src/ChatModel.cpp:85-92 | while "seen" means that, the status of a kept message moves back from seen if and only if the interface writes a lesser one |
| RecipientStore.LateSnapshotOverReports | frontend/src/LocalStorage.cpp:458-470 | a run in which a second snapshot leaves an unread message at seen |
| RecipientStore.DirectAckMovesBack | frontend/qml/Main.qml:78-81 | a run in which the ACK of a direct message moves a group message from seen to delivered |
| RecipientStore.LateStoreDisagrees | frontend/src/LocalStorage.cpp:288-300 | a run in which a message stored after its receipts stays at sent |
| RecipientStore.RowsAfter | frontend/src/LocalStorage.cpp:472-494 | only a mark for exactly this row makes it seen or delivered |
| RecipientTrace.RowTrace | frontend/src/LocalStorage.cpp:458-470 | a recipient row exists if and only if some snapshot listed the member and no later member list of the group omitted them |
| RecipientTrace.MarkTrace | frontend/src/LocalStorage.cpp:472-494 | a row says seen if and only if a seen mark for its member hit it and it has stood since, delivered if and only if a delivered or seen mark did |
| RecipientTrace.PruneKeepsMembers | frontend/src/LocalStorage.cpp:546-573 | pruning keeps exactly the rows of other groups and of current members, as they are |
| RecipientTrace.PruneCompletes | frontend/src/NetworkManager.cpp:735-743 | when the ex-member was the last who had not seen it, the message turns to seen |
| RecipientTrace.StatusStep | frontend/src/NetworkManager.cpp:350-360 | a status changes only to the complete aggregate of a recomputation or to what the interface writes; a new message is sent, a removed group takes its messages along |
| RecipientTrace.AggregateIff | frontend/src/LocalStorage.cpp:496-525 | seen if and only if there are recipients and all have seen it, delivered if and only if all have it and not all have seen it |
| RecipientTable.LocalReceipts.SaveRecipientSnapshot | frontend/src/LocalStorage.cpp:458-470 | inserts the missing rows unstamped and leaves the present ones |
| RecipientTable.LocalReceipts.HandleReceipt | frontend/src/NetworkManager.cpp:316-360 | marks one row and recomputes the status of its message |
| RecipientTable.LocalReceipts.UpdateStatus | frontend/src/LocalStorage.cpp:336-346 | writes the status of every message of that group and time, and nothing else |
| RecipientTable.LocalReceipts.RemoveRecipientsNotIn | frontend/src/LocalStorage.cpp:546-578 | deletes ex-members' rows and returns the times that lost a row and still have some |
| RecipientTable.LocalReceipts.DropExMembers | frontend/src/NetworkManager.cpp:735-743 | pruning followed by the recomputation loop is one prune step |
| ReceiptFlow.NothingIsInvented | backend/src/LoginHandler.cpp:175-231 | in every run every receipt in flight, in the queue or in a client's table is backed by a packet its member sent |
| ReceiptFlow.ReceiptsNeverOverReport | backend/src/ReadReceiptHandler.cpp:17-109 | in every run, on every device, a row says seen only if that member sent a READ_RECEIPT for that group and time, delivered only if they sent one or a delivered ACK |
| ReceiptFlow.TruthfulIff | frontend/qml/Main.qml:78-89 | over a whole run a client's "seen" means seen by everybody still in the snapshot if and only if no late snapshot and no write of the interface overstates it |
| ReceiptFlow.SeenStatusIsTrue | frontend/src/NetworkManager.cpp:316-360 | when nobody's name is all digits, and unless a snapshot came late, a message shown as seen was read by every member still in its snapshot |
| ReceiptFlow.SentIsClean | backend/src/GroupMessageHandler.cpp:51-64 | delivered notices and replayed receipts survive the wire; a send-ACK does if and only if the group id it echoes holds no newline |
| ReceiptReach.ReadIsTold | backend/src/ReadReceiptHandler.cpp:31-75 | an accepted group read receipt goes to exactly the other members online and is queued for exactly the others, unless one of that reader and time is queued already |
| ReceiptReach.DeliveryIsTold | backend/src/AckHandler.cpp:68-111 | a delivered ACK is told to exactly the other users who sent a message of that time, online or through the queue |
| ReceiptReach.DirectReadIsTold | backend/src/ReadReceiptHandler.cpp:77-109 | a direct receipt goes to the reader's sessions and to the sender, online or through the queue, if such a user exists |
| ReceiptReach.FlushIff | backend/src/LoginHandler.cpp:175-231 | a login replays exactly the receipts queued for the user and not replayed before |
| ReceiptReach.ReadGetsThrough | frontend/src/NetworkManager.cpp:316-332 | end to end: a member reads, the sender is online, the packet arrives, and the member's row on the sender's device is seen |
| ReceiptReach.QueuedReadGetsThrough | backend/src/LoginHandler.cpp:210-227 | end to end: a queued receipt is replayed at login, and its arrival marks the row seen |
| ReceiptReach.DeliveryArrives | frontend/src/NetworkManager.cpp:341-348 | a delivered notice marks its member's row delivered |
| ReceiptReach.SnapshotArrives | frontend/src/NetworkManager.cpp:334-339 | the send-ACK gives the sender a row for each recipient |
| ReceiptReach.SendIsAcknowledged | backend/src/GroupMessageHandler.cpp:51-64 | an accepted group message is answered with group, time and recipients |
| ReceiptReach.MemberListArrives | frontend/src/NetworkManager.cpp:724-743 | a GROUP_INFO leaves exactly the rows of other groups and of the members it lists |
| ReceiptReach.LeaveArrives | frontend/src/NetworkManager.cpp:748-759 | a GROUP_LEAVE other than a request to rotate removes the group's messages and no others |
| ReceiptReach.DirectAckArrives | frontend/qml/Main.qml:78-81 | the ACK of a direct message writes delivered to the group on screen, if a group is on screen |
| ReceiptReach.OpenStep | frontend/src/ChatModel.cpp:28-36 | opening a conversation puts it on screen and does nothing else |
| ReceiptReach.ReplayedDelivery | backend/src/LoginHandler.cpp:210-222 | a queued delivered receipt comes back as the ACK it was |
| ReceiptReach.ReplayedDirect | backend/src/LoginHandler.cpp:215-222 | a queued direct receipt comes back to the user it was queued for |
| ReceiptReach.DeletionDropsReceipts | backend/src/DeleteGroupHandler.cpp:50-56 | deleting a group takes its queued receipts along and no others |
| ReceiptFailure.NumericNameOverReports | frontend/src/NetworkManager.cpp:316-332 | a whole run in which a direct receipt from a user named like a group turns that group's message to seen, though nobody read it |
| Connections.RegistrySafety | backend/src/Server.cpp:58-140 | after any interleaving a session is filed only under its connection's registered name, a finished one nowhere, no list is empty, and findClient succeeds if and only if some connection is registered under the name |
| Connections.RegistryMultiplicity | backend/src/Server.cpp:76-90 | a registered session is listed exactly as often as addClient ran for it since it was last filed anew |
| Connections.NextKeepsRegistry | backend/src/Server.cpp:117-140 | every step of every thread keeps the registry exact |
| Connections.FirstFiledIsFound | backend/src/Server.cpp:187-192 | the session found under a name is the one filed there first |
| ClientRegistry.Registry.AddClient | backend/src/Server.cpp:169-172 | one more occurrence of the session under the name |
| ClientRegistry.Registry.RemoveClient | backend/src/Server.cpp:174-185 | every occurrence under the name goes, nothing else does, no empty list is left |
| ClientRegistry.Registry.FindClient | backend/src/Server.cpp:187-192 | returns a session filed under the name if and only if there is one |
| ClientRegistry.Registry.GetSessionsForUser | backend/src/Server.cpp:194-200 | the sessions with their multiplicities, none for an unknown name |
| Sessions.SingleActiveLogin | backend/src/BaseAuthHandler.cpp:7-20 | in every reachable state at most one connection per user passes authorize |
| Sessions.SingleActiveRow | backend/src/LoginHandler.cpp:109-117 | at most one session row per user is active |
| SessionTrace.LoginAuthorizes | backend/src/LoginHandler.cpp:109-117 | after a login or registration that stored its session the connection is authorised as that user, its token active for twenty-four hours |
| SessionTrace.ReturnedMayFile | backend/src/Server.cpp:76-86 | after a returned one the thread goes on to take out an old name or to file the new one |
| SessionTrace.ReturnedIsFiled | backend/src/Server.cpp:86-89 | and then the name is found, with this session under it |
| SessionTrace.AuthorizedTrace | backend/src/BaseAuthHandler.cpp:7-20 | a connection is let through as a user if and only if it signed in as them and since then nobody logged in as them elsewhere, nothing failed or switched here, the day has not passed and it was not cleaned up |
| SessionTrace.RowStep | backend/src/SessionRepository.cpp:105-137 | a session row is switched off exactly by a login of its user, by the sweep after expiry or by the cleanup that recorded its token |
| SessionTrace.NewRowStep | backend/src/SessionRepository.cpp:61-71 | new rows come from sign-ins alone |
| Sessions.RevokedIff | backend/src/SessionRepository.cpp:85-137 | a connection loses its session exactly by a login as its user, by expiry or by its own cleanup; nobody else's disconnect costs it anything |
| Sessions.RevokedForGood | backend/src/SessionRepository.cpp:105-137 | a token, once inactive, is never active again |
| Sessions.CleanupRevokesIff | backend/src/Server.cpp:117-139 | a thread that ends, with or without a deactivation, leaves the active current token revoked if and only if it had recorded it and the database took the update |
| Sessions.LostLoginLeavesRowActive | backend/src/RegisterHandler.cpp:107-140 | a run in which the connection is gone and its row stays active |
| OfflineQueue.DualKeySplits | backend/src/MessageHandler.cpp:18-25 | the dual key field splits at the first semicolon |
| OfflineQueue.PendingIff | backend/src/OfflineQueueRepository.cpp:87-115 | the query returns exactly the recipient's undelivered rows with attempts left |
| OfflineQueue.PendingAscends | backend/src/OfflineQueueRepository.cpp:98-100 | oldest first, nothing twice |
| OfflineQueue.ReachedIff | backend/src/LoginHandler.cpp:137-166 | an entry is dealt with if and only if no earlier send raised |
| OfflineQueue.DeadSocketSparesTheRest | backend/src/LoginHandler.cpp:158-161 | after a dead socket every later entry's row is unchanged and nothing later goes out |
| OfflineDelivery.AttemptCap | backend/src/OfflineQueueRepository.cpp:126-136 | in every run attempts stay within five, every row's message exists and is for the row's recipient, and row order is queued_at order |
| OfflineTables.MessageTrace | backend/src/MessageRepository.cpp:193-212 | a direct message is kept, as sent and with its key field split at the first semicolon, from its sending to a delete of the conversation by either party |
| OfflineTables.AcknowledgedStep | backend/src/AckHandler.cpp:47-55 | an ACK for the message, and nothing else, marks it acknowledged |
| OfflineTables.QueueStep | backend/src/OfflineQueueRepository.cpp:138-162 | rows come from sends to offline recipients and go exactly with their conversation, a week after queueing once delivered, or when exhausted |
| OfflineTables.NewRow | backend/src/OfflineQueueRepository.cpp:63-72 | a new row is for the recipient, stamped now, undelivered, without attempts |
| OfflineTables.LoginRow | backend/src/LoginHandler.cpp:138-166 | in a login flush a waiting row no dead socket stopped counts an attempt unless the increment failed, is delivered if and only if everything worked, and every other row is untouched |
| OfflineTables.RegisterRow | backend/src/RegisterHandler.cpp:119-133 | in a registration flush no attempt counts, any earlier failure leaves the row, and it is delivered if and only if it is sent and marked |
| OfflineTables.RegisterSendsIff | backend/src/RegisterHandler.cpp:120-131 | the packet of a row goes out in it if and only if no earlier entry failed and its own look-up and send worked |
| OfflineTables.NameTrace | backend/src/RegisterHandler.cpp:91-99 | a name is registered if and only if a registration got as far as storing it |
| OfflineDelivery.RowEndsIff | backend/src/OfflineQueueRepository.cpp:117-162 | a waiting row ends exactly by a marked send, a fifth attempt, an ACK or a conversation delete |
| OfflineDelivery.RetiredForGood | backend/src/OfflineQueueRepository.cpp:98-100 | a row that is used up never waits again |
| OfflineDelivery.DeliveredNeverResent | backend/src/OfflineQueueRepository.cpp:117-124 | a delivered, exhausted or deleted row is never sent again |
| OfflineDelivery.ResentOnlyAfterLostMark | backend/src/LoginHandler.cpp:156-165 | a row goes out twice only if its first markDelivered failed |
| OfflineDelivery.AtMostSixSends | backend/src/RegisterHandler.cpp:116-133 | whatever fails, a row is handed to a socket at most six times: five counted attempts and the uncounted flush at registration |
| OfflineDelivery.QueuesTheNewMessageIff | backend/src/MessageHandler.cpp:42-48 | the queued id is surely the inserted message's if and only if every earlier message to the recipient is strictly earlier |
| OfflineDelivery.OfflineMessageIsDelivered | backend/src/MessageHandler.cpp:17-49 | an accepted offline message, unless acknowledged or deleted first, goes out in the next login flush with its sender, body and recipient key if and only if no older entry's send raised and nothing failed it |
| OfflineDelivery.FlushFindsIff | backend/src/OfflineQueueRepository.cpp:87-115 | a flush finds a row if and only if an earlier offline send to that name queued it and no ending cause has struck since |
| OfflineDelivery.NewUserQueueEmptyIff | backend/src/RegisterHandler.cpp:116-119 | the registration flush finds nothing if and only if every row ever queued for the name has ended |
| OfflineRuns.NewUserFindsARow | backend/src/RegisterHandler.cpp:116-133 | a run in which the registration flush hands over a message |
| OfflineRuns.OlderTimeQueuesAnother | backend/src/MessageHandler.cpp:42-48 | a run in which the queued row names another message than the one just saved |
| OfflineCleanup.SameSends | backend/src/OfflineQueueRepository.cpp:138-162 | two runs that differ only in cleanup steps, with at most one row per message in every state, send the same packets at every step |
| OfflineCleanup.CleanupIsInvisible | backend/src/Server.cpp:211-224 | putting cleanup steps in anywhere of a run with at most one row per message gives a run in which every flush sends the same packets in the same order |
| OfflineCleanup.CleanupIsOptionalInOrder | backend/src/MessageHandler.cpp:42-48 | when times increase, cleanup steps may be put in and taken out at will |
| OfflineRuns.CleanupShowsOnSharedMessage | backend/src/AckHandler.cpp:57-65 | two runs that differ in one cleanup step, and a login that sends in the one and not in the other |
| OfflineFlush.Database.SendMessage | backend/src/MessageHandler.cpp:17-49 | saves with the split keys and enqueues the last row by time |
| OfflineFlush.Database.Flush | backend/src/LoginHandler.cpp:132-166 | the loop of increment, look-up, send and mark computes the flush step and its packets |
| OfflineFlush.Database.FlushAtRegister | backend/src/RegisterHandler.cpp:116-133 | the uncounted loop that throws at the first failure computes the registration step and its packets |
| OfflineFlush.Database.FindUndelivered | backend/src/OfflineQueueRepository.cpp:87-115 | the row loop returns the pending ids oldest first |
| OfflineFlush.Database.Acknowledge | backend/src/AckHandler.cpp:47-66 | the message is marked acknowledged, and its first undelivered entry in the database's order delivered |
| Timestamps.ReplayMatchesLive | frontend/src/TimestampUtil.h:23-31 | PostgreSQL text and ISO text of one instant, to the millisecond, have the same canonical text |
| Timestamps.ZoneConverts | frontend/src/TimestampUtil.h:23-31 | whatever zone an instant is written in, its canonical text is the UTC one |
| Timestamps.NormalKeepsInstant | frontend/src/TimestampUtil.h:23-31 | carrying a zone shift across midnight into the neighbouring day keeps the instant |
| Timestamps.CanonicalIsIdempotent | frontend/src/TimestampUtil.h:23-31 | canonicalising twice changes nothing, for every text |
| Timestamps.UnreadableStays | frontend/src/TimestampUtil.h:23-31 | a text that cannot be read stays as it is; an instant outside the four-digit years becomes empty |
| Timestamps.TextOrderIsTimeOrder | frontend/src/LocalStorage.cpp:259-265 | for years 0000 to 9999 canonical texts sort exactly as the instants they name |
| Timestamps.NewestIsLatest | frontend/src/LocalStorage.cpp:259-272 | the text maximum names the latest instant |
| Timestamps.DayNumberIs | frontend/src/TimestampUtil.h:23-31 | instants count days by the Gregorian calendar's closed formula |
| Timestamps.MonthLengths | frontend/src/TimestampUtil.h:23-31 | the lengths of the months |
| Timestamps.IsoFields | frontend/src/TimestampUtil.h:23-31 | where each part of a canonical timestamp stands, as section 5.6 of RFC 3339 lays it out |
| Dedup.OneRowOneSignal | frontend/src/LocalStorage.cpp:155-170 | after any deliveries the keys are the old ones and those carried, each new one shown exactly once, old rows unchanged |
| Dedup.SignalsInOrder | frontend/src/NetworkManager.cpp:301-303 | display signals fire in the order of arrival |
| Dedup.OrderAndRepeatsDoNotMatter | frontend/src/LocalStorage.cpp:274-300 | two delivery sequences with copies of the same messages, in any order with any repeats, leave the same rows and the same signals |
| Ingest.PathsAgree | backend/src/SyncHistoryHandler.cpp:37-81 | live, flushed and replayed copies of one message come to the same row with the same content |
| Ingest.DeliveriesCommute | frontend/src/NetworkManager.cpp:242-314 | any two sequences of live, login-flush and sync deliveries of the same messages, in any order with any repeats, leave the same rows and fire the same signals |
| Ingest.RowHoldsTheText | frontend/src/NetworkManager.cpp:261-313 | however messages come, the key of each is there, and a new row holds the message's own text, or the placeholder for sent or encrypted, and its direction |
| Inbox.LocalCache.HandleIncomingMessage | frontend/src/NetworkManager.cpp:242-314 | echo, incoming, keyless, undecryptable, duplicate and self-message branches store and show exactly what the key says |
| Inbox.LocalCache.HandleGroupMessage | frontend/src/NetworkManager.cpp:636-681 | without the group's key the packet waits; otherwise every copy of another's message is acknowledged and only the first decryptable one stored and shown |
| Inbox.LocalCache.HandleGroupKey | frontend/src/NetworkManager.cpp:683-698 | the packets that waited for the key are handled in order of arrival |
| Inbox.BufferLosesNothing | frontend/src/NetworkManager.cpp:643-659 | in every run each packet that has arrived is in the cache, keyless, or waiting for its group's key; once that has come nothing is missing |
| Inbox.KeylessWaits | frontend/src/NetworkManager.cpp:647-656 | without the group's key a packet only waits, after those that came before it |
| HistorySync.SendHistory | backend/src/SyncHistoryHandler.cpp:17-81 | the two loops send exactly the user's rows after the cursor, direct ones first |
| HistorySync.ReplyInOrder | backend/src/SyncHistoryHandler.cpp:34-81 | the reply is the user's direct messages after the cursor, oldest first, then the group messages, oldest first, each row once |
| HistorySync.SyncFetchesIff | backend/src/MessageRepository.cpp:119-164 | one exchange brings in a message if and only if it lies after the cursor |
| HistorySync.SyncCompleteIff | backend/src/GroupRepository.cpp:185-232 | the client ends complete if and only if it held everything at or before its cursor; without a usable cursor always |
| HistorySync.NextCursorIsCovered | frontend/src/LocalStorage.cpp:259-272 | the same condition then holds for every later cursor |
| HistorySync.LateMessageIsMissed | backend/src/MessageRepository.cpp:143-152 | in every run a message that came in no later than one the client held stays missed through all later logins, unless posted again |
| HistorySync.LateMessageRun | backend/src/SyncHistoryHandler.cpp:17-32 | for any such pair of messages a run after which the client is connected, synced and without the older one |
| HistorySync.CurrentIff | frontend/src/NetworkManager.cpp:203-240 | over a whole run of posts, disconnects and logins the client is complete whenever connected and gapless otherwise if and only if no message passes it by |
| HistorySync.OnlineClientIsComplete | frontend/src/NetworkManager.cpp:87-97 | when the user's messages reach the server in time order and live copies arrive, a connected client holds every message of the user and nothing else |
| SyncCursor.NewestTextIsCursor | frontend/src/LocalStorage.cpp:259-272 | the text maximum over both tables, sent and read back, is the instant of the newest message held |
| SyncCursor.ExchangeCompleteIff | backend/src/SyncHistoryHandler.cpp:17-87 | with real packets and the cursor from the tables, the exchange completes the client if and only if it held everything up to that cursor |
| SyncCursor.FirstLoginBringsAll | backend/src/SyncHistoryHandler.cpp:17-81 | a first login brings in every message sent by or to the user and every readable one of their groups |
| SyncCursor.RealPost | backend/src/MessageRepository.cpp:62-90 | any message may be posted in the sync machine, and its history is then that of the messages posted |
| SyncCursor.RealCopy | backend/src/SyncHistoryHandler.cpp:37-58 | a live copy stores what a replay would |
| SyncCursor.RealLogin | frontend/src/NetworkManager.cpp:87-97 | a login may send the newest timestamp of the tables |
| PendingKeys.DeferredSendsAreFifo | frontend/src/NetworkManager.cpp:69-77 | since the last logout what was handed to encryptAndSend for a peer, then what still waits, is exactly what was given to sendMessage; a peer with a key has nothing waiting |
| PendingKeys.KnownTrace | frontend/src/NetworkManager.cpp:367-370 | a peer's key is known if and only if it is the peer's last reply since the last logout |
| GroupCreations.PendingOrSentOnce | frontend/src/NetworkManager.cpp:387-407 | every accepted creation is at any time either pending or sent, once |
| GroupCreations.CreatedExactlyOnceIff | frontend/src/NetworkManager.cpp:436-468 | a creation has gone out, exactly once, if and only if every listed member's key was known at the start or has been replied since, once per listing |
| GroupCreations.ListedTwiceWaitsTwice | frontend/src/NetworkManager.cpp:387-396 | a run in which a member listed twice holds the packet back after their key has arrived |
| GroupCreations.PacketCarriesEveryKey | frontend/src/NetworkManager.cpp:387-396 | members are split exactly between waiting and wrapped, and a sent packet carries every member's wrapped key |
| GroupCreations.CreationIsGenuine | frontend/src/NetworkManager.cpp:436-461 | a creation, pending or sent, has the name, members and group key of the call, and every key in it is wrapped with that very member's public key |
| KeyBuffers.KeyRing.SendText | frontend/src/NetworkManager.cpp:69-77 | hands over or queues, as the step says |
| KeyBuffers.KeyRing.HandleKeyExchangeResponse | frontend/src/NetworkManager.cpp:367-407 | drains the peer's messages in order, serves every waiting creation, sends and erases the ready ones |
| KeyBuffers.KeyRing.StartGroup | frontend/src/NetworkManager.cpp:436-468 | wraps known keys, waits for the others, keeps nothing if a wrap throws |
| KeyBuffers.KeyRing.LogOut | frontend/src/NetworkManager.cpp:409-419 | forgets keys and waiting messages, keeps the pending creations |
| ChatView.ChatModel.AppendAndCache | frontend/src/ChatModel.cpp:15-26 | view and cache keep agreeing; only that peer's cache grows |
| ChatView.ChatModel.SwitchConversation | frontend/src/ChatModel.cpp:28-36 | the view becomes the peer's cached list |
| ChatView.ChatModel.UpdateStatus | frontend/src/ChatModel.cpp:85-112 | the one table is written; view and cache keep agreeing, statuses included; other peers' caches are untouched |
| ChatView.ChatModel.ClearAll | frontend/src/ChatModel.cpp:44-50 | both are emptied |
| ChatView.ChatModel.ClearHistory | frontend/src/ChatModel.cpp:38-42 | empties the view alone; the two then agree only if nothing was cached |

## Left out

- Database races inside one handler: each execute is one step; the queue and group handlers are not interleaved statement by statement.
- Sockets, timers, logging, SQL binding and row-fetch mechanics: a send succeeds or raises, a query is a filter; the clock is a parameter.
- Cryptography: a wrap works unless the key is unusable, a decryption gives the text or throws, tokens are fresh strings.
- Completeness of receipts: the queue's unique index and receipts that arrive before the snapshot prevent it; only the safety direction is claimed.
- ReceiptFlow.ReceiptsNeverOverReport: packets travel as values in that machine, which ReceiptFlow.SentIsClean and Wire.RoundTrip allow but for one case: a send-ACK whose group id holds a newline loses what follows it, so the client files the snapshot, all rows unread, under the shorter id.
- Timestamps.ReplayMatchesLive: covers instants to the millisecond; rounding of microsecond values by Qt is not modelled.
- Timestamps.CanonicalIsIdempotent: date-only texts, texts without seconds and other punctuation that Qt parses are returned as they are.
- HistorySync.OnlineClientIsComplete: membership is fixed during the run; somebody who joins a group later has its older messages before their cursor.
- HistorySync.SendHistory: the rows come ordered by the query, so the sort by created_at is not repeated; the fallback to the full history is the missing cursor.
- Dedup.OneRowOneSignal: local deletion is not part of the deliveries.
- Inbox.BufferLosesNothing: a buffered packet without timestamp gets its time on arrival, not when it is taken out of the buffer.
- GroupServer.Handlers.GetMembers: the joined_at order of the query is left open.
- GroupServer.Handlers.CreateGroup: the invitations, their pending notifications and the GROUP_INFO reply are not modelled; its encoding is in FieldCodecs.
- GroupServer.Handlers.GroupMessage: the fan-out to online members is not modelled; the snapshot it goes to is.
- GroupServer.Handlers.GroupLeave: the leave notices and the request to rotate the key are not modelled.
- GroupServer.Handlers.GroupInfo: the member list reply and its fan-out are not modelled; its encoding is in FieldCodecs.
- GroupServer.Handlers.KeyExchange: key recovery, which changes no table, invitations and key packets to members are not modelled.
- GroupServer.Handlers.MarkReceipt: sending or queueing the receipt is modelled in ReceiptFlow, not in the class.
- KeyBuffers.KeyRing.HandleKeyExchangeResponse: pending additions of group members are not modelled.
- KeyBuffers.KeyRing.StartGroup: the sentinel group key "0" is not modelled.
- KeyBuffers.KeyRing.LogOut: the unread lists and group keys that it also clears are not modelled.
- VARCHAR limits, sequence gaps and failed inserts other than unknown users.
- Pending notifications, last_seen, presence, multi-device echo of direct messages and DELETE_CONVERSATION notices.
- Key rotation by the client and unread timestamp lists.
- ConversationListModel, ConversationHistory, PacketBuilder, PacketHandlerFactory, entity serializers and getters: only easy members.
- QML pages other than the two status writes, build files and configuration.
