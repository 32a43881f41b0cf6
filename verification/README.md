# Gateway verification

A model of the parts of the long-connection gateway and its SDK where correctness is not
obvious from one function: the timer scheduler, the TCP framing, the sessions that outlive their
connections, the connections themselves, and the middleware chain. `dafny verify dfyconfig.toml`
checks everything.

| files | what they model |
|---|---|
| `TimerSpec`, `TimerHeap`, `TimerWheel`, `TimerRunner`, `TimerShard` | the timer scheduler: its meaning as a map from key to due time, the index-tracking binary heap, the wheel object, the interleaving of schedulers with the sleeping runner, the shards |
| `Framing`, `Transport` | the packet format, and the reader that keeps an incomplete tail between calls |
| `Router` | the four indexes of the local router, and what they mean without nesting |
| `SessionSpec`, `Session` | one call on a session as a function of the session and of what sessions share, and the session, scanner and store objects that compute it |
| `SessionRuns`, `SessionPlaces`, `SessionAcks`, `SessionTimers`, `SessionLeaks` | many sessions over whole runs: connections, membership, at-least-once messages, acknowledgement timers and the ones the scanner loses |
| `SessionRace` | one session whose calls are interleaved part by part: when a detached session stays in a room, and when a connected one is in the wrong ones |
| `AckRace` | one message whose delivery, timeout and acknowledgement are interleaved part by part |
| `ConnRuns`, `Connection` | one connection under every interleaving of its goroutines, and the connection object |
| `Registry`, `Factory` | the session registry with its two indexes and its timeout handler; bringing a connection up and down around a session |
| `Pipeline` | stages that share one index through `next` |
| `Names`, `Messages`, `Integers` | identifiers, messages, and the width of 32-bit numbers |

The objects that the program updates in place are classes with the same fields and loops. Each
method is proved to compute a function of the old state; the laws are proved about those
functions, over every run.

## Where the code does not do what its comments or names suggest

Each of these is stated as a lemma, with the exact condition or a run that shows it.

- `Write` does not enforce `MaxBodyLen`; a packet can be read back if and only if its body is within it (`PacketRoundTrip`).
- `onClose` clears the router again after detaching. A client that reconnects in between ends up active and in none of its rooms (`LateClearingLosesRooms`). Whatever happens to the other sessions, an active session is in exactly the places its client asked for, less those lost that way (`DisconnectTransparency`); which are lost is read off its own history (`LostIff`).
- `DetachConn` does not ask which connection has closed. A session stays attached to its newest connection if and only if no older one finishes closing after the attach (`NewestStaysAttachedIff`, `OldClosingDetachesNew`).
- `JoinRoom` checks for a connection and files the session in two parts. A detached session stays in a room exactly when such a call found the connection before the detach and filed the session after the last clearing that belongs to it, and nothing has cleared the router since (`StaysIff`); it can slip past both clearings of `onClose` (`JoinSlipsPastBoth`).
- `AttachConn` files the session from a copy of its rooms, so a room that is left meanwhile comes back (`LeaveIsUndone`). Calls that follow one another do no such thing (`CallsInTurnAgree`).
- `Submit` records a message after the connection has taken it. An acknowledged message stays pending exactly when the acknowledgement came in between (`AcknowledgedStaysIff`, `AckOvertakesStore`); a timeout can also send it again (`ResentAfterAck`).
- `RegisterSession` names a session to kick exactly when the stored one has the identifier of the one logging in, so a repeated login closes its own session once, with its unacknowledged messages (`LoginIsActiveIff`, `RepeatedLoginKicksItself`), and the user's address no longer reaches it (`LoginIsReachableIff`).
- `AttachConn` comes before `Activate`, so the flush of pending messages only counts an attempt and starts a timer; nothing is queued (`CreateAndRun`, `InactiveTakesNothing`).
- A successful resend starts the retry count again, so `MaxRetries` bounds failed attempts only (`ResendsAreUnbounded`).
- `handleTimeout` makes the scanner forget its key even when the key has been tracked again meanwhile. Close leaves a timer running exactly when that has happened since the timer was last started (`CloseLeavesIff`); every resend does it (`CloseLeavesResentTimer`). The timer does nothing when it goes off (`LeftoverIsHarmless`).
- A message without delivery options that cannot be delivered is dereferenced (`RejectedIsStoredIff`, outcome `Crashed`).
- The end of the read loop does not close a connection (`ActiveAfterReading`); by itself it closes if and only if reading has ended and the context has ended or the write loop has stopped (`ClosesByItselfIff`). A caller that passed the check before closing can still be told its message was taken, and that message is never written (`AcceptedAfterClosing`, `ClosedIsFinal`); something can still be accepted if and only if such a caller is left and the queue has room (`AcceptsAfterClosingIff`).
- Racing callers of `Submit` can be written in the other order than numbered (`RacingCallersSwapNumbers`); the numbers ascend if and only if no caller overtakes another between number and frame (`NumbersAscendIff`). The queue holds 4096 messages, not the 256 of the comment.
- User and device are joined with a colon before hashing, and different pairs can be joined to the same text (`JoinedCollidesIff`); the two indexes of the registry agree if and only if no two pairs share an identifier (`IndexesAgreeIff`).
- A stage that calls `next` twice can make `Append` differ from nesting (`TwiceIsNotNested`); exactly when is `AppendIsNestingIff`.

## Model

| member | source | states |
|---|---|---|
| TimerSpec.InsertIsUpdate | gateway/internal/timer/wheel.go:71-77 | scheduling is map update on key to due time |
| TimerSpec.RemoveIsRemoval | gateway/internal/timer/wheel.go:92-96 | cancelling is map removal |
| TimerSpec.PopAllIsFilter | gateway/internal/timer/wheel.go:171-192 | popping takes exactly the keys that are due and leaves the others as they were |
| TimerSpec.Conservation | gateway/internal/timer/wheel.go:72-80 | every accepted schedule is live, popped, cancelled or superseded; the counts add up |
| TimerHeap.RootIsMinimum | gateway/internal/timer/wheel.go:27-30 | the root of the heap is due no later than any task in it |
| TimerHeap.TaskHeap.Swap | gateway/internal/timer/wheel.go:31-35 | two tasks change places and every back-pointer is right again |
| TimerHeap.TaskHeap.Up | gateway/internal/timer/wheel.go:77 | sifting up repairs heap order above one place and keeps the tasks and back-pointers |
| TimerHeap.TaskHeap.Down | gateway/internal/timer/wheel.go:163 | sifting down repairs heap order below one place and touches nothing beyond the part it works on |
| TimerHeap.TaskHeap.Push | gateway/internal/timer/wheel.go:36-40 | adds one task to a valid heap, which stays valid |
| TimerHeap.TaskHeap.Pop | gateway/internal/timer/wheel.go:41-49 | takes the root out of a valid heap, which stays valid, and marks it as out |
| TimerWheel.Wheel.Schedule | gateway/internal/timer/wheel.go:60-85 | afterwards the key is due at the time the task names, or now if it names none, and every other key as before; the slot is filled; an empty key and a missing handler are refused and change nothing |
| TimerWheel.PoppedWhenAsked | gateway/internal/timer/wheel.go:66-77 | the next popDue takes the task exactly when the time it named has come; one that named none is due at once |
| TimerWheel.Wheel.Cancel | gateway/internal/timer/wheel.go:87-107 | answers whether the key was live; its meaning changes by removal |
| TimerWheel.Wheel.NextTask | gateway/internal/timer/wheel.go:157-169 | a live task with the earliest due time, or none exactly when nothing is live |
| TimerWheel.Wheel.PopDue | gateway/internal/timer/wheel.go:171-192 | exactly the live keys that are due, each with its due time, earliest first, never a dead task; the others keep their due times; it terminates |
| TimerWheel.Wheel.FireReady | gateway/internal/timer/wheel.go:145-153 | the handlers of a batch run except those whose task is flagged, in order |
| TimerRunner.StepKeepsInv | gateway/internal/timer/wheel.go:116-155 | every step of schedulers and runner keeps: no lost wake-up, each popped ticket taken once, none early |
| TimerRunner.RunKeepsInv | gateway/internal/timer/wheel.go:109-142 | the same over every interleaving |
| TimerRunner.FireTakes | gateway/internal/timer/wheel.go:145-153 | the re-check before the handler never skips a popped task |
| TimerRunner.Accounting | gateway/internal/timer/wheel.go:72-80 | scheduled equals live, fired, about to fire, cancelled and superseded together, in every reachable state |
| TimerRunner.DecidedIsFinal | gateway/internal/timer/wheel.go:93-99 | a schedule that is popped, cancelled or superseded stays so |
| TimerRunner.CancelledNeverFires | gateway/internal/timer/wheel.go:93-99 | a cancelled or superseded scheduling never fires, whatever happens next |
| TimerRunner.LiveIsReplay | gateway/internal/timer/wheel.go:60-107 | the live tasks of any run are those of a plain map given the same operations |
| TimerRunner.CallsOweSignals | gateway/internal/timer/wheel.go:83-114 | every accepted schedule and every cancel that finds something owes one signal; a signal fills the slot and only the runner empties it |
| TimerRunner.DueIsNotStranded | gateway/internal/timer/wheel.go:116-142 | while something is due the scheduler, left to itself, has a step to take |
| TimerRunner.InternalStepsDescend | gateway/internal/timer/wheel.go:116-155 | its own steps descend, so it cannot spin for ever |
| TimerRunner.QuietMeansFired | gateway/internal/timer/wheel.go:116-155 | when it has come to rest, everything that was due has fired |
| TimerRunner.CanFinish | gateway/internal/timer/wheel.go:116-155 | from every reachable state its own steps lead to rest |
| TimerShard.LookupIsLocal | gateway/internal/timer/shard.go:48-62 | a key is found in the whole exactly when it is in its own shard |
| TimerShard.LocalUpdateIsGlobal | gateway/internal/timer/shard.go:40-46 | an update of one shard is the update of the whole map |
| TimerShard.LocalPopIsGlobal | gateway/internal/timer/shard.go:28-30 | what the shards pop is together what the whole map would pop, and what they keep is what it would keep |
| TimerShard.ShardsAreResidues | gateway/internal/timer/shard.go:55-62 | two keys share a shard exactly when their hashes differ by a multiple of the shard count |
| TimerShard.ShardedScheduler.Schedule | gateway/internal/timer/shard.go:40-42 | over all shards together: the key is due at the time the task names, or now if it names none, and every other key as before |
| TimerShard.ShardedScheduler.Cancel | gateway/internal/timer/shard.go:44-46 | cancel finds exactly what schedule placed |
| TimerShard.ShardedScheduler.constructor | gateway/internal/timer/scheduler.go:12-17 | gives an empty scheduler with as many shards as asked, or 64 if the number is not positive |
| Framing.Uint16RoundTrip | sdk/tcp/client.go:148 | big-endian 16-bit numbers are read back |
| Framing.Uint32RoundTrip | sdk/tcp/client.go:150 | big-endian 32-bit numbers are read back, modulo their width |
| Framing.PacketBytes | sdk/tcp/client.go:147-151 | a packet is 0x12, 0x34, version 1, zero, the length with its high byte first, and the body |
| Framing.DecisionIsStable | sdk/tcp/client.go:87-117 | what the reader decides about its buffer does not depend on later bytes |
| Framing.PacketRoundTrip | sdk/tcp/client.go:94-117 | a packet is read back if and only if its body is within the limit |
| Framing.StreamRoundTrip | sdk/tcp/client.go:146-151 | any list of bodies within the limit is parsed back, whatever follows |
| Framing.StreamIsInjective | sdk/tcp/client.go:146-151 | different lists of bodies within the limit are never the same bytes |
| Transport.Transport.Read | sdk/tcp/client.go:61-127 | the loop computes the reader function; on the bytes: a buffered header other than 0x12 0x34 gives the invalid-magic error with that number, a length beyond 1 MB the too-large error with that length, both leave everything as it was, and neither error comes otherwise; a complete packet gives its body and is cut off |
| Transport.ReadOnBytes | sdk/tcp/client.go:87-117 | any call, on the bytes of the whole stream: a body comes only from a good header and takes its packet with it, an error names what the stream begins with, and without a body nothing is consumed |
| Transport.PatientReadOnBytes | sdk/tcp/client.go:65-127 | a call that may wait for all chunks: which ending it has is decided by the bytes of the stream alone |
| Transport.EndingIsLastEvent | sdk/tcp/client.go:66-85 | a call takes chunks and ends at the first other event, which tells a closed connection from a failed read |
| Transport.Transport.Write | sdk/tcp/client.go:130-160 | sends exactly the packet of the body, its first bytes when the connection fails, and nothing when the context has ended or marshalling fails |
| Transport.ReadConserves | sdk/tcp/client.go:73-117 | no byte is lost or reordered by a call, also when it fails |
| Transport.SessionConserves | sdk/tcp/client.go:61-127 | the bodies returned by any calls, then a parse of the rest, are the parse of the whole stream |
| Transport.ChunkingIndependence | sdk/tcp/client.go:65-126 | two ways of cutting a stream into chunks give the same bodies, and when neither reader can go on, the same failure and the same bytes left |
| Transport.ReadFinds | sdk/tcp/client.go:65-126 | a call that may wait for everything ends, and ends with what the whole stream calls for: its first body, its bad header, or a failed read |
| Transport.PoisonIsPermanent | sdk/tcp/client.go:87-97 | after a bad magic or length every later call fails the same way and the buffer stays |
| Transport.BufferIsBounded | sdk/tcp/client.go:73-113 | the buffer never exceeds one incomplete packet and one read of 4096 bytes |
| Transport.EndToEnd | sdk/tcp/client.go:61-160 | the packets of any bodies come out as those bodies, one per call, with nothing left |
| Router.LocalRouter.RegisterSession | gateway/internal/router/local.go:39-55 | files the session in both indexes; names a session to kick exactly when the device is filed under the same identifier |
| Router.LocalRouter.UnregisterSession | gateway/internal/router/local.go:57-68 | takes the device out of both indexes and prunes unobservably |
| Router.LocalRouter.JoinRoom | gateway/internal/router/local.go:71-78 | adds one pair to the flat room relation |
| Router.LocalRouter.LeaveRoom | gateway/internal/router/local.go:81-90 | removes one pair from it; pruning cannot be seen |
| Router.LocalRouter.SubscribeTopic | gateway/internal/router/local.go:92-99 | adds one pair to the flat topic relation |
| Router.LocalRouter.UnsubscribeTopic | gateway/internal/router/local.go:101-110 | removes one pair from it |
| Router.LocalRouter.UnregisterAll | gateway/internal/router/local.go:113-130 | removes exactly the session from every room and topic; the empty inner maps it leaves cannot be seen |
| Router.LocalRouter.Resolve | gateway/internal/router/local.go:132-157 | the multiset union of user, room and topic members, which are the values of the three inner maps; false exactly when it is empty |
| Router.RegisterKeepsFiled | gateway/internal/router/local.go:47-53 | every session of the device index stays in the fan-out of some user |
| Router.UnregisterKeepsFiled | gateway/internal/router/local.go:61-67 | the same when a device is taken out |
| Router.RegisterOnMembers | gateway/internal/router/local.go:39-55 | the user's address then reaches the session, in place of any of the same device; no other address changes |
| Router.UnregisterOnMembers | gateway/internal/router/local.go:57-68 | the user's address no longer reaches the device; no other address changes |
| Router.JoinOnMembers | gateway/internal/router/local.go:71-78 | the room then reaches the session, once; no other address changes |
| Router.LeaveOnMembers | gateway/internal/router/local.go:81-90 | the room no longer reaches the session; no other address changes |
| Router.SubscribeOnMembers | gateway/internal/router/local.go:92-99 | the topic then reaches the session, once; no other address changes |
| Router.UnsubscribeOnMembers | gateway/internal/router/local.go:101-110 | the topic no longer reaches the session; no other address changes |
| Router.PurgeOnMembers | gateway/internal/router/local.go:113-130 | no room and no topic reaches the session; everyone else is reached as before |
| Session.Scanner.Track | gateway/internal/delivery/ack/scanner.go:48-70 | arms and indexes a message whose options ask for at-least-once delivery, and changes nothing for any other |
| Session.Scanner.Done | gateway/internal/delivery/ack/scanner.go:73-85 | disarms and forgets one key |
| Session.Scanner.CancelAll | gateway/internal/delivery/ack/scanner.go:88-97 | cancels exactly what the index knows of the session |
| Session.Scanner.Forget | gateway/internal/delivery/ack/scanner.go:107-115 | forgets a key without cancelling its timer |
| Session.Session.constructor | gateway/internal/session/session.go:143-157 | a new session is authenticating, detached and empty |
| Session.Session.AttachConn | gateway/internal/session/session.go:178-226 | restores every room and topic, offers every pending message once more, each once, and starts its timer |
| Session.Session.DetachConn | gateway/internal/session/session.go:245-269 | suspends, and clears the router if there was a connection |
| Session.Session.HandleUndelivered | gateway/internal/session/session.go:513-527 | stores the message exactly when it may be stored |
| Session.Session.Submit | gateway/internal/session/session.go:333-367 | accepted exactly when the connection is active and holds fewer than 4096 messages; then the last number is the one issued, and an at-least-once message is pending with count 0, armed and indexed if there is a scanner; nothing else changes what is pending or armed; besides, the whole new state for every answer |
| Session.Session.Ack | gateway/internal/session/session.go:377-382 | ends the pending message and its timer |
| Session.Session.RemovePendingAck | gateway/internal/session/session.go:501-504 | drops one pending message and nothing else |
| Session.Session.JoinRoom | gateway/internal/session/session.go:393-398 | remembers the room, and joins it now if connected |
| Session.Session.LeaveRoom | gateway/internal/session/session.go:400-405 | forgets the room, and leaves it now if connected |
| Session.Session.Subscribe | gateway/internal/session/session.go:407-412 | remembers the topic, and subscribes now if connected |
| Session.Session.Unsubscribe | gateway/internal/session/session.go:414-419 | forgets the topic, and unsubscribes now if connected |
| Session.Session.Close | gateway/internal/session/session.go:437-465 | the first call clears router, timers and pending messages; later calls do nothing |
| SessionSpec.RejectedIsStoredIff | gateway/internal/session/session.go:340-364 | a message is accepted exactly when the connection takes it; a rejected one reaches the store exactly when it asks for it, there is one, and it is not at-most-once |
| SessionSpec.TrackedIff | gateway/internal/session/session.go:348-360 | of the messages taken exactly the at-least-once ones become pending and armed; the others change nothing but the last number, and a message not taken changes neither |
| SessionSpec.TimeoutOnFields | gateway/internal/session/registry.go:246-287 | a timeout gives up exactly when one more attempt passes the configured number, or five; else the message starts afresh if it is taken and counts one more if not; what each does to pending, timers and store |
| SessionSpec.LoginIsReachableIff | gateway/internal/access/connruntime/factory.go:73-81 | after a login the user's address reaches the session exactly when the login did not close, for the first time, a session of this user that was filed for the device under the same identifier |
| SessionSpec.CloseOnMembers | gateway/internal/session/session.go:446-454 | the first Close takes the device out of the fan-out of its user and nobody else out of any; later calls take nobody out |
| SessionRuns.StepOnPlaces | gateway/internal/session/session.go:178-269 | no step of one session changes the membership of another |
| SessionRuns.AgreementIsKeptIff | gateway/internal/session/session.go:178-269 | every step keeps sessions and router in agreement except a second clearing that hits an active session |
| SessionPlaces.AgreesIff | gateway/internal/session/session.go:393-465 | after any run sessions and router agree if and only if no active session has lost anything to a late clearing |
| SessionPlaces.SubsAreWanted | gateway/internal/session/session.go:393-419 | a session remembers exactly what its client asked for, over any run |
| SessionPlaces.DisconnectTransparency | gateway/internal/session/session.go:186-197 | in every reachable state a session is in no place its client did not ask for, in none without a connection, and, when active, in exactly those asked for less those lost; so nothing shows of disconnections if and only if nothing is lost |
| SessionPlaces.LostIff | gateway/internal/access/connruntime/factory.go:142-148 | a place is lost if and only if a late clearing hit the session while it wanted the place, and it has neither attached since nor asked about the place again |
| SessionPlaces.LateClearingLosesRooms | gateway/internal/access/connruntime/factory.go:142-148 | a run in which the second clearing leaves an active session in no room |
| SessionPlaces.LoginIsActiveIff | gateway/internal/access/connruntime/factory.go:73-81 | a login leaves the session active in all its places if and only if it does not kick itself |
| SessionPlaces.RepeatedLoginKicksItself | gateway/internal/access/connruntime/factory.go:73-81 | a run after which a login closes its own session and loses its pending message |
| SessionRuns.NewestStaysAttachedIff | gateway/internal/session/session.go:245-258 | the session stays attached to its newest connection, while that is open, if and only if no older one finishes closing after the attach |
| SessionRuns.OldClosingDetachesNew | gateway/internal/access/connruntime/factory.go:142-148 | a run in which the old connection's closing suspends the session while the new one lives |
| SessionRuns.ClosedHasNoPlaces | gateway/internal/session/session.go:450-454 | after the first Close the session is in no room or topic |
| SessionRuns.LastSeqIsOfLastTaken | gateway/internal/session/session.go:348-350 | in every run the session answers an attach with the number of the last message taken |
| SessionRuns.HungUpIsTwoSteps | gateway/internal/access/connruntime/factory.go:142-148 | onClose is detaching and then the late clearing; it leaves the session suspended, without connection and in no room or topic, and touches nothing else |
| SessionRace.MemberIff | gateway/internal/session/session.go:393-405 | under every interleaving the session is in a room exactly when somebody filed it there and nothing took it out since |
| SessionRace.StaysIff | gateway/internal/access/connruntime/factory.go:142-148 | a detached session stays in a room if and only if a call found a connection before the detach and filed the session after the last clearing of that detach, and nothing took it out since |
| SessionRace.JoinSlipsPastBoth | gateway/internal/session/session.go:393-398 | a run in which a JoinRoom does, past both clearings of onClose |
| SessionRace.QuietClearingsClean | gateway/internal/session/session.go:251-255 | when nobody is between finding a connection and filing the session at any clearing, a detached session is in no room |
| SessionRace.MembersAreRoomsIff | gateway/internal/session/session.go:191-197 | the session is in exactly its rooms if and only if for each room its last filing outlives the takings exactly when its last join outlives the leaves |
| SessionRace.CallsInTurnAgree | gateway/internal/session/session.go:178-269 | calls that follow one another keep a connected session in exactly its rooms, and a detached one in none |
| SessionRace.LeaveIsUndone | gateway/internal/session/session.go:191-194 | a run that ends connected in a room the client has left |
| SessionRace.OnlyClosersClear | gateway/internal/session/session.go:446-453 | under every interleaving the router is cleared only by onClose and by a Close that found a connection |
| SessionRace.ClosersClear | gateway/internal/access/connruntime/factory.go:142-148 | every onClose, connected or not, and every Close that found a connection has cleared the router when it returns |
| AckRace.PendingIff | gateway/internal/session/session.go:346-359 | under every interleaving the message is pending exactly when it was recorded and nothing has deleted it since |
| AckRace.AcknowledgedStaysIff | gateway/internal/session/session.go:377-382 | an acknowledged message that is not delivered again stays pending if and only if the acknowledgement came between a delivery and its recording |
| AckRace.QuietAckIsFinal | gateway/internal/session/session.go:377-382 | an acknowledgement that finds nobody in between is final |
| AckRace.AckOvertakesStore | gateway/internal/session/session.go:346-359 | a run in which the acknowledgement comes in between |
| AckRace.ResentAfterAck | gateway/internal/session/registry.go:246-277 | a run in which a timeout sends an acknowledged message again |
| AckRace.OnlyPendingIsResent | gateway/internal/session/registry.go:246-277 | under every interleaving only a message that was found pending is sent again, counted or given up |
| SessionAcks.StepIsFaithful | gateway/internal/session/registry.go:238-287 | one step changes what is pending as its log entry says, and for no other session or message |
| SessionAcks.PendingIsOpen | gateway/internal/session/session.go:333-382 | in every reachable state what is pending, with its retry count, can be read off the log |
| SessionAcks.Conservation | gateway/internal/session/session.go:353-360 | a tracked delivery is pending until acknowledged, removed, given up or cleared; its count is the flushes and failed resends since its last delivery |
| SessionAcks.StoreIsRecorded | gateway/internal/session/registry.go:258-267 | the store holds exactly what was turned away or given up and asked for it, in order; a message is given up exactly when the limit is passed |
| SessionAcks.TookIff | gateway/internal/session/session.go:340-366 | in every run a submission is logged as tracked exactly when the session is attached, the connection takes it, and it asks for at-least-once delivery |
| SessionAcks.NeverForgotten | gateway/internal/session/session.go:353-360 | in every run an at-least-once message that was taken stays pending until it is acknowledged, removed or handled by a timeout, or its session closes |
| SessionTimers.TimerCoverage | gateway/internal/session/session.go:202-220 | every pending message has a timer or a handler about to run, or its last resend failed since the last attach |
| SessionTimers.AttachCovers | gateway/internal/session/session.go:215-218 | an attach starts a timer for every pending message |
| SessionLeaks.TimersAreLogged | gateway/internal/delivery/ack/scanner.go:48-116 | in every reachable state which timers run and which keys the index holds can be read off the log |
| SessionLeaks.KnownAndLost | gateway/internal/delivery/ack/scanner.go:99-116 | a running timer is missing from the index exactly when a timeout handler of its message has returned since the timer was started |
| SessionLeaks.CloseLeavesIff | gateway/internal/session/session.go:457-459 | in every reachable state the first Close leaves a timer running if and only if that is so |
| SessionLeaks.CloseLeavesResentTimer | gateway/internal/delivery/ack/scanner.go:105-115 | a run in which Close leaves a timer behind |
| SessionLeaks.LeftoverIsHarmless | gateway/internal/session/registry.go:246-249 | after the first Close and until the message is delivered anew, a timeout of it changes no session, store, router or timer |
| SessionTimers.ResendsAreUnbounded | gateway/internal/session/registry.go:253-280 | whatever the limit, a message can be sent again any number of times and is not given up |
| ConnRuns.StepKeepsInv | gateway/internal/access/connruntime/writer.go:12-69 | every step of factory, loops and callers keeps the invariant of the connection |
| ConnRuns.WireOrder | gateway/internal/access/connruntime/writer.go:12-57 | first the handshake acknowledgement, then a prefix of what was accepted, in order; nothing lost or doubled; the queue within its capacity |
| ConnRuns.NumbersAreDistinct | gateway/internal/access/connruntime/writer.go:50 | no number is given to two frames |
| ConnRuns.NumbersAscendIff | gateway/internal/access/connruntime/writer.go:46-57 | over any run the numbers on the queue ascend if and only if no caller takes a number and queues its frame while another holds an older number that it queues later |
| ConnRuns.SerialCallersKeepOrder | gateway/internal/access/connruntime/writer.go:46-57 | callers that do not overlap between number and frame keep the order |
| ConnRuns.RacingCallersSwapNumbers | gateway/internal/access/connruntime/writer.go:50-53 | a run that writes number 2 before number 1 |
| ConnRuns.OnlyWhileActive | gateway/internal/access/connruntime/writer.go:47-49 | callers are let in exactly while the connection is active |
| ConnRuns.ClosedIsFinal | gateway/internal/access/connruntime/connection.go:79-86 | a closed connection writes nothing more, and what is still accepted stays in the queue, at most one frame for each caller inside |
| ConnRuns.AcceptedAfterClosing | gateway/internal/access/connruntime/writer.go:46-57 | a run that accepts a frame after closing |
| ConnRuns.AcceptsAfterClosingIff | gateway/internal/access/connruntime/writer.go:46-57 | on a closed connection some further frame can be accepted if and only if a caller is past the check and the queue has room |
| ConnRuns.ReadEndDoesNotClose | gateway/internal/access/connruntime/connection.go:88-96 | without a failed write or a cancelled context no connection is ever closed |
| ConnRuns.ActiveAfterReading | gateway/internal/access/connruntime/connection.go:94-96 | a run in which reading has ended and the connection is active |
| ConnRuns.ClosesByItselfIff | gateway/internal/access/connruntime/connection.go:79-96 | the connection's own steps lead to Closed if and only if reading has ended and the context has ended or the write loop has stopped |
| Connection.SubmittedIsRun | gateway/internal/access/connruntime/writer.go:46-57 | an uninterrupted Submit is a run of the interleaved connection |
| Connection.InactiveTakesNothing | gateway/internal/access/connruntime/writer.go:47-49 | a connection that is not active takes none of any messages offered |
| Connection.Connection.Submit | gateway/internal/access/connruntime/writer.go:46-57 | takes the message exactly when active with fewer than 4096 queued, and appends it with the next number; a refused one uses up a number |
| Connection.Connection.Send | gateway/internal/access/connruntime/writer.go:59-69 | the same without a number |
| Connection.Connection.Activate | gateway/internal/access/connruntime/outbound.go:11-13 | handshaking becomes active; in any other state nothing changes |
| Connection.Connection.WriteLoop | gateway/internal/access/connruntime/writer.go:12-41 | the frames that leave the queue are its first ones, each tried once with its own outcome; while the context is alive the loop stops exactly when a write fails, and leaves the frames behind that one; after its end it stops for certain, and drains the queue unless a failure comes before the end is selected; it runs as the interleaved connection does |
| Connection.Connection.Drain | gateway/internal/access/connruntime/writer.go:18-25 | tries every queued frame in order, each with its own outcome, whatever fails, and stops |
| Connection.Connection.FinishRun | gateway/internal/access/connruntime/connection.go:79-96 | once reading has ended: closes when the write loop has stopped or the context ends; else closes exactly when the write of a queued frame fails |
| Factory.FileAndKick | gateway/internal/access/connruntime/factory.go:78-81 | files the session, and closes the session object that the router had stored for the device when it is named, be it this one or another |
| Factory.LogIn | gateway/internal/access/connruntime/factory.go:73-81 | attach, file, and close the stored session object that is named |
| Factory.CreateAndRun | gateway/internal/access/connruntime/factory.go:73-111 | brings session and connection up, or leaves the session suspended; nothing is queued before the acknowledgement |
| Factory.OnClose | gateway/internal/access/connruntime/factory.go:142-148 | suspends the session and clears the router twice |
| Registry.RegistryIsStable | gateway/internal/session/registry.go:79-120 | every call for a pair gets the session its first call created |
| Registry.IndexesAgreeIff | gateway/internal/session/registry.go:111-140 | Count is the total of all users' devices, and both indexes hold the same sessions, if and only if no two pairs share an identifier |
| Registry.JoinedCollidesIff | gateway/internal/session/registry.go:157-160 | exactly which pairs are joined to the same text |
| Registry.Registry.GetOrCreate | gateway/internal/session/registry.go:79-120 | returns the session of the pair, which has this user, this device and the identifier of the pair, creating and entering it under both indexes if there is none |
| Registry.Registry.CreateLocked | gateway/internal/session/registry.go:94-119 | the same for the part under the write lock, after its second look |
| Registry.Registry.Count | gateway/internal/session/registry.go:136-140 | at most the total of all users' devices, and equal to it if and only if no two pairs share an identifier |
| Registry.Registry.HandleAckTimeout | gateway/internal/session/registry.go:238-287 | counts, gives up and stores, or sends again and tracks; gives up exactly when the configured number, or five, is passed; nothing for an unknown session or message |
| Pipeline.StartedIsPrefix | gateway/internal/pipeline/pipeline.go:30-41 | however often stages call next, those started are the first ones, in order, once each |
| Pipeline.RunIsOnion | gateway/internal/pipeline/pipeline.go:30-41 | with stages that call next at most once a run is each stage wrapped around the ones behind it |
| Pipeline.OnionTrace | gateway/internal/pipeline/pipeline.go:30-41 | first halves in order, second halves in reverse |
| Pipeline.AppendIsNesting | gateway/internal/pipeline/pipeline.go:23-28 | appending is nesting whenever the front does not come to its end twice |
| Pipeline.AppendNestsForOnce | gateway/internal/pipeline/pipeline.go:23-28 | so it is for stages that call next at most once, whatever is appended |
| Pipeline.AppendIsNestingIff | gateway/internal/pipeline/pipeline.go:23-41 | behind any front part, a chain of any given effect that can show a difference between append and nesting shows none if and only if the front comes to its end at most once |
| Pipeline.TwiceIsNotNested | gateway/internal/pipeline/pipeline.go:33-38 | a stage that calls next twice: append and nesting give different contexts |
| Pipeline.Chain.Append | gateway/internal/pipeline/pipeline.go:23-28 | a fresh longer chain; this one is unchanged |
| Pipeline.Chain.Run | gateway/internal/pipeline/pipeline.go:30-41 | the object computes the run function |
| Pipeline.Execution.Next | gateway/internal/pipeline/pipeline.go:33-38 | the re-entrant closure over the shared index computes it, and terminates |

## Left out

Modelling choices:

- Keys and identifiers are numbered names; the code only compares them. Timer keys of acknowledgements are pairs, so that joining session and message with colons cannot collide.
- The sift loops of `container/heap` are written out from Go's library, which is not part of the repository.
- In the runs of many sessions each method of session, router and registry is one step. The interleavings inside a method are modelled for the timer scheduler, for a connection, for the rooms of one session (topics are handled in the same way), and for one pending message.
- Pending entries are values, not shared pointers. The sequence number written into a shared message is not modelled; the numbers are those that were issued.
- The metrics shared by all shards are counters of each wheel; the shared counter is their sum.
- A read of the transport gives bytes or an error, not both; bytes that come with an error are dropped by the code and are not counted as received.
- The context given to a transport call is a number of loop heads at which it is still alive. A shard count is below 2^32.
- The scanner's scheduler is the set of keys live in it; that a wheel is such a set is proved of the scheduler. The offline store never fails.
- In the runs of many sessions an identifier names one session, so the stored session that is kicked is the one logging in. `Factory` does not need this.

Not modelled:

- Protobuf bodies, codecs, SHA-256 and FNV: bodies are bytes, a failed decode or encode is an outcome, the hashes are arbitrary functions.
- Kafka, Redis, HTTP, gRPC, the distributed router and the worker pools: I/O and libraries that are not visible.
- Wall-clock time and fairness: clocks only move forward, and no step is promised to happen.
- The heartbeat watchdog and `Connection.Close`: the latter has an empty body, so neither changes anything.
- `BaseCtx` of the pipeline, `GCLoop` of the registry (its body is commented out), `SubmitUpstream`, the connection registry: easy members only.
- The SDK's client state, authentication and WebSocket transport: thin wrappers.
