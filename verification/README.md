# Verification of the ZooKeeper client

A Dafny model of the ZooKeeper client in `zk/`, with proofs of what its four hard
parts promise. `dafny verify dfyconfig.toml` checks all of it.

**The lock recipe.** `LockProtocol` is a step system: any number of clients, each
running Lock and Unlock; a server history that grows by creates, deletes and closed
sessions; reads served from any prefix of the history that is not older than what
the session has seen; lost replies, disconnections and expiry at any moment.
`LockInvariant` holds what every step keeps, `LockTheorems` and `LockSessions` what
follows for every run. `LockScan` and `LockRecipe` are the imperative code of one
Lock value, `LockTurns` ties its waiting loop to the steps, and `LockNames` has the
names. `ProtectedCreate` is the retry loop that creates the node.

**The connection.** `RequestEngine` is the request multiplexer as a step system over
the send queue, the pending map and the hands of sender and receiver; every I/O
result is a possible step, and a step that sends on a response channel needs room
in it. `RequestInvariant`, `RequestTheorems`,
`RequestAnswers`, `RequestOrder` and `RequestProgress` hold the proofs, `RequestConn` the
methods on fields, each proved to take those steps. `WatchTable` says what becomes
of every watch, `WatchConn` is the map that does it, `SetWatches` packs paths into
bounded requests, and `Xid` numbers requests.

**The codec.** `Packets` has types and values, `Serializer` the bytes of a value,
`Encoder` the methods that write them in place, `Decoder` the way back, and
`CodecTheorems`, `CodecPrefixes` and `MultiReply` the laws. `WireFormat` says what
the bytes are.

**Paths and hosts.** `PathValidation` proves the one-pass check equal to a
specification by components, over `Utf8`. `HostProvider` is the rotation.

## What the proofs found

- A failed write answers a request and leaves it pending (`zk/conn.go:778-788`), so
  its channel is owed two answers but buffers one. A request that nobody listens to
  then blocks the flush, the receive loop or sendData for ever, depending on where
  its reply is, and the client never connects again. These are a credential that
  `resendZkAuth` was sending and a close request whose caller timed out, and no
  others: `RequestProgress.WhoIsDoomed`, `RequestProgress.ConnectionEndsExactly`,
  with a concrete run for each case.
- `Lock` counts itself lowest when its own node is missing from the listing
  (`zk/lock.go:96`), so mutual exclusion is about holders whose node still exists:
  `LockSessions.TwoBelieve` is a run with two clients that believe they have the
  lock, and `LockSessions.SessionDecides` says that an open session is the condition.
- `parseSeq` splits at dashes, so a counter that wrapped to a negative number loses
  its sign; `LockNames.ParseSeqRecovers` gives the exact condition.
- The comment on `CreateProtectedEphemeralSequential` promises to find the node
  after a reconnect; that needs the lost request to have taken effect before the
  listing (`ProtectedCreate.AtMostOnceExactly`). A child with the protected prefix
  and a short name that comes before any carrier of the GUID makes the slice at
  `zk/conn.go:1110` panic (`ProtectedCreate.PanicsExactly`).
- `validatePath` means to refuse "." components but accepts `/./x`, because `w` is 0
  on the first iteration (`zk/util.go:82`, `zk/util.go:103`); the paths that begin
  with `/./` are the only ones (`PathValidation.AcceptedByMistake`).
- A bool that does not fit panics instead of giving `ErrShortBuffer`
  (`zk/structs.go:454`, `zk/structs.go:540-544`), in the encoder and in the decoder
  (`CodecPrefixes.PrefixPanicsExactly`, `MultiReply.PanicsExactly`).
- The decoder slices up to the capacity of its buffer, so a truncated packet in a
  reused buffer can decode from stale bytes (`CodecPrefixes.OwnBytesExactly`).
- A set-watches request with a single path may exceed the limit; no other may
  (`SetWatches.WithinLimitExactly`).

## Model

| member | source | states |
|---|---|---|
| `LockNames.ParseSeqMagnitude` | zk/lock.go:37-40 | parseSeq reads the magnitude of the server's counter whatever stands before the last dash |
| `LockNames.ParseSeqRecovers` | zk/lock.go:37-40 | for every lock directory (dashes included) and GUID, parseSeq recovers the counter of a protected node if and only if the counter has not wrapped to a negative int32 |
| `LockNames.ParseSeqOfName` | zk/lock.go:85-106 | a child name and its full path parse to the same number, so the client compares its own path with listed names correctly |
| `LockNames.DigitsValue` | zk/lock.go:39 | the decimal digits of a number are read back as that number |
| `LockNames.TenDigits` | zk/lock.go:37-40 | the suffix of a sequential node is ten decimal digits with the value of the counter |
| `LockScan.Scan` | zk/lock.go:96-119 | the one-pass scan with its three running variables reports: some child does not parse; or no child is smaller; or a child with the greatest smaller number |
| `LockScan.ScanUnique` | zk/lock.go:96-119 | the three conclusions exclude each other and the predecessor is unique among children with distinct numbers |
| `LockInvariant.LiveStable` | zk/lock.go:90-131 | a node that is live now was live at every earlier prefix of the server history that contains its creation |
| `LockInvariant.EarlierInView` | zk/lock.go:90-119 | a server whose prefix contains the client's own create lists every live node with a smaller number, however stale the prefix is otherwise |
| `LockInvariant.ScanIsCurrent` | zk/lock.go:90-119 | a scan of a listing no older than the client's own create decides as if the listing were current: lowest means no live smaller node, predecessor means no live node lies between |
| `LockInvariant.StepInv` | zk/lock.go:45-150 | every step of any client, session or server keeps the protocol invariant |
| `LockInvariant.RunInv` | zk/lock.go:45-150 | the protocol invariant holds in every state of every run |
| `LockTheorems.MutualExclusion` | zk/lock.go:45-150 | over all runs with stale reads, lost replies and session expiry, at most one client for which Lock returned nil without a successful Unlock still has its node |
| `LockSessions.SessionDecides` | zk/lock.go:45-150 | in every run a client that believes it has the lock still has its node if and only if its session is open |
| `LockSessions.OpenSessionsExclude` | zk/lock.go:45-150 | so of two clients that believe they have the lock one has a closed session |
| `LockSessions.TwoBelieve` | zk/lock.go:90-136 | a concrete run in which two clients believe they have the lock, the first one's session having been closed |
| `LockTheorems.FirstComeFirstServed` | zk/lock.go:85-136 | acquisitions with a live node happen in strictly increasing order of sequence number |
| `LockTheorems.NoHerd` | zk/lock.go:96-131 | two blocked clients with live nodes never watch the same node |
| `LockTheorems.NoLostWakeup` | zk/lock.go:117-130 | a blocked client has an event or an error in its channel, or its watch is being set again, or the node it watches exists in its server's view and has a smaller number |
| `LockTheorems.WaitsForEarlier` | zk/lock.go:117-130 | whoever waits for another client's node has the larger number |
| `LockTheorems.NoCycle` | zk/lock.go:117-130 | no chain of clients, of any length, waits in a circle |
| `LockTheorems.LeastScansLowest` | zk/lock.go:90-115 | when its server has caught up, the contender with the least live node scans itself lowest |
| `LockTheorems.OwnStepProgress` | zk/lock.go:90-131 | the contender with the least live node always has an enabled step of its own that brings it closer to the lock |
| `LockTheorems.Handover` | zk/lock.go:90-136 | that contender is at most three such steps from holding the lock, with no step of any other client |
| `LockRecipe.EnsureParents` | zk/lock.go:57-74 | the parent loop asks for each ancestor in turn and succeeds if and only if every one is found, created, or refused with ErrNodeExists; otherwise it stops with the first other error; err keeps what its last call left |
| `LockRecipe.Turn` | zk/lock.go:90-131 | one turn of the waiting loop acquires, retries or fails exactly as the listing, GetW and the event decide |
| `LockRecipe.TurnMeans` | zk/lock.go:90-131 | what wins, retries and fails a turn, said of the listed children, the reply of GetW and the event themselves |
| `LockRecipe.Lock.CreateNode` | zk/lock.go:52-83 | the create loop returns the path of the first attempt that succeeds after attempts that all found the directory missing and set it up, also when somebody else created a part of it; otherwise the first error that ends it |
| `LockRecipe.RetryMeans` | zk/lock.go:55-74 | an attempt leads to another one exactly when it found no directory and every ancestor was found, created, or refused with ErrNodeExists, and which error it leaves in err |
| `LockRecipe.SetUpMeans` | zk/lock.go:54-74 | the same for the first k attempts |
| `LockRecipe.Lock.Await` | zk/lock.go:90-131 | the waiting loop ends with the lock or an error exactly at the first turn that is not a retry |
| `LockRecipe.Lock.Acquire` | zk/lock.go:45-136 | Lock acquires exactly when the create succeeded, its number was parsed and some turn won; lockPath and seq change only then; ErrDeadlock when already held; any other failure is that of the create loop, of parsing the created path, or of a turn for the number in that path |
| `LockRecipe.AwaitDecides` | zk/lock.go:90-131 | winning, failing and retrying exclude each other over whole loops |
| `LockTurns.ListTurn` | zk/lock.go:90-115 | in any run, a client's listing without a predecessor is a turn of the waiting loop that ends as the client does |
| `LockTurns.MissTurn` | zk/lock.go:90-125 | a listing and a GetW that finds no node are a turn that retries, whatever other clients do in between |
| `LockTurns.WatchTurn` | zk/lock.go:90-130 | a listing, a GetW and the event on its channel are a turn that retries or fails as the event says |
| `LockRecipe.Lock.Unlock` | zk/lock.go:140-150 | Unlock clears the fields exactly when the delete succeeds, and returns ErrNotLocked when nothing is held |
| `ProtectedCreate.ProtectedLockPath` | zk/conn.go:1091-1094 | the path sent for a lock plus the server's counter is the lock directory plus the child name that parseSeq reads |
| `ProtectedCreate.ServerNameCarries` | zk/conn.go:1089-1111 | a search for a GUID of 32 characters takes a server's node name for its own if and only if the node was created with that GUID, and no such name is too short |
| `ProtectedCreate.CarriesMeans` | zk/conn.go:1108-1111 | a child carries the GUID exactly when its last part begins with the prefix and the next 32 characters are the GUID |
| `ProtectedCreate.TooShortMeans` | zk/conn.go:1108-1111 | the slice is out of range exactly for a last part with the prefix and fewer than 35 characters |
| `ProtectedCreate.FindGuid` | zk/conn.go:1107-1114 | the first child that carries the GUID or is a protected name too short to hold one decides the search: found, or a panic; without one nothing is found |
| `ProtectedCreate.SearchUnique` | zk/conn.go:1107-1114 | a listing has only one such result |
| `ProtectedCreate.SearchFindsOwn` | zk/conn.go:1107-1114 | in a lock directory the search finds the client's node wherever it stands in the listing |
| `ProtectedCreate.OrderDecides` | zk/conn.go:1107-1114 | with the same two children, a short name in front panics and a carrier in front is found |
| `ProtectedCreate.Create` | zk/conn.go:1096-1121 | the retry loop over session expiry and connection loss: which reply or listing decides the result after one to three attempts |
| `ProtectedCreate.LostReplyIsFound` | zk/conn.go:1102-1114 | a lost reply whose node is in the listing of a lock directory is found at the first attempt, and the call names that node |
| `ProtectedCreate.ReturnsDecides` | zk/conn.go:1096-1121 | the replies and listings decide the result and the number of attempts |
| `ProtectedCreate.PlainResults` | zk/conn.go:1097-1121 | after any number of session expiries the first reply of another kind decides: a path, its own error, or the error of the failed listing; three expiries give ErrSessionExpired |
| `ProtectedCreate.LostThreeTimes` | zk/conn.go:1102-1121 | three lost replies with empty listings give ErrConnectionClosed after three attempts |
| `ProtectedCreate.PanicsExactly` | zk/conn.go:1107-1112 | the call panics if and only if an attempt reached by retries alone loses its reply and the first child that stops its search is too short |
| `ProtectedCreate.AtMostOnce` | zk/conn.go:1075-1122 | if lost requests took effect before the listing or never, no two live nodes ever carry the GUID and a nil error names the one that does, over all retry paths |
| `ProtectedCreate.AtMostOnceExactly` | zk/conn.go:1097-1120 | over all retry paths, two live nodes carry the GUID at some point if and only if a request takes effect after its listing and the next attempt creates in the same session |
| `ProtectedCreate.LateEffectDuplicates` | zk/conn.go:1102-1114 | a concrete pair of attempts that does so |
| `Xid.XidIs` | zk/conn.go:940-942 | the id of draw k is k modulo 2^31, across every wrap of the uint32 counter |
| `Xid.XidsApart` | zk/conn.go:940-942 | ids are non-negative int32 values, so never -1 or -2, and two draws share an id exactly when they are a multiple of 2^31 apart |
| `Xid.ConsecutiveIdsCover` | zk/conn.go:940-942 | any 2^31 consecutive ids are pairwise distinct and use every possible id |
| `RequestInvariant.StepInv` | zk/conn.go:452-582 | every step of callers, sender, receiver and connection loop keeps the multiplexer invariant |
| `RequestInvariant.RunInv` | zk/conn.go:452-582 | the multiplexer invariant holds in every state of every run |
| `RequestInvariant.InsertedSound` | zk/conn.go:770-779 | an insertion moves the request into the pending map and displaces at most one other, which stays accounted for |
| `RequestTheorems.Conservation` | zk/conn.go:563-582 | in every reachable state each drawn request is in exactly one place (caller, sendChan, sender's hand, pending map, receiver's hand, settled, overwritten), and a request both answered and pending has had exactly a failed write |
| `RequestTheorems.AnswersBounded` | zk/conn.go:752-795 | a response channel gets at most one answer when no write fails and at most two otherwise |
| `RequestTheorems.ConnectionsStartEmpty` | zk/conn.go:477-561 | the pending map is empty whenever a connection begins |
| `RequestTheorems.RepliesStayOnTheirConnection` | zk/conn.go:913-931 | a server reply is delivered only to a request that was inserted on the connection the reply was read from, across reconnects, expiries and failed authentications |
| `RequestTheorems.ReplyReachesItsRequest` | zk/conn.go:913-931 | a reply with an unsettled request's id reaches that very request unless its entry was overwritten |
| `RequestTheorems.FlushLosesNothing` | zk/conn.go:541-582 | once a connection is flushed every request that reached the pending map is settled or was overwritten; only callers' and queued requests may be unanswered |
| `RequestAnswers.StepGives` | zk/conn.go:563-582 | for every step, exactly which answer it sends to which request, and none to any other |
| `RequestAnswers.SenderGoesOn` | zk/conn.go:752-830 | where the sender is after each of its steps, and which request it holds |
| `RequestAnswers.ReceiverGoesOn` | zk/conn.go:913-935 | a known id is forgotten and handed over, an unknown one changes nothing, and the reply to a close request ends the loop |
| `RequestAnswers.LoopGoesOn` | zk/conn.go:477-561 | with which error each end of a connection flushes, and that only ErrClosing quits |
| `RequestAnswers.FlushErrors` | zk/conn.go:541-551 | over every run a flush answers ErrConnectionClosed, or ErrClosing once Close was called, and never ErrSessionExpired |
| `RequestAnswers.UnsentErrors` | zk/conn.go:361-378 | a request flushed from sendChan gets ErrNoServer, or ErrClosing once Close was called |
| `RequestAnswers.QuitsOnlyAfterClose` | zk/conn.go:541-546 | the client quits only after Close |
| `RequestAnswers.QueueBounded` | zk/conn.go:40 | sendChan holds at most sixteen requests |
| `RequestOrder.SentInOrder` | zk/conn.go:752-806 | requests enter the pending map, and so the wire, in the order in which they entered sendChan, over every run and any number of reconnects |
| `RequestTheorems.InsertOverwritesFar` | zk/conn.go:778 | an insertion overwrites a pending request only when their draws are at least 2^31 apart |
| `RequestTheorems.NothingOverwritten` | zk/conn.go:778 | no run of at most 2^31 draws overwrites a request |
| `RequestTheorems.FullMeansUnreadFailure` | zk/conn.go:574-582 | the channel of a pending or received request is full exactly when its write failed and that answer is unread |
| `RequestTheorems.EarlyAnswersHaveRoom` | zk/conn.go:563-572 | answers given before the pending map (encode error, closed connection, unsent flush) never block |
| `RequestTheorems.ListenerUnblocksFlush` | zk/conn.go:574-582 | while somebody listens, reading the unread answer lets the flush go on |
| `RequestProgress.FlushEndsExactly` | zk/conn.go:541-582 | in every reachable flush, some steps leave it if and only if no pending request has a full channel that nobody will read |
| `RequestProgress.ConnectionEndsExactly` | zk/conn.go:515-582 | while ids do not wrap, a connection can come to its end (so that the client connects again or quits) if and only if no request without a reader is owed more answers than its channel takes |
| `RequestProgress.WayOut` | zk/conn.go:515-582 | the steps that end it: receiver, sender, then the flush, each full channel being read once |
| `RequestProgress.WhatDooms` | zk/conn.go:784-788 | only a failed write, or a Close that stops waiting, makes such a request |
| `RequestProgress.WhoIsDoomed` | zk/conn.go:312-319 | and it is a close request or a credential sent again |
| `RequestProgress.StuckForever` | zk/conn.go:563-582 | a flush, receive loop or sendData waiting for a channel nobody will read waits through every later step, on the same connection |
| `RequestProgress.FailedResendBlocksFlush` | zk/conn.go:415-432 | a concrete run: the write of a credential fails, and the flush waits for ever |
| `RequestProgress.FailedResendBlocksReceiver` | zk/conn.go:913-931 | a concrete run: its reply is already in the receive loop's hand, which waits for ever before any flush |
| `RequestProgress.FailedResendBlocksSender` | zk/conn.go:784-788 | a concrete run: its reply was delivered first, and sendData waits for ever to report the failure |
| `RequestProgress.TimedOutCloseBlocksFlush` | zk/conn.go:312-319 | a concrete run: Close gives up, its write fails, and the last flush waits for ever |
| `RequestTheorems.QuitForgetsTheQueue` | zk/conn.go:541-544 | a request in sendChan when the client quits is never answered |
| `RequestTheorems.QuitWithQueuedRequest` | zk/conn.go:541-544 | a concrete run quits with a request still queued |
| `RequestConn.SendTakesSteps` | zk/conn.go:752-795 | each path through sendData is a sequence of steps of the multiplexer |
| `RequestConn.Conn.SendData` | zk/conn.go:752-795 | for every fault, what sendData leaves in the pending map and on the request's channel, whether the sender stops, and that the invariant is kept |
| `RequestConn.Conn.NextXid` | zk/conn.go:940-942 | the counter field after the call and the id returned are those of the next draw |
| `RequestConn.Conn.QueueRequest` | zk/conn.go:954-965 | one draw for a request of the given opcode, then one enqueue unless sendChan is full |
| `RequestConn.Conn.HandleReply` | zk/conn.go:913-935 | look up and forget under the lock, answer once, wait when the channel is full, end after a close request; unknown ids change nothing |
| `RequestConn.Conn.FlushRequests` | zk/conn.go:574-582 | for any iteration order: every pending request gets the error and the map is empty, or it blocks on a request whose channel is full; it completes if and only if every pending channel has room |
| `RequestConn.Conn.FlushUnsentRequests` | zk/conn.go:563-572 | called with ErrNoServer, or with ErrClosing after Close: every queued request gets the error, the queue is empty, nothing else changes |
| `RequestConn.FlushStep` | zk/conn.go:577-579 | one turn of the flush loop is one flush step, whatever was flushed before |
| `WatchTable.StreamSpec` | zk/conn.go:884-903 | a watch registered by an operation receives exactly the first later operation that covers its path and kind, found by looking forward |
| `WatchTable.DeliveryIsFirstMatch` | zk/conn.go:870-936 | over any packet stream, the channel registered while response i is handled receives exactly the first later notification whose path matches and whose type covers its kind; nothing falls between |
| `WatchTable.ShutdownReachesAll` | zk/conn.go:222-227 | after shutdown or expiry every watch ever registered has received exactly one event: the one it had, or a not-watching event with its path and the error |
| `WatchTable.WatchHasRegistration` | zk/conn.go:944-952 | every channel in the table's history comes from one registration |
| `WatchTable.FirstPacketIs` | zk/conn.go:884-903 | the packet-level and operation-level definitions of the first matching event agree |
| `WatchTable.FirstPacketMeans` | zk/conn.go:882-903 | that first packet without recursion: no later notification of a change concerns the watch, or the first one that does is its only event, by event type and kind of watch |
| `WatchTable.CallWakesOn` | zk/conn.go:1008-1171 | GetW, ExistsW and ChildrenW register a watch exactly when they succeed (ExistsW also when the node is missing), and which notifications fire it |
| `WatchConn.OneShot` | zk/conn.go:585-599 | a channel is in at most one table entry, once, and it is in the table exactly while it is open and empty |
| `WatchConn.WatchedConn.AddWatcher` | zk/conn.go:944-952 | the table and the channels after registering, in registration order |
| `WatchConn.WatchedConn.Deliver` | zk/conn.go:896-899 | each send finds an open channel with room; exactly the listed channels get the event and are closed |
| `WatchConn.WatchedConn.HandleNotification` | zk/conn.go:883-903 | the loops over kinds and channels do to every watch what the watch history says, and keep the table exact |
| `WatchConn.WatchedConn.InvalidateWatches` | zk/conn.go:585-599 | for any iteration order every open watch gets the error event and the table is empty |
| `WatchConn.WatchedConn.SendSetWatches` | zk/conn.go:601-659 | the requests built after a reconnect ask for exactly the keys that still have an open watch, each once, and respect the limit if and only if each of their paths does |
| `SetWatches.ExactSize` | zk/conn.go:629-643 | the running size of the packing loop is the exact encoded length of header plus body |
| `SetWatches.Pack` | zk/conn.go:601-659 | for any iteration order every watched path stands once in the data, exist or child list of its kind, and nothing else does; requests with two or more paths are within the limit, 131072 by default; consecutive sizes exceed the limit together |
| `SetWatches.PartitionByList` | zk/conn.go:644-651 | the partition in terms of the three lists |
| `SetWatches.BodyFields` | zk/structs.go:247-252 | the body is the zxid and the data, exist and child lists, in this order |
| `SetWatches.WithinLimitExactly` | zk/conn.go:625-659 | all requests are within the limit if and only if every single watched path fits a request of its own |
| `SetWatches.RequestCount` | zk/conn.go:625-659 | which bounds the number of requests by their total size |
| `Serializer.FillSucceeds` | zk/structs.go:496-584 | an encode succeeds exactly when every part has an encoding and the bytes fit |
| `Serializer.FillFailure` | zk/structs.go:496-512 | a failed encode is decided by its first part that does not fit: ErrShortBuffer, unless that part is a bool (a panic) or has no encoding |
| `Serializer.FlatAppend` | zk/structs.go:530-537 | the bytes of parts written one after the other |
| `WireFormat.LeafBytes` | zk/structs.go:539-556 | the exact bytes of bools, numbers and nil slices, read with the most significant byte first |
| `WireFormat.BlobWire` | zk/structs.go:552-580 | strings and byte slices are their length in four bytes and then themselves |
| `WireFormat.StructWire` | zk/structs.go:524-538 | a struct is its fields, one after the other |
| `WireFormat.SliceWire` | zk/structs.go:559-570 | a slice is its count in four bytes and then its elements |
| `WireFormat.MultiWire` | zk/structs.go:293-311 | a multi begins with the nine bytes of its first header, the done flag cleared, and its first operation, and the rest is the multi of the others |
| `WireFormat.EmptyMultiWire` | zk/structs.go:303-310 | a multi ends with its closing header, the done flag set |
| `WireFormat.HeaderWire` | zk/structs.go:104-108 | the nine bytes of a multi header: type, done flag, error |
| `WireFormat.BigEndianInjective` | zk/structs.go:547-551 | bytes of one length have only one such reading, so these readings fix the bytes |
| `WireFormat.HeaderLayout` | zk/structs.go:93-96 | a request header is the id and the opcode, four bytes each |
| `WireFormat.StatLayout` | zk/structs.go:30-42 | a Stat is eleven numbers at fixed offsets, 68 bytes in all |
| `WireFormat.FieldAt` | zk/structs.go:530-537 | every field of a struct stands at its offset |
| `WireFormat.AclRequests` | zk/structs.go:586-624 | the fields of the requests with access control lists, by opcode |
| `WireFormat.PathRequests` | zk/structs.go:586-624 | the fields of the requests about one path, by opcode |
| `WireFormat.SessionRequests` | zk/structs.go:586-624 | the fields of the other requests, by opcode |
| `WireFormat.OtherOpcodes` | zk/structs.go:586-624 | no other opcode has a request |
| `WireFormat.LooseReadings` | zk/structs.go:453-484 | any nonzero byte decodes as true and any negative length as nil |
| `WireFormat.NormalizeKeeps` | zk/structs.go:423-494 | decoding restores a value unchanged unless it holds a nil slice (other than of bytes) or done flags that Encode overwrites |
| `Encoder.EncodeValue` | zk/structs.go:514-584 | the in-place encoder, recursive over structs, slices and multis, ends as the pure serializer says and writes exactly its bytes at the offset |
| `Encoder.EncodeSlice` | zk/structs.go:559-570 | a count patched in after the elements gives the bytes of a count written first |
| `Encoder.EncodeMulti` | zk/structs.go:293-311 | every operation's header with Done cleared and its operation, then the closing header with Done set |
| `Encoder.EncodePacket` | zk/structs.go:496-512 | encodePacket succeeds exactly when the value is encodable and fits, returns the number of bytes, writes exactly the serialized value and leaves all other bytes unchanged |
| `Encoder.Patched` | zk/structs.go:561-570 | the step that makes back-patching equal to writing in order |
| `Decoder.DecodeValue` | zk/structs.go:423-494 | the recursive decoder equals the pure one on every buffer, length and capacity included |
| `Decoder.DecodeSlice` | zk/structs.go:468-479 | the element loop equals the recursive definition |
| `Decoder.DecodeOperations` | zk/structs.go:313-341 | the multi loop equals the recursive definition and ends because each turn consumes a header |
| `CodecTheorems.RoundTrip` | zk/structs.go:423-584 | decoding a serialized value, wherever it stands in a buffer, gives the value (nil and empty byte slices apart, nil other slices empty) and consumes exactly its bytes |
| `CodecTheorems.RoundTripMulti` | zk/structs.go:293-341 | multi Decode inverts multi Encode, nested multis included |
| `CodecTheorems.RoundTripExactly` | zk/structs.go:423-584 | a value survives encoding and decoding if and only if its lengths fit the fields that carry them |
| `CodecTheorems.NoPrefixDecodes` | zk/structs.go:405-494 | no strict prefix of an encoding, given as the whole buffer, decodes |
| `CodecPrefixes.PrefixFailsAlike` | zk/structs.go:405-494 | decoding a strict prefix of an encoding ends like encoding the value into a buffer of that size, nested multis included |
| `CodecPrefixes.PrefixPanicsExactly` | zk/structs.go:405-455 | it panics if and only if the first part that does not fit is a bool, and otherwise reports ErrShortBuffer |
| `CodecTheorems.PrefixFree` | zk/structs.go:514-584 | no encoding is a prefix of the encoding of another value of the same type |
| `CodecTheorems.DecodeExtends` | zk/structs.go:423-494 | a successful decode does not depend on what follows |
| `CodecTheorems.StaleBytesDecode` | zk/conn.go:848-872 | a slice with more capacity than length lets a truncated packet decode from stale bytes |
| `CodecPrefixes.OwnBytesExactly` | zk/structs.go:423-494 | a packet decodes from its own bytes alone if and only if it decodes in the larger buffer without reading behind its length |
| `MultiReply.BuildRequest` | zk/conn.go:1211-1231 | Multi builds one operation per argument, in order, with type 1 for a create, 2 for a delete, 5 for a set, 13 for a check, and refuses an unknown type |
| `MultiReply.BodyByType` | zk/structs.go:362-382 | the body of a result by the number of its type: error code, path, Stat, nothing, or ErrAPIError |
| `MultiReply.DecodeMultiResponse` | zk/structs.go:343-389 | the reply loop collects the results up to the closing header and keeps the first error |
| `MultiReply.FirstErrorMeans` | zk/structs.go:383-388 | that error is nil exactly when every per-operation error is nil, and otherwise the one of the first failing operation |
| `MultiReply.Multi` | zk/conn.go:1232-1239 | the results in order with their own errors and the error of the first failing operation; a panic exactly when the reply breaks off at a bool |
| `MultiReply.PanicsExactly` | zk/structs.go:343-389 | the decode of a reply panics if and only if the reply ends right before the bool of one of its headers |
| `MultiReply.ReplyRoundTrip` | zk/structs.go:343-389 | every well-formed reply decodes to its results, in order |
| `MultiReply.ToError` | zk/constants.go:143-148 | nil exactly for code 0 |
| `MultiReply.ErrorCodes` | zk/constants.go:121-148 | the codes of the errors that the model names |
| `Utf8.DecodeEncoded` | zk/util.go:83 | a well-formed sequence (RFC 3629, section 3) is decoded to its scalar value and width |
| `Utf8.DecodedIsEncoding` | zk/util.go:83 | whatever decodes without error is the encoding of a scalar value (RFC 3629, sections 3 and 4) |
| `Utf8.Examples` | zk/util.go:83 | the encodings given as examples in section 7 of RFC 3629 |
| `Utf8.EncodeAllPrefix` | zk/util.go:82-114 | encodings of code point sequences are uniquely decodable |
| `Utf8.LastAscii` | zk/util.go:88-96 | decoding the last rune finds an ASCII value exactly when the last byte is that value |
| `PathValidation.Validate` | zk/util.go:58-116 | validatePath accepts exactly the paths of the component-wise specification, for all byte strings, including its acceptance of a first component '.' that a slash follows |
| `PathValidation.AcceptedBytes` | zk/util.go:58-116 | an accepted path begins with a slash, holds no ASCII control character, no two slashes in a row and no '..' component, and ends with a slash only as the root or for a sequential node |
| `PathValidation.ValidByBytes` | zk/util.go:58-116 | the component-wise specification once more, as an if-and-only-if over single bytes and code points, without splitting |
| `PathValidation.AllowedPoints` | zk/util.go:108-113 | no code point of an accepted path is in a forbidden range |
| `PathValidation.AcceptedByMistake` | zk/util.go:82-107 | what is accepted differs from a specification without any '.' component exactly on the paths that begin with '/./' |
| `PathValidation.DotSlashAccepted` | zk/util.go:82-107 | '/./x' is accepted |
| `PathValidation.VerdictMeans` | zk/util.go:82-114 | reading components left to right with the source's checks is the statement about all components |
| `PathValidation.StepDot` | zk/util.go:91-107 | the look-back and look-ahead at a dot refuse exactly '.' and '..' components, except at the first position |
| `HostProvider.Shuffle` | zk/util.go:50-55 | the in-place loop computes the swaps that the choices of rand.Intn call for, from the last position down |
| `HostProvider.ShuffledPermutes` | zk/util.go:50-55 | whatever the choices, the result is a permutation |
| `HostProvider.ShuffleReaches` | zk/util.go:50-55 | every permutation is the result of some choices |
| `HostProvider.RetryStartClosedForm` | zk/dnshostprovider.go:72-82 | retryStart is true exactly when the Next calls since the last Connected that followed a Next (else since the first Next), this one included, are a multiple of the number of servers |
| `HostProvider.ReferenceExists` | zk/dnshostprovider.go:72-88 | once Next was called there is such a reference call |
| `HostProvider.FirstNextNeverRetries` | zk/dnshostprovider.go:72-82 | the first Next never reports a full turn |
| `HostProvider.WindowVisitsAll` | zk/dnshostprovider.go:72-88 | any stretch of calls with as many Next as servers answers each server exactly once, whatever Connected calls come between |
| `HostProvider.DNSHostProvider.Init` | zk/dnshostprovider.go:24-61 | Init fails exactly when a lookup fails (with the first such error) or nothing is found, and otherwise holds every address of every server as often as it was found, in shuffled order; a failure changes nothing |
| `HostProvider.FoundTimes` | zk/dnshostprovider.go:33-46 | the addresses found are those answered for all servers, each as often as answered |
| `HostProvider.DNSHostProvider.Next` | zk/dnshostprovider.go:72-82 | Next extends the answers of the history by the slot of its call number, with the closed form of retryStart |
| `HostProvider.DNSHostProvider.Connected` | zk/dnshostprovider.go:84-88 | Connected makes the current slot the reference |

## Left out

- Sockets, dialing, deadlines, timers, ping ticks and logging: they appear only as steps that may succeed or fail.
- `connect`, `authenticate`, `loop`, `sendLoop`, `recvLoop` and `resendZkAuth` as methods: their control flow is the set of steps of `RequestEngine`; the session fields they set (timeouts, password, session id) are not modelled.
- The states published on the event channel and the event callback.
- LockProtocol: the history holds only events on the children of the lock directory. All of them are lock nodes, the directory is not removed meanwhile, and its creation is in `LockRecipe` alone.
- LockProtocol: the counter of the directory stays below 2^31, as `LockNames.ParseSeqRecovers` requires. It assumes the server's promises: one ordered history, reads that never go back within a session, and a watch event delivered before any view in which the watched node is gone.
- LockRecipe: the replies of the connection are a script given as a parameter; `LockTurns` ties the turns of the waiting loop to the protocol, the create loop is tied to it only through the node names, and progress is not claimed when a call fails: a node may outlive an error of Lock until its session ends.
- LockTheorems.Handover: says what the next contender can reach without the others, not that the scheduler lets it, because no fairness is assumed.
- ProtectedCreate.Create: the check of the path and the random bytes of the GUID are parameters or omitted; the GUID is any string.
- ProtectedCreate.AtMostOnce: assumes that a request without a reply took effect before a current listing or never will; `ProtectedCreate.AtMostOnceExactly` says what happens otherwise.
- RequestEngine: the contents of requests and replies; a reply is named by the connection it was read from. What recvFunc does is in `WatchTable`, as part of the packet it answers.
- RequestEngine: entries leave the pending map one by one during a flush; in the code the map is replaced at the end, under a lock that nobody else can hold in between.
- RequestConn.Conn.QueueRequest: a full sendChan is reported instead of waited for, because a method runs without the sender.
- RequestConn.Conn.HandleReply: lastZxid, recvFunc and the decoding of the reply are in other modules.
- RequestConn: the methods are atomic and sequential; interleaving is what the step system is for.
- WatchTable: the session state in an event, and decode errors that end the receive loop.
- WatchConn: the channel that addWatcher returns is its position in the order of registration; the reader of the channel is not modelled, since no channel gets a second event.
- SetWatches.Pack: the goroutine that sends the requests and stops at the first error. The iteration order of the map is a parameter.
- RequestProgress.ConnectionEndsExactly: is about runs of at most 2^31 draws, because later an insertion may overwrite the request that blocks.
- Encoder.EncodePacket: the number of bytes returned together with an error, and pointers that are nil; the buffer's length is its capacity, as with the connection's buffer.
- Decoder.DecodeValue: the number of bytes returned together with an error, the partly filled target, and allocation of a huge declared length.
- MultiReply.Multi: a panic is an outcome of the call here; in the program it ends the receive loop's goroutine.
- HostProvider.DNSHostProvider.Init: host and port splitting, lookup and joining are given as answers, the random choices as a parameter.
- HostProvider.WindowVisitsAll: is about slots of the shuffled list; equal addresses may fill several slots.
- PathValidation.Validate: the error is only yes or no, because the code has a single one.
- `zk/flw.go`, the ACL helpers, `FormatServers`, name tables, connection options and test hooks: easy members only.
- The plain wrappers (Get, Set, Delete, Exists, Children, Sync, ACLs, reconfiguration): each is one call to `request`.
- Data races and memory visibility: steps are taken to be atomic under the client's two mutexes.
