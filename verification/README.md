# Verified model of etunl

etunl is a small reverse tunnel: clients behind NAT hold one WebSocket to a server, and the server carries
HTTP requests and TCP connections to them as numbered streams. This project models the parts of it that hold
state machines, interleavings and codecs, and proves what they keep. `dafny verify dfyconfig.toml` checks all of it.

How a proof is built, part by part:

- **The stream multiplexer.** `StreamChannel` is one stream on its own, every atomic step of the Go code (a
  critical section, a compare-and-swap, `close(Done)`, a channel operation, one frame sent) being one step here;
  `ChannelInvariant` is the inductive invariant of such a private channel. `Multiplexer` is the real connection:
  two muxes with their tables, id counter, single reader and `CloseAll`, joined by two FIFO frame queues.
  `Refinement` shows that, seen from any one stream, every step of the connection is a step of a private channel
  or none, so the invariant carries over, and `Connection` states the results over all runs. `Mux` is the code of
  `Stream` and `Mux` as classes; `MuxSteps` shows that what a method does alone is a sequence of the atomic steps.
  `Closing` is about progress: readers released, CloseAll ending, and exactly when an open stream is lost.
- **The server.** `Ports` is allocation and listener reconciliation as functions, with the pigeonhole argument;
  `Registry` is the state machine of all connection handlers, in which the listener sync is a later step that a
  handler owes; `Server` is the code, each critical section proved to be the step of that name. Range loops over
  Go maps take the keys in any order.
- **The metrics.** `Ring` is the sixty-bucket ring against a per-minute event log; `LatencyMax` the lock-free
  maximum under any schedule; `MetricsRun` the registry under any interleaving of callers and snapshots;
  `RingRuns` the ring of every object in those runs, against `Ring`; `RouteMetrics` the code, on the array and
  the map in place. `Sums` holds the summation lemmas they share.
- **The frame codec.** `FrameCodec`: layout, round trips and the decoder that advances a reader.
- **The login.** `Base64Url`, `Decimal` and `Session` are the cookie; `Redirect` and `Login` the redirect value on
  its way through the login pages. Texts are byte strings.

Scope taken from the code: on one connection one side opens streams (both counters start at 1 with stride 2);
every property is about one connection's lifetime; ids repeat after 2^31 opens, and the properties hold up to
there (`Connection.OpenKeepsEntry` shows the next open). Sequence numbers of opens and of connections, and the
logs of sent and consumed payloads, exist in the model only.

Promises that the code keeps only under a condition, each stated with it:

- A payload of more than 1 MiB is lost although its SendData succeeds: the encoder writes it, the peer's decoder
  refuses it, and both ends go on (`Connection.LongPayloadIsLost` is such a run). What arrives is the payloads of
  up to 1 MiB. All that was sent is accounted for exactly if every payload was of that size
  (`Connection.ByteConservation`), and what was received is a prefix of what was sent exactly if none of the
  payloads in that prefix's place was longer (`Connection.Delivery`). An Open that long is lost the same way
  (`Connection.RefusedOpenNeverArrives`), and the two tables then disagree without any failure being reported.
- A frame survives the codec exactly when its payload is at most 1 MiB (`FrameCodec.FrameRoundTrip`). The encoder
  writes longer ones, with the length modulo 2^32; the decoder refuses them exactly if that remainder is above
  1 MiB, and otherwise cuts the payload there and reads the rest as further frames (`FrameCodec.LongFrame`).
- The check of a redirect value keeps a browser on this host unless the value begins with a slash followed by a
  backslash, or by tabs or line breaks and then a slash or a backslash (`Redirect.SafeRedirectLeavesHost`,
  `Login.LocationStaysUnless`); `Login.BackslashLeavesHost` is such a request.
- A stream whose Done is open need not be in the table: between winning the compare-and-swap and closing Done a
  second closer may already have removed it (`Connection.OpenDoneMayBeOrphaned`); that window is the only way
  (`Connection.OpenDoneOrphanedOnlyInWindow`), and a removal in it always loses the open stream
  (`Closing.CloseStreamOrphansInWindow` and `Closing.RemovalOrphansInWindow`, both if and only if).
- A user whose name contains `|` can sign in, but the session is never accepted (`Login.SessionLasts`). The
  configuration check asks only that names are not empty.
- The cookie decoder accepts texts other than the one issued for the same bytes
  (`Base64Url.ReencodesWhenCanonical` says which); the signature still covers the decoded bytes.

## Model

| member | source | states |
|---|---|---|
| StreamChannel.HalfInvStep | internal/tunnel/stream.go:53-203 | every atomic step on a stream keeps: a handed-out stream not yet shut is in the table, Done has at most one closer, DataCh holds at most 64 payloads, and what was accepted is in order |
| StreamChannel.TableInvStep | internal/tunnel/stream.go:77-97 | opening, failing to open, closing and sweeping keep the table part of that invariant |
| StreamChannel.CloseInvStep | internal/tunnel/stream.go:53-57 | the compare-and-swap has one winner among CloseStream calls, the reader and CloseAll, and only the winner closes Done |
| ChannelInvariant.ChannelInvStep | internal/tunnel/stream.go:53-203 | every step of either end of a private channel, whose wire carries only what the peer's decoder lets through, keeps order, conservation of the payloads of up to 1 MiB, and agreement between the two ends |
| ChannelInvariant.InitialChannelInv | internal/tunnel/stream.go:68-75 | a channel with no stream yet satisfies the invariant |
| ChannelInvariant.DisturbedChannelInv | internal/tunnel/conn.go:87-95 | the invariant survives a failure of the connection or a lost Open, after which agreement is no longer claimed |
| ChannelInvariant.RemovedStaysRemoved | internal/tunnel/stream.go:199-203 | a stream removed from an end's table is not registered there again |
| Multiplexer.IdsCollide | internal/tunnel/stream.go:79-80 | two opens get the same 32-bit id exactly if they are a multiple of 2^31 opens apart |
| Multiplexer.IdsDistinct | internal/tunnel/stream.go:79-80 | the ids of the first 2^31 opens are all different |
| Multiplexer.IdsByTwo | internal/tunnel/stream.go:68-80 | the first id is 1, each next one two more in 32 bits, and all are odd |
| Multiplexer.SystemInvStep | internal/tunnel/stream.go:77-203 | every step of the connection keeps the bookkeeping of tables, objects, readers and wires |
| Refinement.TargetChannelSteps | internal/tunnel/stream.go:77-203 | an action on a stream is an enabled step of that stream's private channel, with the same frames sent |
| Refinement.OtherChannelsStay | internal/tunnel/stream.go:114-133 | an action on one stream leaves the channel of every other stream as it is |
| Refinement.StepRefinesChannels | internal/tunnel/conn.go:38-68 | every step of the connection is, for each stream, one step of its private channel or none |
| Connection.RunInvariant | internal/tunnel/conn.go:38-95 | in every run of a connection, up to 2^31 opens, every stream's private channel satisfies the invariant |
| Connection.RunRefinesChannel | internal/tunnel/stream.go:114-124 | seen from one stream, a whole run of the connection is a run of a private channel |
| Connection.HistoryIsReal | internal/tunnel/stream.go:99-173 | in every reachable state and for every step: what counts as sent grows by successful SendData only, what counts as consumed by the payload taken off the front of DataCh only, DataCh grows by what the reader holds only, and a CloseStream counts as begun by its lookup only |
| Connection.ByteConservation | internal/tunnel/stream.go:99-159 | for a registered stream with Done open, the payloads of up to 1 MiB that the other end sent are exactly: consumed, then queued, then held by a blocked reader, then in flight under its id; these are all that was sent exactly if no longer payload was sent |
| Connection.Delivery | internal/tunnel/stream.go:114-133 | until this side begins CloseStream what it received is a prefix of the payloads of up to 1 MiB that were sent, and a prefix of all that was sent exactly if no longer payload stands among the first as many sent; an in-order selection of what was sent it is always |
| Connection.Isolation | internal/tunnel/stream.go:153-159 | every payload queued or consumed on a stream was sent by SendData for that same open, even after the sender's CloseStream, and is of at most 1 MiB |
| Connection.LongPayloadIsLost | internal/tunnel/conn.go:38-68 | a run in which nothing fails and nobody closes: for every payload above 1 MiB and below 4 GiB, sent successfully before a short one, the other end receives the short one only |
| Connection.RefusedOpenNeverArrives | internal/tunnel/conn.go:38-68 | in every run, a stream whose Open was sent successfully but is too long for a frame is never known at the other end |
| Connection.QueueBound | internal/tunnel/stream.go:48 | DataCh never holds more than 64 payloads |
| Connection.NoOrphans | internal/tunnel/stream.go:77-97 | a stream that a caller or handler holds and nobody has begun to shut is in the table |
| Connection.DoneClosedOnce | internal/tunnel/stream.go:53-57 | Done is closed at most once; the flag is set exactly if Done is closed or its winner is about to close it |
| Connection.CloseAllShutsEverything | internal/tunnel/stream.go:190-197 | when CloseAll ends, every stream handed out so far is shut, its Done closed or about to be |
| Connection.RemovedForGood | internal/tunnel/stream.go:126-133 | a stream once removed stays removed for the rest of the run |
| Connection.BlockedReaderReleased | internal/tunnel/stream.go:121-124 | with the table lock free and the stream not yet shut, a local CloseStream can run to the closing of Done, which releases a reader blocked on the full queue |
| Connection.CloseAllNeverWaits | internal/tunnel/stream.go:190-197 | a CloseAll that holds the lock always has a next step of its own |
| Connection.TableAgreement | internal/tunnel/stream.go:77-173 | while nothing has failed and every Open fitted, a stream in one table only is explained by an Open still to be sent or in flight, or a Close to be sent, in flight or being handled |
| Connection.QuietTablesAgree | internal/tunnel/stream.go:77-173 | while nothing has failed and every Open fitted, with no frame in flight and no call half done both tables are the same |
| Connection.OpenKeepsEntry | internal/tunnel/stream.go:79-82 | one more open keeps an open stream's table entry exactly if the two are not a multiple of 2^31 opens apart |
| Connection.OpenDoneMayBeOrphaned | internal/tunnel/stream.go:54-55 | a run in which a held stream with open Done is not in the table |
| Connection.OpenDoneOrphanedOnlyInWindow | internal/tunnel/stream.go:54-55 | a held stream with open Done is in the table unless the goroutine that shut it is about to close Done |
| Closing.BlockedReaderAlwaysReleased | internal/tunnel/stream.go:114-133 | in every reachable state, whatever CloseStream and CloseAll calls are in progress, at most four closing steps of its own end, with a CloseStream by any goroutine not yet closing the stream if one must be started, let a reader that holds a payload go on |
| Closing.BlockedReaderNeverStuck | internal/tunnel/stream.go:114-133 | such a goroutine always exists: in every reachable state four closing steps at most release a reader that holds a payload |
| Closing.CloseStreamOrphansInWindow | internal/tunnel/stream.go:161-167 | a CloseStream called now removes the stream while Done is open, leaving it held, open and out of the table, exactly if another closer is about to close Done |
| Closing.RemovalOrphansInWindow | internal/tunnel/stream.go:199-203 | whoever removes it, a held stream leaves the table with Done open exactly if its closer was still about to close it |
| Closing.CloseAllEnds | internal/tunnel/stream.go:190-197 | while a CloseAll holds the lock it takes at most three steps for every stream in the table, and one, whatever else goes on |
| Closing.SweepStepWorks | internal/tunnel/stream.go:192-195 | each of those steps leaves less to do, and each deletion shrinks the table |
| Closing.LockKeepsTable | internal/tunnel/stream.go:190-197 | nobody else changes the table or the lock while a CloseAll holds it |
| MuxSteps.OpenStreamSteps | internal/tunnel/stream.go:77-97 | OpenStream alone is the steps register, send Open, and remove if sending failed |
| MuxSteps.CloseStreamSteps | internal/tunnel/stream.go:161-173 | CloseStream alone is the steps look up, compare-and-swap, close Done, remove, send Close |
| MuxSteps.CloseFrames | internal/tunnel/stream.go:168-171 | those steps send a Close exactly if there was an entry and sending succeeds |
| MuxSteps.DataFrameSteps | internal/tunnel/stream.go:114-124 | handling a Data frame alone is taking it and then queueing, discarding or waiting |
| MuxSteps.CloseFrameHandled | internal/tunnel/stream.go:126-133 | handling a Close frame alone is the reader's steps compare-and-swap, close Done, remove |
| MuxSteps.CloseAllSteps | internal/tunnel/stream.go:190-197 | in every order in which the loop can visit the entries, CloseAll alone is the steps lock, then visit, shut and delete each entry, then unlock |
| Mux.Stream.Close | internal/tunnel/stream.go:53-57 | closes Done exactly if the flag was clear, and sets it |
| Mux.Mux.OpenStream | internal/tunnel/stream.go:77-97 | takes the model through OpenStream: new stream under the next id entered first, then the Open sent, or the entry removed again if sending fails; what arrives at the peer's decoder is what the atomic steps send |
| Mux.Mux.SendData | internal/tunnel/stream.go:153-159 | sends one Data frame with any id and payload and reports whether that failed; on a stream that the caller holds this is the step of that stream, and the frame arrives exactly if it fits |
| Mux.Mux.CloseStream | internal/tunnel/stream.go:161-173 | for any id, even or odd: if it has a stream, shuts it, then removes it, and only then sends Close, in this order; without one nothing happens; what arrives is what the atomic steps send |
| Mux.Mux.HandleOpen | internal/tunnel/stream.go:101-112 | for any id: a malformed payload is an error and changes nothing; otherwise a new stream is registered under it |
| Mux.Mux.Deliver | internal/tunnel/stream.go:121-124 | queues only if there is room, drops only if Done is closed, waits only if neither; if both can go, either may |
| Mux.Mux.HandleData | internal/tunnel/stream.go:114-124 | for any id: ignored without an entry; otherwise queued if there is room, dropped if Done is closed, waiting if neither, and finished unless it waits |
| Mux.Mux.HandleClose | internal/tunnel/stream.go:126-133 | for any id: shuts and then removes the stream of that id if there is one |
| Mux.Mux.HandleFrame | internal/tunnel/stream.go:99-151 | for any frame: dispatch by type; a ping is answered with a pong of the same id, and a failed answer is the error; pongs and unknown types are ignored |
| Mux.Mux.CloseAll | internal/tunnel/stream.go:190-197 | empties the table and shuts every stream in it |
| FrameCodec.FrameRoundTrip | internal/tunnel/frame.go:27-60 | an encoded frame, followed by anything, decodes to itself exactly if its payload is at most 1 MiB |
| FrameCodec.LongFrame | internal/tunnel/frame.go:27-60 | a longer payload is refused exactly if its length modulo 2^32 is above 1 MiB; otherwise it is cut at that remainder and the rest is read as what follows the frame |
| FrameCodec.MessageOfOne | internal/tunnel/conn.go:38-67 | a message of one frame below 4 GiB gives the receiver that frame if it fits and nothing otherwise, which is the rule for what a send puts on the wire |
| FrameCodec.TruncatedFrame | internal/tunnel/frame.go:36-60 | any proper beginning of a legal frame is refused: end of input for nothing or a bare header, unexpected end otherwise |
| FrameCodec.MessageRoundTrip | internal/tunnel/conn.go:56-67 | decoding the concatenated encodings of frames of legal size gives the frames back |
| FrameCodec.DecodedReencodes | internal/tunnel/frame.go:36-60 | a decoded frame re-encodes to exactly the bytes that were read |
| FrameCodec.MessagePrefix | internal/tunnel/conn.go:56-67 | for any message the decoded frames re-encode to an exact prefix, and decoding stops only at the end, at a truncated frame or at an oversize length, at nine bytes or more a frame |
| FrameCodec.EncodeLayout | internal/tunnel/frame.go:27-34 | where type, id, length and payload stand in the encoding, id and length in network byte order |
| FrameCodec.PutUint32 | internal/tunnel/frame.go:29-31 | writes four big-endian bytes in place and nothing else |
| FrameCodec.EncodeFrame | internal/tunnel/frame.go:27-34 | fills the buffer with the frame's encoding |
| FrameCodec.Reader.ReadFull | internal/tunnel/frame.go:36-40 | all n bytes, or an error and an exhausted reader: EOF if nothing was left, unexpected EOF otherwise |
| FrameCodec.DecodeFrame | internal/tunnel/frame.go:36-60 | the code of the decoder, against the decoding function, errors and reader position included |
| FrameCodec.DecodeMessage | internal/tunnel/conn.go:56-67 | the loop over a message yields exactly the frames of the decoding function |
| Ports.ConfigFor | internal/config/config.go:233-253 | a range with 1 <= start < end <= 65535 is kept as it is; for any other TCP tunnelling is disabled |
| Ports.LowestFreeIsLowest | internal/server/server.go:86-97 | the linear scan finds the lowest port nobody holds, and fails exactly if all are held |
| Ports.Pigeonhole | internal/server/server.go:73-102 | there are never more listeners than ports, and as many exactly if every port is held |
| Ports.AllocateCorrect | internal/server/server.go:73-102 | for any listeners and route: the port is start + hash modulo the number of ports unless another route holds that one; then it is the lowest port nobody holds, and none exactly if every port is held |
| Ports.AllocateFree | internal/server/server.go:73-102 | when every listener has a port of its own, a route without one gets a free usable port exactly if there are fewer listeners than ports |
| Ports.StartAllKeeps | internal/server/tcp_proxy.go:36-58 | starting listeners in any order, any binds failing, keeps the existing ones and keeps ports usable and distinct |
| Ports.StartAllBinds | internal/server/tcp_proxy.go:36-58 | in any order: a listener is entered only on a port that could be bound for its route, and a route is left without one only if it met no free port or a bind failed for it |
| Ports.ReconcileCorrect | internal/server/tcp_proxy.go:12-59 | for every iteration order: listeners only for wanted routes, survivors keep their port, ports distinct; a new listener's port could be bound, and a wanted route has none only if all ports are held or a bind failed for it; min(wanted routes, ports) listeners if every bind succeeds |
| Registry.OwnersAfter | internal/server/server.go:180-231 | after any step a route's owner is the old one, or a syncing machine that took it from nobody |
| Registry.RouteSyncRegisters | internal/server/server.go:198-216 | a route sync leaves the connection with exactly the routes sent whose names no other machine owned, in order and with repetitions, and changes no other connection, no client and no listener |
| Registry.SyncedRoutesAreOwned | internal/server/server.go:198-216 | after a sync of a machine's current connection the machine owns a route exactly if it was sent and no other machine owned it |
| Registry.ConnectStartsEmpty | internal/server/server.go:180-193 | a new connection becomes its machine's current one and lists no route, whatever the replaced one listed; other machines' routes and the listeners stay |
| Registry.DisconnectUnregisters | internal/server/server.go:227-231 | a disconnect takes the machine off the register exactly if the connection is its current one, and changes nothing else there |
| Registry.RoutesChangeBySync | internal/server/server.go:198-216 | the routes of a connection change by its own route syncs only |
| Registry.OwnershipNeverStolen | internal/server/server.go:205-215 | no step passes a route from one machine to another |
| Registry.FreeBetweenOwners | internal/server/server.go:180-231 | in every run, between two different owners of a route there is a state in which it has none |
| Registry.ChangeIsOwed | internal/server/server.go:180-232 | a step that changes the wanted TCP routes leaves some handler owing a listener sync, the replaced one after a reconnect |
| Registry.SyncReconciles | internal/server/tcp_proxy.go:12-59 | a listener sync leaves the register as it is and brings the listeners in line with it: a new listener's port could be bound, and a listed TCP route has none only if all ports are held or a bind failed for it |
| Registry.InvStep | internal/server/server.go:180-232 | every critical section of every handler keeps the registry's invariant |
| Registry.RunInvariant | internal/server/server.go:152-233 | in every reachable state: exclusive owners, distinct usable ports, and listeners reconciled unless a handler owes a sync |
| Registry.ListenersReconciled | internal/server/tcp_proxy.go:12-33 | in every reachable state where no handler owes a sync, every listener serves a route of type tcp of a registered client, and if the last sync could bind all its ports every such route has a listener unless all ports are held |
| Registry.WantedAreListed | internal/server/tcp_proxy.go:16-23 | a name is wanted exactly if a registered client lists a route of that name and of type tcp |
| Registry.OwedSyncsCanBePaid | internal/server/server.go:198-233 | from every reachable state the handlers that owe a sync can pay it by steps of their own, at most three for each connection, whatever binds fail; then every listener serves a registered route, and if something was owed and all binds succeed there are min(wanted routes, ports) listeners |
| Registry.ExclusiveOwnership | internal/server/server.go:253-262 | in every reachable state findOwnerLocked has one possible answer, whatever the map order |
| Registry.NoSharedRoute | internal/server/server.go:205-215 | in every reachable state no two registered clients list the same route name |
| Registry.StaleHandlerIsHarmless | internal/server/server.go:198-232 | a late sync or disconnect of a replaced connection changes no live entry, no route and no listener |
| Registry.AcceptIsDetermined | internal/server/server.go:206-213 | which routes a sync accepts does not depend on the order of the owner searches |
| Registry.ResendIsIdempotent | internal/server/server.go:198-222 | sending the same routes again, nothing else intervening, changes nothing |
| Registry.SurvivorKeepsPort | internal/server/tcp_proxy.go:25-39 | a listener that survives a step keeps its port |
| Server.RouteAnswerUnique | internal/server/server.go:237-249 | with exclusive owners findRoute's route, machine and connection do not depend on the map order |
| Server.FoundAfterSync | internal/server/server.go:198-249 | after a sync of a machine's current connection findRoute can answer, for each route sent that no other machine owned, only that machine, that connection and the first route it sent of that name |
| Server.Server.AllocatePort | internal/server/server.go:73-102 | the code of the allocator, nested scans over the listener map in any order, against the allocation function |
| Server.Server.Taken | internal/server/server.go:87-93 | whether any listener holds the port, whatever the map order |
| Server.Server.ScanForFree | internal/server/server.go:86-98 | the inner scan returns the lowest free port or an error |
| Server.Server.FindOwnerLocked | internal/server/server.go:253-262 | returns a machine that lists the route, or the empty name if none does |
| Server.Server.FindRoute | internal/server/server.go:237-249 | returns an entry that has that name, none before it in its client's list having it, with that client's machine and connection, or nothing if no client lists it |
| Server.Server.CloseReplaced | internal/server/server.go:181-184 | the connection that a machine already has is closed, and no other |
| Server.Server.Connect | internal/server/server.go:180-193 | registers the new connection, open, replacing and closing the machine's old one and no other |
| Server.Server.AcceptRoutes | internal/server/server.go:206-213 | keeps the routes, in order, that no other machine owns |
| Server.Server.RouteSync | internal/server/server.go:198-216 | sets this handler's own entry, in any reachable state, to exactly the routes sent whose names no other machine owns, in order |
| Server.Server.Disconnect | internal/server/server.go:227-231 | removes the machine's entry only if it is still this connection's |
| Server.Server.WantedRoutes | internal/server/tcp_proxy.go:16-23 | collects exactly the names of the registered clients' TCP routes |
| Server.Server.StopListeners | internal/server/tcp_proxy.go:25-33 | removes exactly the listeners of unwanted routes, deleting while ranging |
| Server.Server.StartListeners | internal/server/tcp_proxy.go:35-58 | visits every wanted route once, in some order, entering a listener only if its port could be bound, and leaving a route without one only if no port was free or a bind failed for it |
| Server.Server.SyncTCPListeners | internal/server/tcp_proxy.go:12-59 | the whole sync is the registry's sync step for some order |
| Ring.SnapshotAt | internal/server/metrics.go:212-217 | the copy's position i is the ring's bucket head + 1 + i modulo 60 |
| Ring.ResetLikeAdvance | internal/server/metrics.go:147-158 | the reset for sixty minutes or more gives the same sixty values as running the advance loop that many times |
| Ring.RecordAgrees | internal/server/metrics.go:138-165 | one sample, at any clock reading, keeps the ring in agreement with the event log |
| Ring.RingRefinesLog | internal/server/metrics.go:138-165 | after any samples, clock readings in any order, snapshot slot 59 - k is the sum of the events credited to minute cur - k |
| Ring.CreditedEvents | internal/server/metrics.go:162-164 | what the log credits to a minute is exactly the events recorded while that minute was current |
| Ring.CurrentMinuteIsRunningMax | internal/server/metrics.go:145-161 | within an epoch the current minute is the running maximum of the whole minutes since its start |
| Ring.SlotsFollowClock | internal/server/metrics.go:138-165 | within an epoch, clock readings in any order, snapshot slot 59 - k is the sum of the events that came while the latest minute on the clock was k minutes before the latest now |
| Ring.EpochRestarts | internal/server/metrics.go:145-153 | a sample that comes sixty minutes or more after those before starts a new epoch: from then on the ring is one made at that moment with the samples from this one on |
| Ring.SlotsAfterGap | internal/server/metrics.go:138-165 | so after such a gap slot 59 - k follows the clock from the sample that ended it |
| LatencyMax.InvStep | internal/server/metrics.go:120-136 | every atomic step of any call keeps the invariant, and the maximum never falls |
| LatencyMax.RunInvariant | internal/server/metrics.go:120-136 | in every run the maximum is 0 or a submitted duration and dominates every returned call; count and sum are those of the calls that got so far |
| LatencyMax.MaxIsMonotone | internal/server/metrics.go:127-135 | over any run the maximum only rises |
| LatencyMax.QuiescentIsExact | internal/server/metrics.go:120-136 | with no call in flight the maximum is the greatest positive duration, count and sum are exact, and sum <= count * maximum |
| LatencyMax.ExactOverDurations | internal/server/metrics.go:120-136 | in terms of the durations submitted: with no call in flight the maximum is the greatest, or 0 if none is positive, and count and sum are those of the positive ones |
| LatencyMax.FailedSwapMeansRaise | internal/server/metrics.go:128-134 | if the maximum is not what a call loaded, another call raised it since |
| LatencyMax.StepsDecrease | internal/server/metrics.go:127-135 | every step of any call lowers one measure, whoever is scheduled |
| LatencyMax.LockFree | internal/server/metrics.go:127-135 | u calls in flight return within u * (u + 3) steps under every schedule |
| MetricsRun.RoutesInvStep | internal/server/metrics.go:53-73 | every step keeps one object per route, and callers hold the object of their own route |
| MetricsRun.CountersInvStep | internal/server/metrics.go:76-118 | every step keeps each counter equal to what callers have added to it |
| MetricsRun.ReadersInvStep | internal/server/metrics.go:212-227 | every step keeps the buckets a snapshot has copied covered by the counters, loaded or still to be loaded |
| MetricsRun.InvStep | internal/server/metrics.go:53-113 | every step of lookups, counter additions, ring samples and snapshots keeps the invariant |
| MetricsRun.RunInvariant | internal/server/metrics.go:53-233 | the invariant holds in every state of every run |
| MetricsRun.SnapshotConsistent | internal/server/metrics.go:202-233 | the sixty buckets of a finished snapshot add up to no more than its Requests, BytesIn and BytesOut, whatever runs in between |
| MetricsRun.InstalledForGood | internal/server/metrics.go:53-73 | the object installed for a route is never replaced |
| MetricsRun.NothingIsLost | internal/server/metrics.go:53-73 | callers that miss a route at once share one object, and each counter is the sum of all that the route's callers have added |
| MetricsRun.QuietCountersExact | internal/server/metrics.go:76-118 | once every call has returned, the counters are exact; open connections are opens less closes |
| MetricsRun.SampleIsAmount | internal/server/metrics.go:76-118 | the sample of a call holds its full bytes in, bytes out and requests, and there is none exactly if all three are zero |
| MetricsRun.WritersAreCalls | internal/server/metrics.go:76-118 | in every run the callers are the calls begun so far, each with its route and traffic |
| MetricsRun.TotalRecord | internal/server/metrics.go:138-165 | a sample raises the ring's total by at most its own amount |
| MetricsRun.RingBelowCounter | internal/server/metrics.go:90-113 | wherever the invariant holds, the ring's total is at most the counter, as callers add to the counter first |
| RingRuns.RingIsReplay | internal/server/metrics.go:138-165 | in every run, under any interleaving, the ring of an object is a new ring of the moment it was made with its callers' samples recorded one after the other |
| RingRuns.SamplesAreReturned | internal/server/metrics.go:76-113 | no sample is lost or recorded twice: what went into a ring is, for bytes in, bytes out and requests, the sum of the full amounts of the calls that returned from its object |
| RingRuns.RecordedAmount | internal/server/metrics.go:76-113 | the event that a call records has its full bytes in, bytes out and requests, and its clock reading |
| RingRuns.ConcurrentSnapshot | internal/server/metrics.go:202-233 | a snapshot taken while callers record copies the ring of one moment: slot 59 - k is the sum of the samples recorded by then that were credited to minute cur - k, and within an epoch of those that came while the latest minute on the clock was k before the latest |
| RingRuns.MergedIsSum | internal/server/metrics.go:162-164 | a bucket's bytes in, bytes out and requests are the sums of those of its samples |
| RingRuns.CounterOfSnapshot | internal/server/metrics.go:219-232 | each counter of a snapshot taken while callers record is exactly that counter of its route at a moment after the buckets were copied |
| RouteMetrics.AloneIsServed | internal/server/metrics.go:53-118 | the atomic steps of a call that nobody interrupts, with a clock reading for a new ring and one for the sample, add up to what the code below does to counters and ring |
| RouteMetrics.ServedAdds | internal/server/metrics.go:53-118 | what a call leaves: every counter of its route raised by the full amount, one sample of the full amounts in the ring unless they are nothing, other routes untouched, and nothing at all for a byte count of zero or less |
| RouteMetrics.LatencyAlone | internal/server/metrics.go:120-136 | a latency call that nobody interrupts returns after at most four steps, having done what the code below does |
| RouteMetrics.RequestAlone | internal/server/metrics.go:76-81 | an HTTP request that nobody interrupts does to counters, ring and latency what the code below does |
| RouteMetrics.Metrics.RecordLatency | internal/server/metrics.go:120-136 | the retry loop: nothing for durations of zero or less, else count, sum and maximum |
| RouteMetrics.Metrics.ClearBuckets | internal/server/metrics.go:148-150 | the reset loop empties all sixty buckets |
| RouteMetrics.Metrics.AdvanceHead | internal/server/metrics.go:155-158 | the advance loop moves the head on n times, emptying each bucket it comes to |
| RouteMetrics.Metrics.TurnTo | internal/server/metrics.go:142-161 | the array after turning the ring to the current minute |
| RouteMetrics.Metrics.RecordSample | internal/server/metrics.go:138-165 | the array after recording a sample |
| RouteMetrics.Metrics.CopyBuckets | internal/server/metrics.go:213-217 | the copy loop returns the buckets oldest first |
| RouteMetrics.Metrics.Snapshot | internal/server/metrics.go:202-233 | the snapshot's values are the counters, the latency and the buckets |
| RouteMetrics.Registry.Get | internal/server/metrics.go:53-73 | returns the route's metrics, installing new ones only if there are none |
| RouteMetrics.Registry.RecordHTTPRequest | internal/server/metrics.go:76-81 | one request, its latency and its sample, for this route only |
| RouteMetrics.Registry.RecordBytesIn | internal/server/metrics.go:85-92 | ignored for zero or less; otherwise counter and sample of this route only, and no latency |
| RouteMetrics.Registry.RecordBytesOut | internal/server/metrics.go:96-103 | the same for the other direction |
| RouteMetrics.Registry.OpenConn | internal/server/metrics.go:107-113 | one more open connection, connection and request, and a sample, for this route only, and no latency |
| RouteMetrics.Registry.CloseConn | internal/server/metrics.go:115-118 | one open connection less, for this route only, and neither sample nor latency |
| Base64Url.RoundTrip | internal/server/session_auth.go:32-33 | encoded bytes decode to themselves |
| Base64Url.SymbolsInAlphabet | internal/server/session_auth.go:32-33 | an encoding is made of letters, digits, `-` and `_` only, so a dot can separate two |
| Base64Url.EncodedByDigits | internal/server/session_auth.go:32-33 | three bytes give the four base-64 digits of their 24-bit number, and a last one or two bytes two or three of them, filled up with zero bits |
| Base64Url.ReencodesWhenCanonical | internal/server/session_auth.go:44-51 | an accepted text is the encoding of its bytes exactly if it has no line breaks and clear spare bits |
| Decimal.RoundTrip | internal/server/session_auth.go:63 | a formatted 64-bit number parses to itself and is made of digits and `-` |
| Decimal.FormatByPlaces | internal/server/session_auth.go:28 | the text is the decimal digits by place, without leading zeros, after a minus sign if negative |
| Decimal.ParsesOnlyDigits | internal/server/session_auth.go:63-66 | what parses contains digits and a sign only |
| Session.RoundTrip | internal/server/session_auth.go:27-71 | for every user, expiry and secret, the signed cookie verifies to its user exactly if the name has no separator and the expiry is ahead, else to nothing |
| Session.SignedCookieVerifies | internal/server/session_auth.go:27-71 | the same under any secret: it verifies only if both secrets give the payload the same code |
| Session.AcceptedExactly | internal/server/session_auth.go:38-71 | any text is accepted for a user exactly if its first dot separates a payload naming that user, with a later expiry, from the payload's code |
| Session.UserWithSeparator | internal/server/session_auth.go:58-66 | a payload for a user with a separator is cut at it and refused, the rest not being a number |
| Redirect.SafeRedirectIsLocal | internal/server/session_auth.go:75-80 | the result always starts with one slash, not two; such values and no others are left alone, and any other becomes the root; checking twice is checking once |
| Redirect.SafeRedirectLeavesHost | internal/server/session_auth.go:75-80 | a browser, which removes tabs and line breaks and takes a backslash for a slash, leaves this host with the result exactly if the value was accepted and the first other byte after its slash is a slash or a backslash |
| Redirect.BackslashPasses | internal/server/session_auth.go:75-80 | a slash, a backslash and any name pass the check unchanged and lead away |
| Redirect.SafeRedirectURLValue | internal/server/session_auth.go:138-152 | the encoder's loop writes the percent-encoding of the checked path |
| Redirect.NibblesRoundTrip | internal/server/session_auth.go:154-159 | two hexadecimal digits written for a byte read back as that byte |
| Redirect.ValueRoundTrip | internal/server/session_auth.go:138-152 | for every byte string, decoding the encoder's output gives the checked path |
| Redirect.EscapedPiecewise | internal/server/session_auth.go:140-151 | byte by byte, letters, digits and `/ - _ . ~` stand for themselves and any other byte becomes a percent sign and two lower-case hexadecimal digits |
| Redirect.HtmlEscapedBytes | internal/server/session_auth.go:128-133 | escaped HTML text has no quotes and no angle brackets |
| Redirect.EscapedBytes | internal/server/session_auth.go:144-148 | the output consists of unreserved bytes, slashes and percent signs |
| Login.TargetCarriesRedirect | internal/server/session_auth.go:187-193 | a login target leads to the login page, and the query parser reads the checked redirect from it |
| Login.ActionUnchangedByHtml | internal/server/session_auth.go:128-133 | HTML escaping leaves the form's action as it is |
| Login.SignedInExactly | internal/server/session_auth.go:192-217 | a request signs in exactly if it posts to the login path a form that parses and whose user and non-empty password are the first entry for that user; every other post there is answered with the login page |
| Login.PasswordOfFirstEntry | internal/tunnel/auth.go:51-62 | the password compared with is that of the first entry for the user, or nothing |
| Login.AnswersByPath | internal/server/session_auth.go:165-203 | the login page for a GET, refusal of other verbs there, sign-out on the logout path; any other page is forwarded exactly if the cookie is signed and names a user with a later expiry, and otherwise leads to the login page with the page asked for |
| Login.LoginAnswers | internal/server/session_auth.go:192-217 | visiting a login target shows a page with that same target as its action, or signs in and leads to the checked redirect, or refuses the method |
| Login.RedirectSurvivesLogin | internal/server/session_auth.go:165-217 | from the answer to the first request on, after any number of login pages answered in vain, the next answer is that page again or redirects to the checked URI of the first request |
| Login.LocationIsLocal | internal/server/session_auth.go:192-217 | whatever query a login request carries, signing in leads to a location with one leading slash, not two |
| Login.LocationStaysUnless | internal/server/session_auth.go:192-217 | a browser that is given this location leaves this host exactly if the query's value was accepted and has, tabs and line breaks aside, a slash or a backslash after its first slash |
| Login.BackslashLeavesHost | internal/server/session_auth.go:187-217 | a login target whose redirect begins with slash, backslash leads, when the sign-in succeeds, to another host |
| Login.SessionLasts | internal/server/session_auth.go:165-217 | the cookie set at sign-in opens every other page until 24 hours later exactly if the user name is not empty and has no separator; otherwise the browser is sent to the login page |

## Left out

- Sockets, WebSocket upgrade and framing, HTTP parsing, the reverse proxy and the TCP pumps' I/O: a connection is two FIFO frame queues that may fail, `net.Listen` any success or failure per route and port, and the consumer is the step that takes a payload from DataCh.
- JSON, YAML and file watching: route lists arrive decoded, and the Open payload goes through an arbitrary pair of functions.
- Behaviour across a reconnect and two sides opening streams on one connection: the code promises nothing there, as ids would collide.
- Conn.Close: its check-then-close of `done` is not claimed to happen at most once under interleaving, because the code does not provide it.
- Connection.Isolation: payloads of 4 GiB and more are outside the connection's model, because the decoder may read their tail as frames of any stream (`FrameCodec.LongFrame`), and the property fails there.
- Connection.ByteConservation: the same bound of 4 GiB on a payload, for the same reason.
- Connection.Delivery: the same bound of 4 GiB on a payload, for the same reason.
- Several frames in one message: Conn.sendFrame puts one frame into each, so the connection's wires carry frames; `FrameCodec.DecodeMessage` covers longer messages. A route sync above 1 MiB, lost the same way, is not modelled.
- Failed sends: a send that fails delivers nothing and returns an error; later sends may still succeed in the model, which allows more runs than a broken socket does.
- FNV-1a: any function from route names to unsigned numbers, because no property depends on which.
- Splitting the text of the port range: only the numeric checks on the two parsed ends are modelled.
- The accept loops, contexts and cancellation of listeners: a listener is its entry in the map.
- Logging, health page, dashboard, admin panel, command line and installer: user interface and glue.
- Counters are unbounded: the wrap-around of 64-bit counters and the saturation of `time.Time.Sub` at about 292 years are not modelled.
- Snapshot order and average latency: sorting the list of snapshots is a library call, and the average is meaningful only when no call is in flight, which `LatencyMax.QuiescentIsExact` covers.
- HMAC-SHA256, constant-time comparison and random secrets: the code is any function of secret and payload, comparison is equality.
- Cookie headers, `stripSessionCookie`, and the path cleaning that `http.Redirect` applies to the location it is given: library behaviour; `Login.RedirectSurvivesLogin`, `Login.LocationIsLocal` and `Login.LocationStaysUnless` are about the value handed to `http.Redirect`. Its removal of dot segments can uncover a slash and a backslash further on, and the header writer turns line breaks into spaces.
- The class methods run without interference: `Mux`, `Server` and `RouteMetrics` are proved one call at a time, and interleavings are the subject of `Connection`, `Registry`, `LatencyMax` and `MetricsRun`.
- Route add, find and remove, the other authentication schemes, subdomain extraction and the reconnect backoff: functions of one branch each and without state, so they are not modelled.
