# Verification of the FastCGI server interface library

This project models the I/O-free cores of a C++ FastCGI library for multithreaded
application servers and proves what its comments promise. The protocol is version
1.0 of the FastCGI specification: sections 3.3 (records), 3.4 (name-value pairs),
4.1 and 4.2 (management records), 5 (application records) and 6 (roles).
`dafny verify dfyconfig.toml` checks everything.

## The parts

**Interface and requests (`InterfaceMaps`, `Lock*`, `ServerInterface`).** One
interface thread and any number of `FcgiRequest` threads share maps, a closure set, one
interface mutex and one write mutex per connection. `LockProtocol` is a labelled step
system: program counters, mutex owners, a table of open descriptors, and for each
write a nondeterministic outcome. A step ends wherever a mutex changes hands.
Uses that would be undefined behaviour or that the source reports as logic errors
(a destroyed mutex, a foreign descriptor, a missing entry) are collected in a set of
faults, and the theorems say that the set stays empty. `LockInvariant` holds the
inductive invariant; `LockRequestProofs`, `LockInterfaceFrame`, `LockInterfaceProofs`
and `LockCleanupProofs` show that every step keeps it; `LockTheorems` and
`LockDiscipline` derive the safety theorems, `LockRecords` what a client receives in
terms of records, and `LockRuns` runs that show where conditions are needed.
`LockDuties` has a second invariant, which says what must happen: closures that were
asked for, spoiled connections, aborts. `LockHistory`, `LockDelivery` and `LockCleanups`
say what the steps of a run add up to: the answers of AbortStatus, the batches and
replies that are sent, and a whole cleanup.
`ServerInterface` has the methods that update the maps in loops, proved against the
operations of the step system.

**Record reader (`RequestStreams`, `RecordHandling`, `RecordReading`, `RecordHistory`,
`RecordEffects`, `RecordReader`, `ReadingSimulation`, `LockMoves`, `LifeSimulation`).**
`RecordReader.RecordStatus` is the object that reads a connection, with its cached lookup. It is proved equal to a reader without a
cache, which does not depend on how the stream was cut into buffers. `RecordHistory`
follows that reader over all its calls, which may end anywhere, also within a record,
and between which requests are assigned and leave: over the whole life of a connection
the records handled are those which the headers delimit, and for every interleaving
what becomes of a request follows from its own records alone. `RecordEffects` says what
the bytes of a record do, with the numbers of the specification. `ReadingSimulation`
connects the reader to the lock protocol: every update of the shared maps is a run of
its reading steps; with `LockMoves`, which puts together the steps of a reply and of the
destruction of a request, `LifeSimulation` does so for the whole life of a connection.

**Encoders and decoders (`FcgiRecords`, `NameValuePairs`, `NameValueWork`,
`NameValueEncoder`, `NameValueBatches`, `GatherLists`, `BytePartition`,
`ContentExtractor`, `RequestParameters`).** `FcgiRecords.Frame` says what the framing of a
byte string is; both `EncodeNameValuePairs` and `PartitionByteSequence` are proved to
produce it, and a record parser and the independent decoder `ExtractContent` are
proved to undo it.

**Ids (`IdIntervals`, `IdManager.dfy`)** and **gather-writes (`GatherWrite`).**

## What the code does where its comments say or suggest something else

- Two uses of `std::lock_guard<std::mutex> {*write_mutex_ptr_};`
  (fcgi/src/fcgi_request.cc:488 and fcgi/src/fcgi_request.cc:671) declare an unnamed
  temporary, so the write mutex is acquired and released before the insertion that
  follows. The model does the same. Since the interface mutex is still held, the
  insertion is safe and the theorems hold.
- A failing `try_lock` in the connection cleanup is described as an error that should not
  happen. It can: closure requests made while reading
  (fcgi/src/record_status.cc:276, 406, 532) take no write mutex.
  `LockDiscipline.TryLockCanFail` gives a run, and
  `LockDiscipline.TryLockFailsExactlyDuringAWrite` says exactly when it happens.
- The identity test of a request compares identifiers that wrap after 2^64 - 1
  interfaces. `LockRequestProofs.IdentityTest` gives the exact condition under which the
  test is right, and `LockRuns.MistakenIdentity` a reachable state in which it is wrong
  and the request would use data that do not exist. Runs with such tests are excluded
  by `FreshRun`, and `LockTheorems.FewInterfaces` shows that no run with at most
  2^64 - 1 interfaces has one.
- Decoding undoes encoding but not the reverse, because the decoder accepts the
  four-byte form of short lengths (`NameValuePairs.EncodeDecodedDiffers`).
  `NameValuePairs.EncodeDecoded` says exactly when the bytes come back: if no length
  below 128 was written in four bytes.
- The decoder adds a position and two lengths in `size_t`. With 32 bits the sum can
  wrap and let ill-formed content pass (`NameValuePairs.WrappedSum`);
  `NameValuePairs.ComparisonIsRight` says for which `SIZE_MAX` it cannot.
- `ReadRecords` keeps an iterator to a request from one record to the next without
  holding the interface mutex. If the request is assigned, a request thread may remove
  it in between, which makes the iterator invalid. `RecordHistory.ExposedByHeaders` says
  exactly for which bytes a call relies on such an iterator: those that complete a
  header naming a request which is assigned when the call starts;
  `RecordReader.AbortedRequestInput` is one. The lock protocol does not count the
  iterator among the users of the map.
- The destructor of a request does not look at the closure set before it takes the
  write mutex (`LockRuns.DestructorRun`); `LockDiscipline.SettledConnectionsAreQuiet`
  states that nobody else does.

## Assumptions

The operating system: `accept` returns a number that is not open; `dup2` keeps its
target open; after EPIPE later writes to the socket fail; a count returned by `read` or
`writev` is at most what was asked for. The program: each `FcgiRequest` object is
used by one thread at a time; allocations succeed. The platform: `IOV_MAX` is at least
16, `SSIZE_MAX` at least 65535 and at most `SIZE_MAX`, and `SIZE_MAX` exceeds the length
of every decoded content by at least 2^32 - 2, as it does with 64 bits. In the reader: no request
thread removes an entry during one call of `ReadRecords`, and sending a reply does not
throw; `RecordReading.BetweenCalls` says what may change between two calls, and
`RecordReader.RemovalAndCache` with `RecordHistory.ExposedByHeaders` in which calls a
removal would do harm.

## Model

| member | source | states |
|---|---|---|
| LockTheorems.StepInv | fcgi/src/fcgi_request.cc:148-203 | every step of any thread keeps the invariant that the comments on the mutex discipline describe |
| LockTheorems.RunInv | fcgi/src/fcgi_server_interface.cc:23-81 | the invariant holds after every run |
| LockTheorems.FewInterfaces | fcgi/src/fcgi_server_interface.cc:300-311 | with at most 2^64 - 1 interfaces no identifier is mistaken, so the theorems need no further condition |
| LockRequestProofs.SameIdentifier | fcgi/src/fcgi_server_interface.cc:300-311 | two interfaces share an identifier iff their numbers differ by a multiple of 2^64 - 1, and no interface has the identifier 0 |
| LockRequestProofs.IdentityTest | fcgi/src/fcgi_request.cc:718-735 | the comparison of identifiers tells whether the interface of the request still exists iff no wrapped identifier collides |
| LockRequestProofs.RequestStepKept | fcgi/src/fcgi_request.cc:454-1049 | every step of a request, on normal and failure paths, keeps its part of the invariant of request, connection, maps and mutexes; what a request must also bring about is stated by the rows of LockDuties, LockHistory and LockDelivery |
| LockTheorems.NoFaults | fcgi/src/fcgi_server_interface.cc:338-378 | no descriptor of others is closed, no destroyed mutex is used, no mutex is destroyed while held, and the logic errors of the map updates are unreachable |
| LockTheorems.WritersOwnTheirSocket | fcgi/src/fcgi_request.cc:881-920 | inside a write loop the descriptor denotes the writer's own socket, the interface exists and the write mutex is held by that thread |
| LockTheorems.WholeBatchesThenATruncatedOne | fcgi/src/fcgi_request.cc:900-1049 | what a client received is whole batches and at most one proper prefix of a batch; such a prefix is being continued or the connection is marked |
| LockTheorems.NothingAfterATruncatedBatch | fcgi/src/fcgi_server_interface.cc:1396-1431 | once a batch was cut short, no thread ever sends another byte on that connection |
| LockTheorems.FinishedForever | fcgi/src/fcgi_request.cc:900-1049 | a corrupt or broken connection stays so and receives nothing, over every run |
| LockDuties.AbortsAreTrue | fcgi/src/fcgi_request.cc:514-569 | in every reachable state a live request of the existing interface that reports an abort has an entry which the client has marked, and it knows whether its connection is to be closed |
| LockDuties.ClosuresAreServed | fcgi/src/fcgi_request.cc:595-692 | in every reachable good state the connection of a request that asks for closure and has ended normally or was destroyed is in the closure set or no longer active; after an abort the same holds, or a failed write has spoiled the connection and its thread is about to schedule it |
| LockDuties.SpoiledConnectionsAreScheduled | fcgi/src/fcgi_request.cc:768-880 | only a connection with a truncated batch is marked corrupt, and while it is active in a good state it is in the closure set or a thread is on its way to put it there |
| LockDuties.InsertionsWakeTheInterface | fcgi/src/fcgi_request.cc:695-714 | a request that schedules its connection has written to the pipe or leaves a bad state, and the program ends iff the second write to the pipe fails as well |
| LockDuties.DutiesRun | fcgi/src/fcgi_request.cc:454-1049 | what requests and connections owe (a true answer, closure, scheduling) is kept over every run |
| LockHistory.AbortStatusTells | fcgi/src/fcgi_request.cc:514-569 | over every run from the hand-over of a request to the tests of AbortStatus: while its interface is in order and its connection not closed, the answer is true iff an abort record for it was handled in that run; otherwise the answer is true and the request has ended |
| LockHistory.ReportedAbortsHappened | fcgi/src/record_status.cc:226-272 | at any time a live request of the existing interface that reports an abort was aborted by the client since its hand-over |
| LockDelivery.BatchesAreSent | fcgi/src/fcgi_request.cc:718-1049 | over every run since the hand-over, the batches that the thread of a request transferred whole are those it was asked to send, each once and in order, with at most the last missing; between operations none is missing; a request ends by EndRequest with all sent, by destruction with all sent, or aborted for lack of an interface or of a usable connection |
| LockDelivery.RepliesAreSent | fcgi/src/fcgi_server_interface.cc:1373-1457 | over every run, SendRecord transfers its reply whole and once, unless the reply is empty, the connection is spoiled, or the connection was put into the closure set |
| LockCleanups.WholeCleanup | fcgi/src/fcgi_server_interface.cc:657-775 | over every run from the start of a cleanup to its end, with the steps of other threads in between, exactly the dummies without requests and the scheduled connections are closed, each once, and the maps are as the two loops leave them; a cleanup that ends otherwise leaves a bad state |
| LockDiscipline.MutexDiscipline | fcgi/src/fcgi_request.cc:822-916 | who holds a write mutex waits for nothing, holds no second write mutex, and nobody waits for a mutex it holds |
| LockDiscipline.WaitsAreShort | fcgi/src/fcgi_request.cc:595-692 | a chain of waits has at most two links and ends at a thread inside a write |
| LockDiscipline.NoDeadlock | fcgi/src/fcgi_server_interface.cc:1373-1457 | whenever a thread is busy, some busy thread can take the step it is at, without a failure: a write goes on unless the peer closed the socket, and nothing is abandoned in a good state |
| LockDiscipline.DescriptorSets | fcgi/src/fcgi_server_interface.cc:657-775 | outside the cleanup loop the closure set is within the active connections, these have exactly one mutex and one record status, dummies are disjoint from them, and both together have exactly the request counts |
| LockDiscipline.ClosedExactlyOnce | fcgi/src/fcgi_server_interface.cc:1094-1128 | each accepted socket is closed at most once, and exactly once when its interface is gone |
| LockDiscipline.LiveRequestsKeepTheirNumber | fcgi/src/fcgi_server_interface.cc:1105-1129 | while a request is in the map and the destructor of the interface has not closed its descriptor, that number stays open, as its socket or as a dummy, and is not given to a new connection |
| LockDiscipline.FlagsMarkDummies | fcgi/src/fcgi_server_interface.cc:1182-1211 | in a good state a request is flagged as closed iff its descriptor is a dummy, and then it is assigned |
| LockDiscipline.CountsAreExact | fcgi/src/fcgi_server_interface.cc:998-1040 | each request count equals the number of requests of the connection and lies between 0 and the maximum |
| LockDiscipline.RequestsLeaveOnce | fcgi/src/fcgi_request.cc:540-549 | a request leaves the map at most once, and exactly when it is completed or destroyed |
| LockDiscipline.SettledConnectionsAreQuiet | fcgi/src/fcgi_request.cc:737-760 | after a request thread or SendRecord scheduled a connection for closure, no request writes on it or is about to, and only a request in its destructor, which holds the interface mutex, can hold its write mutex |
| LockDiscipline.SettledUntilRemoved | fcgi/src/fcgi_server_interface.cc:1434-1452 | and this lasts until the connection is removed |
| LockDiscipline.TryLockFailsExactlyDuringAWrite | fcgi/src/fcgi_server_interface.cc:1094-1102 | at its cleanup a scheduled connection's mutex is taken iff a request is writing on it, which is never the case for a settled one |
| LockDiscipline.TryLockCanFail | fcgi/src/fcgi_server_interface.cc:763-774 | a reachable state in which the cleanup finds a write mutex held and the interface turns bad |
| LockDiscipline.DeliveredRun | fcgi/src/fcgi_request.cc:918-1049 | a run in which a write delivers its whole batch and the request goes on |
| LockDiscipline.CutShortRun | fcgi/src/fcgi_request.cc:918-1049 | a run in which a time-out cuts a batch short and the connection is marked |
| LockRecords.ReceivedRecords | fcgi/src/fcgi_request.cc:900-1049 | over every run in which all senders send whole records, a client receives the records of whole batches, batch after batch, then the first records of at most one more batch and a part of the next record of that batch |
| LockRuns.DestructorRun | fcgi/src/fcgi_request.cc:454-509 | a run in which the destructor of a request holds the write mutex of a connection that SendRecord has scheduled for closure |
| LockRuns.AbortRun | fcgi/src/fcgi_request.cc:514-569 | a run in which a request is first told that it was not aborted and, after an abort record, that it was |
| LockRuns.MistakenIdentity | fcgi/src/fcgi_request.cc:718-735 | after 2^64 - 1 more interfaces a request takes another interface for its own and would use request data that do not exist |
| LockCleanupProofs.NoOwnerWhenDismantling | fcgi/src/fcgi_server_interface.cc:350-373 | when the members of the interface are destroyed no write mutex is held |
| LockInterfaceProofs.AcceptRecordInv | fcgi/src/fcgi_server_interface.cc:590-639 | recording a new connection meets no old entry under its number and keeps the invariant |
| InterfaceMaps.RemoveRequestOk | fcgi/src/fcgi_server_interface.cc:1153-1178 | removing a present request never fails and keeps all counts exact |
| InterfaceMaps.AddRequestOk | fcgi/src/fcgi_server_interface.cc:998-1040 | an admitted begin-request record adds its request without error |
| InterfaceMaps.RemoveConnectionOk | fcgi/src/fcgi_server_interface.cc:1052-1151 | removal keeps the maps consistent and makes a dummy exactly when the application still holds requests |
| InterfaceMaps.DropDummyOk | fcgi/src/fcgi_server_interface.cc:678-724 | a dummy without requests can be forgotten |
| InterfaceMaps.AddConnectionOk | fcgi/src/fcgi_server_interface.cc:593-612 | a new number without a count joins all three maps consistently |
| ServerInterface.FcgiServerInterface.AddRequest | fcgi/src/fcgi_server_interface.cc:998-1040 | a begin-request record that was accepted and admitted is added without error, the maps stay consistent, the count of its connection is the number of its requests, one more than before, and no other entry or count changes; removing it again restores the maps; a failure changes nothing but the state to bad |
| ServerInterface.FcgiServerInterface.RemoveRequestHelper | fcgi/src/fcgi_server_interface.cc:1153-1178 | in consistent maps removal fails iff the request is missing; they stay consistent, exactly that entry leaves, the count of its connection is the number of the remaining requests and no other changes; a failure changes nothing but the state to bad |
| ServerInterface.AddThenRemove | fcgi/src/fcgi_server_interface.cc:1153-1178 | the removal of a request that was just added restores the maps |
| ServerInterface.FcgiServerInterface.RequestCleanupDuringConnectionClosure | fcgi/src/fcgi_server_interface.cc:1182-1218 | the loop flags exactly the assigned requests of the connection, removes its others, leaves all others, and reports whether any was assigned |
| ServerInterface.FcgiServerInterface.RemoveConnection | fcgi/src/fcgi_server_interface.cc:1086-1151 | the outcome for every result of try_lock, dup2 and close, with consistent maps in each and no missing entry to erase; after a failed close the connection has left the maps, after a failed dup2 it has not |
| ServerInterface.FcgiServerInterface.CleanupDummies | fcgi/src/fcgi_server_interface.cc:678-724 | exactly the dummies without requests are closed, each once; a failing close ends the loop in a bad state, in which what was closed is no longer a dummy; a missing count is unreachable from consistent maps |
| ServerInterface.FcgiServerInterface.CleanupConnections | fcgi/src/fcgi_server_interface.cc:761-774 | if for every scheduled connection the mutex is free and its dup2 or close works, each is closed once and leaves the active maps, otherwise the interface turns bad; in every outcome exactly what was closed, each once, left the active maps |
| RecordReader.LookupFinds | fcgi/src/record_status.cc:887-897 | comparing only request ids, the cached lookup agrees with a search of the whole map |
| RecordReader.RemovalAndCache | fcgi/src/record_status.cc:887-897 | a cached entry survives whatever request threads remove iff it is not assigned; a removal of given entries disturbs the cached lookup iff the cached entry with that id is among them |
| RecordReader.CachedWhileAssigned | fcgi/src/record_status.cc:226-334 | every abort record of an assigned request makes the call rely on a removable entry |
| RecordReader.AbortedRequestInput | fcgi/src/record_status.cc:226-334 | a reader and eight bytes with which it does |
| RecordReader.RecordStatus.UpdateAfterHeaderCompletion | fcgi/src/record_status.cc:818-930 | the fields and the decision of a header, with the cache kept valid; a safe cache stays safe iff the header does not name an assigned request |
| RecordReader.RecordStatus.AddPortion | fcgi/src/record_status.cc:567-765 | bytes reach the header, the local buffer or the stream of the right request; a missing request is unreachable; a safe cache stays safe unless the bytes complete a header that names an assigned request |
| RecordReader.RecordStatus.BeginRequest | fcgi/src/record_status.cc:168-225 | the limit and the overload flag decide between the two rejections and a new request, as in the specified reader, whose new request is described by RecordEffects.BeginRecordRead |
| RecordReader.RecordStatus.AbortRequest | fcgi/src/record_status.cc:226-334 | an assigned request is marked, another removed and answered; a complete one is always found in the list |
| RecordReader.RecordStatus.EndStreamRecord | fcgi/src/record_status.cc:335-421 | the end of a stream completes, lists or refuses its request |
| RecordReader.RecordStatus.ProcessCompleteRecord | fcgi/src/record_status.cc:118-428 | the action for a complete record equals the specified one without a cache |
| RecordReader.RecordStatus.ReadRecords | fcgi/src/record_status.cc:462-805 | for every sequence of buffers the state and the list are those of the concatenated bytes; unless the socket blocked, the connection is scheduled for closure and the list discarded; the call relies on a removable cached entry iff some header that it completes names an assigned request |
| RecordReading.ConsumeAppend | fcgi/src/record_status.cc:557-805 | the outcome does not depend on how the stream was cut into portions |
| RecordReading.ExposesAppend | fcgi/src/record_status.cc:818-930 | nor does it depend on the cutting whether a header names an assigned request |
| RecordReading.EveryCallOk | fcgi/src/fcgi_server_interface.cc:860-945 | over any sequence of calls, with requests assigned and removed in between, the reader stays consistent and no complete request is left over unassigned |
| RecordHandling.HandleKeeps | fcgi/src/record_status.cc:285-318 | every record keeps: unassigned requests are in the list iff all their streams are complete, none is listed twice, none is ready without being complete |
| RecordHandling.HandleOwn | fcgi/src/record_status.cc:118-428 | a record acts on the request with its id alone, as that request and the answer to a begin-request record determine |
| RecordEffects.BeginRecordRead | fcgi/src/record_status.cc:166-223 | the bytes of a begin-request record for an unused id, for every role and every flags byte: if there is room the only change is a new empty request with exactly that role, whose connection is to be closed iff FCGI_KEEP_CONN is unset; otherwise the only change is one refusal with the right status |
| RecordEffects.AbortRecordRead | fcgi/src/record_status.cc:225-318 | the bytes of an abort-request record: an assigned request is marked, an unassigned one leaves the map and the list, and without a request or the second time nothing changes |
| RecordEffects.RecordAnswered | fcgi/src/record_status.cc:118-428 | which replies a record causes: one with the right id and status for each request that ends before its hand-over and for each refused one, one for each management record (values for type 9), and no others; the connection is scheduled for closure iff such a request asked for it |
| RecordEffects.ListedInOrder | fcgi/src/record_status.cc:285-411 | requests are listed in the order in which they become complete: a record appends its own request, takes it out, or leaves the list alone |
| RecordEffects.RequestServed | fcgi/src/record_status.cc:118-428 | from the bytes of a begin-request record on, over any number of calls and among the records of other requests: with the byte that completes the first record after which the rule of its role holds of its own records, a request is listed with their contents if its parameters are well formed, and dropped otherwise; before that it was there and not listed |
| RecordHistory.RecordsRecovered | fcgi/src/record_status.cc:557-805 | over any number of calls, which may end within a record, the records handled are exactly those that the headers delimit in all bytes received, and the rest is the incomplete record |
| RecordHistory.CallsAreALife | fcgi/src/fcgi_server_interface.cc:860-945 | what the reader holds at the start of each call is what the bytes of all calls and the changes between them lead to when taken one by one |
| RecordHistory.Demultiplexed | fcgi/src/record_status.cc:818-930 | over all calls and for every interleaving a request becomes what its own records, its assignment and its departure make of it |
| RecordHistory.RequestOverCalls | fcgi/src/record_status.cc:609-765 | at any point of any call the reader holds of a request what its own complete records made of it, and the content received so far of an accepted record that is incomplete; its records are those with its id in all bytes received |
| RecordHistory.StillThere | fcgi/src/record_status.cc:335-411 | while its role's rule does not hold a request stays in the map through any number of calls, unlisted and unassigned, with the contents of its own records |
| RecordHistory.StillAwaited | fcgi/src/record_status.cc:335-411 | the same with the rule stated by the records received: while the streams that the role needs have not ended the request is there, unlisted, with their contents |
| RecordHistory.RequestAssembled | fcgi/src/record_status.cc:376-411 | from its acceptance on and over any number of calls: with the last byte of the first record after which the rule of its role holds of its own records (role 1: PARAMS and STDIN ended and DATA unused or ended; role 2: PARAMS ended and the others unused or ended; other roles: all ended) a request is listed iff its parameters are well formed; each stream is the content of its records up to the first empty one |
| RecordHistory.ExposedByHeaders | fcgi/src/record_status.cc:887-897 | from any state of a reader, bytes make it rely on a removable entry iff a header among those they complete names a request that is assigned when they arrive |
| RecordHistory.ExposedCall | fcgi/src/record_status.cc:887-897 | the same for each call in the life of a reader, by the bytes of the call and the incomplete record before it |
| ReadingSimulation.HeaderSimulated | fcgi/src/record_status.cc:818-930 | the judgement of a header is a step of the lock protocol, which remembers exactly the accepted begin-request records |
| ReadingSimulation.HandleSimulated | fcgi/src/record_status.cc:118-428 | whatever a record does to the shared maps the lock protocol does in reading steps, none of them a fault, with any reply |
| ReadingSimulation.AssignSimulated | fcgi/src/fcgi_request.cc:270-345 | handing over a listed request is a step of the lock protocol that creates exactly one request |
| LifeSimulation.LifeSimulated | fcgi/src/fcgi_server_interface.cc:860-945 | every life of a connection, with its records, replies, hand-overs and departures of requests over all calls, is a fault-free run of the lock protocol, after which the shared maps show the requests of the reader |
| LifeSimulation.AcceptedMirrors | fcgi/src/fcgi_server_interface.cc:590-639 | a connection without requests and without operations in progress is where such a run can start |
| RequestStreams.CheckCompletion | fcgi/src/request_data.cc:40-78 | for each role number, true iff the records received end the streams that the role needs and end or do not use the others; then all streams are marked complete, otherwise nothing changes |
| RequestStreams.ReadyIsServed | fcgi/src/request_data.cc:40-78 | the test of the flags and buffers agrees with the rule stated by the records received |
| RequestStreams.AppendNeverCompletes | fcgi/src/request_data.cc:40-78 | more bytes never make a request ready, so testing at the end of streams suffices |
| RequestStreams.StreamsAreOwnRecords | fcgi/include/fcgi_server_interface.h:350-395 | the buffers hold the contents of the records of their kind up to the first empty one, in order |
| RequestParameters.ProcessParams | fcgi/src/request_data.cc:80-131 | true iff the stream is empty or decodes to pairs in which equal names have equal values; then the map is exactly that set of pairs, for whatever order the sort produces |
| RequestParameters.BuildEnvironment | fcgi/src/request_data.cc:97-123 | the two-iterator loop on any list sorted by name |
| RequestParameters.OrderAndRepetitionDoNotMatter | fcgi/src/request_data.cc:80-131 | two streams with the same set of pairs are accepted alike and give the same map |
| NameValuePairs.FourBytesRoundTrip | fcgi/include/fcgi_utilities_templates.h:45-81 | a four-byte length decodes to the encoded value modulo 2^31, so to itself iff below 2^31 |
| NameValuePairs.EncodeFourByteLength | fcgi/include/fcgi_utilities_templates.h:45-61 | an error below 128, otherwise the four bytes |
| NameValuePairs.ExtractFourByteLength | fcgi/include/fcgi_utilities_templates.h:63-81 | the value of the low 31 bits |
| NameValuePairs.ExtractBinaryNameValuePairs | fcgi/src/fcgi_utilities.cc:35-111 | the pairs of a well-formed content, and the empty list for an ill-formed one, with sums in size_t |
| NameValuePairs.ComparisonIsRight | fcgi/src/fcgi_utilities.cc:80-88 | the comparison of a sum with the content length is right for all lengths iff SIZE_MAX exceeds the content length by twice the greatest length |
| NameValuePairs.WrappedSum | fcgi/src/fcgi_utilities.cc:80-88 | eight bytes that the comparison lets pass with 32 bits although they do not decode |
| NameValuePairs.DecodeEncodedAs | fcgi/src/fcgi_utilities.cc:54-110 | pairs decode to themselves whichever form each length is written in |
| NameValuePairs.DecodedIsEncoded | fcgi/src/fcgi_utilities.cc:54-110 | what decodes is a concatenation of pairs in one form or the other, and nothing else |
| NameValuePairs.EncodingIsShortest | fcgi/include/fcgi_utilities_templates.h:176-202 | the library's encoding is the shortest of all and the only one of its length |
| NameValuePairs.EncodeDecoded | fcgi/src/fcgi_utilities.cc:54-110 | encoding gives decoded bytes back iff no length below 128 was written in four bytes, and otherwise fewer bytes |
| NameValuePairs.EncodeDecodedDiffers | fcgi/src/fcgi_utilities.cc:61-76 | an input that decodes but is not what the encoder produces |
| FcgiRecords.ParseSerialized | fcgi/src/fcgi_utilities.cc:126-142 | a header delimits exactly the record it was made for |
| FcgiRecords.ParseAppend | fcgi/src/record_status.cc:557-805 | a stream that ends at a record boundary can be parsed on its own |
| FcgiRecords.FrameParses | fcgi/include/fcgi_utilities_templates.h:100-111 | framing yields nonempty records of at most 65528 bytes, each with a total length divisible by eight, as few as possible, whose contents concatenate to the input |
| FcgiRecords.FrameAligned | fcgi/include/fcgi_utilities_templates.h:92-96 | the total length of a framed content is divisible by eight |
| FcgiRecords.FrameLength | fcgi/src/fcgi_utilities.cc:186-195 | the number of bytes of a framed content in closed form |
| NameValueWork.PlaceExtends | fcgi/include/fcgi_utilities_templates.h:278-317 | an iovec placed in the open record, with the header's length bytes overwritten in place, adds exactly its bytes and disturbs no other iovec |
| NameValueWork.FullRecordCloses | fcgi/include/fcgi_utilities_templates.h:330-335 | a record that reached 65528 bytes of content is complete without padding |
| NameValueWork.PadCloses | fcgi/include/fcgi_utilities_templates.h:343-356 | the last record with its padding and padding length completes the framing |
| NameValueEncoder.AppendLengths | fcgi/include/fcgi_utilities_templates.h:176-202 | the lengths of a pair are appended unless one is too great for its format |
| NameValueEncoder.PlaceBuffers | fcgi/include/fcgi_utilities_templates.h:263-335 | bytes of the pair go to the open record until the pair ends, the record is full or a limit is reached, and at least one does |
| NameValueEncoder.PlacePair | fcgi/include/fcgi_utilities_templates.h:234-337 | the records hold what they held and then the placed bytes of the pair; it is incomplete only when no record can be started or a limit was reached |
| NameValueBatches.EncodePairs | fcgi/include/fcgi_utilities_templates.h:161-342 | the loop over pairs stops at the end, at a limit, or at a pair that cannot be represented |
| NameValueBatches.EncodeNameValuePairs | fcgi/include/fcgi_utilities_templates.h:83-372 | the bytes that the iovecs describe are the framing of exactly the encoded bytes between the two positions; byte count, iovec count and record count are right and within limits; a call on a nonempty list that does not fail makes progress, and stops early only at a limit |
| NameValueBatches.EncodeInBatches | fcgi/include/fcgi_utilities_templates.h:83-372 | repeated calls terminate, and the contents of all records decode to exactly the pairs before the first that cannot be represented |
| BytePartition.EstimatesRespectLimits | fcgi/src/fcgi_utilities.cc:156-204 | for every length a call consumes the estimates are within SSIZE_MAX and IOV_MAX, and a call consumes something |
| BytePartition.PlaceRecords | fcgi/include/fcgi_utilities_templates.h:478-524 | the loop produces the framing and uses exactly the estimated bytes, iovecs and header storage |
| BytePartition.PartitionByteSequence | fcgi/include/fcgi_utilities_templates.h:409-535 | an error iff the range is reversed, one empty record for an empty range, otherwise the framing of the consumed part with exact sizes; the check of the estimates never fails |
| BytePartition.WriteHelper | fcgi/include/fcgi_request_templates.h:44-70 | terminates; what was sent are well-framed records that carry a prefix of the input, all of it iff no write failed |
| ContentExtractor.ExtractContent | fcgi/test/src/fcgi_si_testing_utilities.cc:205-360 | the result depends only on the delivered bytes, not on how read portions them |
| ContentExtractor.ExtractCarried | fcgi/test/src/fcgi_si_testing_utilities.cc:205-360 | well-framed records read back as their content, their number, aligned and without error |
| ContentExtractor.ExtractTerminated | fcgi/test/src/fcgi_si_testing_utilities.cc:262-271 | an empty record ends the stream, whatever follows |
| ContentExtractor.ExtractMismatched | fcgi/test/src/fcgi_si_testing_utilities.cc:205-360 | a header with another type or another id, first or later, ends the extraction with an error and the content up to there |
| ContentExtractor.ExtractUnaligned | fcgi/test/src/fcgi_si_testing_utilities.cc:205-360 | a record whose total length is not divisible by eight is noticed whatever follows |
| ContentExtractor.ExtractCutShort | fcgi/test/src/fcgi_si_testing_utilities.cc:205-360 | a stream that ends within a record is an error |
| ContentExtractor.WriteThenExtract | fcgi/include/fcgi_request_templates.h:44-70 | a successful write reads back as its argument under any fragmentation |
| IdIntervals.MaximalIsMinimal | id_manager/include/id_manager_template.h:76-91 | no list of intervals for the same set, overlapping or not, is shorter |
| IdIntervals.SmallestCoverIsUnique | id_manager/include/id_manager_template.h:86-120 | a list as short consists of the same intervals |
| IdIntervals.MaximalIsUnique | id_manager/include/id_manager_template.h:86-120 | two maximal lists of one set are equal |
| IdManagement.IdManager.FindInterval | id_manager/include/id_manager_template.h:213-318 | finds the interval that contains an id iff the id is in use |
| IdManagement.IdManager.IsUsed | id_manager/include/id_manager_template.h:154-167 | membership in the set of used ids |
| IdManagement.IdManager.NumberOfUsedIds | id_manager/include/id_manager_template.h:183-186 | the size of the set of used ids |
| IdManagement.IdManager.GetId | id_manager/include/id_manager_template.h:320-389 | returns the least unused id and adds it, and fails without a change iff all ids are used; intervals stay maximal |
| IdManagement.IdManager.ReleaseId | id_manager/include/id_manager_template.h:391-430 | removes the id, and fails without a change iff it is not in use; intervals stay maximal |
| IdManagement.Replay | id_manager/include/id_manager_template.h:27-64 | over every history of calls the responses are those of a plain set |
| GatherWrite.FindUnfinished | socket_functions/src/socket_functions.cc:175-180 | the loop stays inside the array when fewer than all bytes were written |
| GatherWrite.ScatterGatherHelper | socket_functions/src/socket_functions.cc:164-190 | the trimmed array describes exactly the bytes not yet written, and all other entries are unchanged |
| GatherWrite.ScatterGatherSocketWrite | socket_functions/src/socket_functions.cc:59-135 | for every sequence of writev and select results the bytes sent followed by those described are the original ones and as many as the used results transferred; an interruption never ends the call, an error is reported iff the last result used was that error, and the call stays pending only when the results it needs next are used up |

## Left out

- System calls, socket setup, address parsing and pipe creation: foreign calls; only their outcomes appear.
- Timeouts, signals and clocks: only "a write may fail" and "select may fail" appear.
- Allocation failures and the recovery code for them.
- `request_buffer_on_throw_` and exceptions thrown while several connections are read in one `AcceptRequests` call.
- Message texts, exception types, forwarding overloads, accessors, `SocketRead`, `SocketWrite`, `WriteOnSelect`, `SendGetValuesResult`: they would only add easy members.
- FcgiRequest moves: a moved-from request is null and takes no further part, so the model keeps one object per request.
- LockProtocol: which pending request is assigned, rejected or aborted while reading is left to chance. `LifeSimulation` shows that what the reader does over the life of a connection is among its runs.
- LifeSimulation.LifeSimulated: in the runs that it gives, the requests of the connection leave by their destructors and do not write before; what writing requests may do at the same time is the subject of the theorems about all runs.
- LockProtocol: a failing close during the cleanup is no step of its own; it appears as the removal followed by the abandonment of the cleanup, which leads to the same state.
- LockTheorems.NoFaults: the iterator that the reader caches is not a user of request data there; see `RecordHistory.ExposedByHeaders`.
- RecordReader.RecordStatus.EndStreamRecord: calls `ProcessParams` with the least `SIZE_MAX` that suffices for the stream, since the outcome is the same for a greater one.
- LockTheorems.RunInv: is stated for runs in which no wrapped interface identifier is mistaken; `LockTheorems.FewInterfaces` discharges this for up to 2^64 - 1 interfaces.
- RecordReader.RecordStatus.ReadRecords: the interface mutex, which is taken around each access, is not part of this class; the locking is modelled in `LockProtocol`.
- GatherWrite.ScatterGatherSocketWrite: the system results are a finite list; when it is used up the method reports that the call is still pending, since endless interruptions would keep the original from returning.
- ContentExtractor.ExtractContent: the reporting of read errors.
- NameValuePairs.ExtractBinaryNameValuePairs: the error for a null pointer with a nonzero length, since a byte sequence has no such form.
