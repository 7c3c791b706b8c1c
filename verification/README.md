# A verified model of the DNS engine and its neighbours

The repository is a proxy client written in C++ with coroutines. This project models
the parts of it that rest on state and guards rather than on libraries, and proves what
they promise: the DNS query service with its cache, the upstream groups and transports
below it, the allocators and graph checks beside it, the message codec, the Shadowsocks
record layer and the relay between two streams.

`dafny verify dfyconfig.toml` checks all of it.

## How the model is built

A class whose methods change its fields is a Dafny class with those fields. Its abstract
value, `Model()`, is a datatype; each method is proved to take the old value to the one
that a specification function gives. What the program promises is then proved about
these functions, for every input and, for the event-driven parts, for every run.

Each stretch of a coroutine between two suspensions is one step, as the owner's executor
serializes them. Timers, answers of peers, cancellations and stops are events that may
come at any time, in any order and late. A run is a sequence of states, each of which
follows from the one before by an event that is enabled there. Results that reach a
handler are kept in a log for each request; "exactly once" means that the log has one
entry and that no later step changes it.

The files called `*_outcomes.dfy` say, for every run and every kind of event, what that
event tells whom and what it leaves alone. Their main statements name no step of the
specification: codes, limits, error kinds and octets are written out there a second time,
from the side of those who wait.

| Files | Repository | Content |
|---|---|---|
| `fake_ip_store.dfy` | `src/dns/fake_ip_store.cpp` | rotating address allocator over two inverse maps |
| `graphs.dfy`, `resolver_graph.dfy` | `src/dns/resolver_graph.cpp` | depth-first and worklist search |
| `outbound_registry.dfy` | `src/outbound/outbound_registry.cpp` | validation, capabilities and selection over groups of groups |
| `tcp_session*.dfy`, `dns_transport*.dfy` | `src/dns/dns_transport.cpp` | one TCP session shared by many exchanges; transaction IDs; UDP with TCP fallback |
| `dot_session*.dfy` | `src/dns/dot_dns_transport.cpp` | the TLS session, which retires instead of connecting again |
| `dns_policy_router.dfy` | `src/dns/dns_policy_router.cpp` | which upstream group a name goes to |
| `cache_key.dfy`, `dns_cache.dfy`, `dns_query_*.dfy` | `src/dns/dns_query_service.cpp` | coalescing of queries, cache, cancellation, stop; who shares an exchange, and where answers come from |
| `quic_pool*.dfy` | `src/dns/quic_dns_transport.cpp` | pool of active and idle sessions |
| `doq*.dfy` | `src/dns/doq_dns_transport.cpp` | streams, framing and reassembly of DNS over QUIC |
| `dns_upstream*.dfy` | `src/dns/dns_upstream.cpp` | retry over members with health and deadlines |
| `bootstrap.dfy` | `src/dns/bootstrap_resolver.cpp` | servers in order, each with its share of the time |
| `dns_codec*.dfy` | `src/dns/dns_codec.cpp` | building of messages, a parser that reads them back, and the fields it finds |
| `dns_truncation.dfy` | `src/dns/dns_codec.cpp` | shortening of UDP responses by whole RRsets |
| `dns_answers.dfy`, `address_resolver.dfy` | `src/dns/dns_codec.cpp`, `src/dns/address_resolver.cpp` | CNAME chains inside a response and across queries |
| `shadowsocks*.dfy` | `src/outbound/shadowsocks_outbound.cpp` | record layer over an abstract cipher |
| `tcp_relay.dfy` | `src/proxy/tcp_relay.cpp` | two pumps and a watchdog |
| `core.dfy`, `names.dfy`, `arithmetic.dfy` | | shared types, name normalization, small facts |

## What the proofs brought to light

- The key of the query cache is not injective. Two different queries share a key exactly
  if a group's name hides another name together with its length
  (`CacheKey.CollidesIffConfusable`); names without NUL octets never do.
- This does no harm as long as a packet's wire says what name it asks for: all who wait on
  an exchange then agree with it, whatever the groups are called
  (`DnsQuerySharing.NamedQueriesAgree`). But the service takes wire and questions side by
  side. If they need not fit, coalescing goes wrong exactly for routers that send two names
  to groups whose names get in each other's way, or one of them to a configured group
  called `$default` and the other to the default group (`DnsQuerySharing.AgreeIffNoClash`).
- A group exchange that starts after its deadline charges a failure to the first member,
  which it never tried, and only then is an untried member charged
  (`DnsUpstreamRuns.LateStartBlamesFirst`).
- A member that fails just before the deadline is charged twice if the deadline has passed
  at the head of the loop (`DnsUpstreamRuns.ChargedTwiceIff`).
- A group exchange whose member reports a cancellation that nobody asked for ends without
  an outcome, until it is cancelled from outside (`DnsUpstreamRuns.AbandonedWaitsForCancel`).
- Addresses that bootstrap servers have given are lost exactly if the request falls back
  to the system or is cancelled (`BootstrapSpec.DeliveredIff`), for example when the one
  server there is gives no second answer (`BootstrapSpec.FirstAnswerMayBeLost`).
- A stream that a dialer delivers after a stop stays in the TCP session
  (`TcpSessionSpec.StaleCallsChangeNothing`); nothing else is touched by it.
- The TCP session's write queue knows requests by transaction ID only. If an ID is used
  again while its old frame is being written, the new frame may never be sent
  (`TcpSessionCopies.ForgottenIff` says exactly when); if it is used again while it
  is still in the queue, the new frame may be sent twice (`TcpSessionRuns.SendsTwice`),
  once for every entry that the writing reaches (`TcpSessionCopies.GoesOutAgainIff`).
- A Shadowsocks write that fails has used up nonces although nothing was sent
  (`ShadowsocksStreams.ShadowsocksStream.Write`).
- Reconfiguring the FakeIP store does not reset the time of its last purge, and a lookup
  of an existing name does not extend its lifetime (`FakeIp.FakeIpStore.Configure`,
  `FakeIp.FakeIpStore.Resolve`).

## Model

| member | source | states |
|---|---|---|
| FakeIp.FakeIpStore.constructor | src/dns/fake_ip_store.cpp:21-32 | A store is always in a consistent state; unusable parameters leave one without capacity |
| FakeIp.FakeIpStore.Configure | src/dns/fake_ip_store.cpp:34-54 | Which parameters are refused, and that a refusal changes nothing; otherwise the pool is the network without its first and last address, and empty |
| FakeIp.FakeIpStore.Resolve | src/dns/fake_ip_store.cpp:56-85 | All four results by case; an existing name keeps its address and expiry; a new name gets the first free address in cyclic order, until the time to live has passed since the second clock reading; the address lies strictly inside the network and maps back to the normalized name; the exhaustion return behind the scan is dead |
| FakeIp.FakeIpStore.Allocate | src/dns/fake_ip_store.cpp:69-83 | Below capacity the scan always finds a free address |
| FakeIp.FakeIpStore.Scan | src/dns/fake_ip_store.cpp:69-73 | The loop finds the first free offset from the cursor on, and leaves the cursor behind it |
| FakeIp.FakeIpStore.Reverse | src/dns/fake_ip_store.cpp:87-94 | Exactly the owner of the address, which maps forward to it and is less than one second past its expiry |
| FakeIp.FakeIpStore.Release | src/dns/fake_ip_store.cpp:96-106 | Both directions of the mapping go, or nothing does |
| FakeIp.FakeIpStore.PurgeExpired | src/dns/fake_ip_store.cpp:118-135 | The loop over the map removes exactly the expired names with their addresses, at most once a second |
| FakeIp.FakeIpStore.Clear | src/dns/fake_ip_store.cpp:108-111 | Both maps are empty, everything else stays |
| FakeIp.ScanIsPermutation | src/dns/fake_ip_store.cpp:69-72 | The cyclic scan visits every offset of the pool exactly once |
| FakeIp.RoomMeansFree | src/dns/fake_ip_store.cpp:65-84 | Pigeonhole: below capacity some offset of the pool is free |
| FakeIp.ScanReaches | src/dns/fake_ip_store.cpp:69-83 | The scan stops at the first free offset that it comes to |
| FakeIp.ScanFindsRoom | src/dns/fake_ip_store.cpp:69-84 | The scan finds something if and only if some offset is free |
| FakeIp.ReleasedComesLast | src/dns/fake_ip_store.cpp:70-71 | Rotation: an address released right after its allocation is handed out again at once if and only if no other one is free |
| FakeIp.ReleasedComesInTurn | src/dns/fake_ip_store.cpp:69-73 | Wherever the cursor stands, a released address is the next one if and only if no offset before it in cyclic order is free |
| FakeIp.PurgeKeepsValid | src/dns/fake_ip_store.cpp:118-135 | A purge keeps the two maps mutually inverse and inside the network |
| FakeIp.InsertKeepsValid | src/dns/fake_ip_store.cpp:79-80 | An allocation keeps the two maps mutually inverse, inside the network and within capacity |
| FakeIp.RemoveKeepsValid | src/dns/fake_ip_store.cpp:103-104 | A release keeps the two maps mutually inverse |
| FakeIp.SeenIsFresh | src/dns/fake_ip_store.cpp:118-135 | Whatever a lookup can see is less than one second past its expiry |
| FakeIp.NewLivesItsTime | src/dns/fake_ip_store.cpp:75-82 | A new mapping is seen until its time to live has passed since the allocation, for good if that is 0, and by no lookup that purges after it |
| FakeIp.NetworkBlock | src/dns/fake_ip_store.cpp:39-49 | Network address plus any offset of the pool fits in 32 bits |
| ResolverGraph.ResolverDependencyGraph.AddNode | src/dns/resolver_graph.cpp:16-25 | Refused exactly for an empty or known name, without a change; otherwise one more node |
| ResolverGraph.ResolverDependencyGraph.AddResolver | src/dns/resolver_graph.cpp:27-41 | Refused exactly for an empty or known name or a role that is taken; the roles stay distinct |
| ResolverGraph.ResolverDependencyGraph.AddDependency | src/dns/resolver_graph.cpp:59-73 | Refused exactly for unknown ends; otherwise exactly one step is added to the relation, behind the others and however often it is asked for; kinds and roles stay |
| ResolverGraph.ResolverDependencyGraph.Visit | src/dns/resolver_graph.cpp:75-98 | Depth-first search: terminates, restores the path, orders what it finishes topologically, and fails only on a cycle; unknown dependencies never occur |
| ResolverGraph.ResolverDependencyGraph.Validate | src/dns/resolver_graph.cpp:100-137 | Success if and only if the graph is acyclic and no bootstrap resolver transitively depends on a node with a role |
| ResolverGraph.ResolverDependencyGraph.CheckBootstrap | src/dns/resolver_graph.cpp:110-135 | Failure if and only if some bootstrap resolver transitively depends on a resolver |
| ResolverGraph.ResolverDependencyGraph.Explore | src/dns/resolver_graph.cpp:114-134 | The worklist search terminates and finds a resolver if and only if one is reachable |
| Graphs.TopologicalIsAcyclic | src/dns/resolver_graph.cpp:95-97 | Why a search that finishes every node proves that there is no cycle |
| Graphs.BackStepIsLoop | src/dns/resolver_graph.cpp:80-82 | Why meeting a name on the current path proves that there is a cycle |
| OutboundRegistry.Registry.AddOutbound | src/outbound/outbound_registry.cpp:16-25 | Refused exactly for an empty name, a missing instance or a name that is taken |
| OutboundRegistry.Registry.AddGroup | src/outbound/outbound_registry.cpp:27-40 | Refused exactly for empty names or members or a name that is taken; the turn counter starts at zero |
| OutboundRegistry.Registry.ValidateGroup | src/outbound/outbound_registry.cpp:42-66 | The recursion over the pushed and popped path succeeds exactly where the group expands; it terminates on cyclic graphs, too |
| OutboundRegistry.Registry.Validate | src/outbound/outbound_registry.cpp:68-77 | Success if and only if all members are known and the group graph is acyclic |
| OutboundRegistry.Registry.CapabilitiesEntry | src/outbound/outbound_registry.cpp:79-123 | Succeeds exactly where the group expands, with the greatest promise that every reachable outbound keeps |
| OutboundRegistry.Registry.GetCapabilities | src/outbound/outbound_registry.cpp:125-128 | The same from the outside: the greatest lower bound of all reachable outbounds |
| OutboundRegistry.Registry.SelectEntry | src/outbound/outbound_registry.cpp:130-162 | Succeeds exactly if some expansion does; the choice is offered by the first usable member from the turn counter on; the counter moves by one modulo 2^64, and those on the path do not move |
| OutboundRegistry.Registry.TryMembers | src/outbound/outbound_registry.cpp:147-161 | The loop over the members in cyclic order: picks the first usable one, fails only if none is |
| OutboundRegistry.Registry.Select | src/outbound/outbound_registry.cpp:164-167 | Succeeds if and only if an outbound is reachable; whenever capabilities are reported, the outbound selected keeps all of them, for every value of the counters; which outbound it is, and every counter afterwards, through all nested groups |
| OutboundRegistry.ExpandsIffAcyclic | src/outbound/outbound_registry.cpp:42-77 | Recursion with a path succeeds for all groups if and only if the graph is acyclic and closed |
| OutboundRegistry.ValidatedNamesWork | src/outbound/outbound_registry.cpp:68-77 | After a successful validation capabilities and selection succeed for every registered name |
| OutboundRegistry.SelectableIffOffers | src/outbound/outbound_registry.cpp:130-162 | Selection can succeed if and only if an outbound is reachable, cycles or not |
| OutboundRegistry.ExpandsSelectable | src/outbound/outbound_registry.cpp:79-162 | Where capabilities are reported, selection succeeds |
| OutboundRegistry.ChooseCounts | src/outbound/outbound_registry.cpp:130-162 | A selection moves the counters of groups that can be reached only, and never of those being visited |
| OutboundRegistry.AttemptCounts | src/outbound/outbound_registry.cpp:147-161 | The loop over the members picks the first usable one in cyclic order, if there is any |
| OutboundRegistry.GroupCounts | src/outbound/outbound_registry.cpp:140-162 | One selection of a group moves its counter by one, whether it succeeds or not |
| OutboundRegistry.MembersTakeTurns | src/outbound/outbound_registry.cpp:147-161 | Round robin: as long as every member has something to offer and the counter does not wrap, the selections of a group take its members in turn |
| OutboundRegistry.Combine | src/outbound/outbound_registry.cpp:106-119 | One step of the loop is the greatest lower bound of two promises |
| OutboundRegistry.CyclicIndex | src/outbound/outbound_registry.cpp:151-153 | The cyclic order from any counter meets every member |
| TransactionIds.ScanFailsIffFull | src/dns/dns_transport.cpp:882-893 | The scan for an ID gives up if and only if all 65535 non-zero IDs are active (the allocator at src/dns/dot_dns_transport.cpp:637-648 is the same) |
| DnsTransports.AsioDnsTransport.NextQueryId | src/dns/dns_transport.cpp:882-893 | Never zero, never an active ID; none exactly if all are active |
| TcpSessionSpec.StepKeeps | src/dns/dns_transport.cpp:255-606 | Every call and callback of the session keeps its invariant: phases, flags and calls under way agree, and no request is forgotten |
| TcpSessionSpec.StepProgress | src/dns/dns_transport.cpp:520-569 | Whatever happens, a pending request stays pending or its channel is filled, once |
| TcpSessionSpec.NoLostWakeup | src/dns/dns_transport.cpp:383-442 | A waiting request implies a connect or read of the current connection under way; connected with a non-empty queue implies a write under way |
| TcpSessionSpec.StaleCallsChangeNothing | src/dns/dns_transport.cpp:396-486 | Callbacks of an older connection change nothing but the record of calls; a late connect leaves a stream handle behind only after a stop |
| TcpSessionRuns.RunsAreValid | src/dns/dns_transport.cpp:264-589 | Every state of every run of the session satisfies its invariant |
| TcpSessionRuns.RunsAreAwake | src/dns/dns_transport.cpp:383-442 | In every run a waiting request implies a connect or read of the current connection under way, and with a non-empty queue a write |
| TcpSessionOutcomes.ResponsesReachRequests | src/dns/dns_transport.cpp:297-586 | In every run a waiting request is ended by a response under its own ID, and told just that response; by its deadline with a timeout; by a cancellation or a stop; or with the running connection, by a failed connect with its error, a failed write or read with an I/O error, an empty or too short frame with a framing error; everything else leaves it waiting |
| TcpSessionOutcomes.RequestIsHeldOrRefused | src/dns/dns_transport.cpp:264-295 | A new request is refused when stopped, for a length of 0 or above 65535 and under a pending ID, and otherwise waits on a session that connects |
| TcpSessionOrder.FramesGoOutInTurn | src/dns/dns_transport.cpp:290-442 | In every run in which no ID is used again while its old frame waits or is being written, frames go out in the order of their requests |
| TcpSessionOrder.NobodyIsOvertaken | src/dns/dns_transport.cpp:290-442 | In such a run no request that waits was made before one whose frame has gone out already |
| TcpSessionRuns.FramesGoOutOnce | src/dns/dns_transport.cpp:406-442 | In every run in which no ID is used again while its old frame waits or is being written, no frame goes out twice, and that of every waiting request is in the queue or has gone out |
| TcpSessionRuns.ReusedIdIsForgotten | src/dns/dns_transport.cpp:435-438 | If an ID is used again while its old frame is being written, the end of that write makes the session forget the new frame exactly if the queue held nothing else |
| TcpSessionRuns.SendsTwice | src/dns/dns_transport.cpp:435-438 | A concrete run in which an ID is used again while it is still in the queue, and its frame goes out twice |
| TcpSessionCopies.CopiesAddUp | src/dns/dns_transport.cpp:406-442 | In every run, as long as a request waits, copies sent and entries of its ID still due add up to one more than the entries there were when it was made, unless an older frame was being written under the ID; never to more |
| TcpSessionCopies.GoesOutAgainIff | src/dns/dns_transport.cpp:406-442 | Corollary: a frame goes out again exactly when the writing reaches a further entry of its ID while the request waits |
| TcpSessionCopies.NeverMoreCopies | src/dns/dns_transport.cpp:406-442 | In every run no frame goes out more often than its ID stood in the queue when the request was made, and once |
| TcpSessionCopies.ForgottenIff | src/dns/dns_transport.cpp:432-438 | In every valid state, the end of a write that was another request's makes the session forget the waiting one exactly if no entry of its ID is due |
| TcpSessionCopies.NeverForgotten | src/dns/dns_transport.cpp:406-442 | In every run a request is never forgotten if nothing was being written under its ID when it was made |
| TcpSessionCopies.StepAddsUp | src/dns/dns_transport.cpp:264-589 | Each event keeps that sum for every waiting request |
| DnsTransportReuse.IdsComeBackLate | src/dns/dns_transport.cpp:882-893 | In every run, between two uses of an ID at least 65534 other exchanges are opened, less those that were live at its first use |
| DnsTransportFrames.FramesGoOutOnce | src/dns/dns_transport.cpp:406-442 | In every run of the transport in which fewer than 65534 exchanges, less the live ones, are opened since an ID was given out while the session still uses it, no exchange's frame goes out twice, and that of every one that waits is in the queue or has gone out |
| DnsTransportFrames.PatientRunsRest | src/dns/dns_transport.cpp:882-893 | In such a run no ID is given out that the session still uses |
| DnsTransportFrames.StepOrdered | src/dns/dns_transport.cpp:616-970 | Every event keeps the frames in order, and the IDs of exchanges that may still join unused by the session |
| DnsTransportReuse.ScanSweeps | src/dns/dns_transport.cpp:882-893 | The scan comes past every ID before it comes back to one |
| TcpSessionRuns.StepStaysOrderly | src/dns/dns_transport.cpp:264-589 | Every event keeps the order of queue, writes and frames, unless an ID is used again too early |
| TcpSessions.TcpSession.Exchange | src/dns/dns_transport.cpp:264-295 | Refusals in order; otherwise the request is pending and queued, and a connect or a write is started if needed |
| TcpSessions.TcpSession.ConnectIfNeeded | src/dns/dns_transport.cpp:383-394 | At most one connect is under way |
| TcpSessions.TcpSession.OnConnected | src/dns/dns_transport.cpp:396-404 | Reading starts and the queue is flushed, for the current connection only |
| TcpSessions.TcpSession.OnOpened | src/dns/dns_transport.cpp:378-379 | The dialer delivers a stream, for this connection or an older one |
| TcpSessions.TcpSession.OnOpenFailed | src/dns/dns_transport.cpp:355-377 | The dialer fails; only the current connection is lost by it |
| TcpSessions.TcpSession.FlushWrites | src/dns/dns_transport.cpp:406-442 | Dead entries go from the front of the queue, the first live one is written, one at a time |
| TcpSessions.TcpSession.OnWritten | src/dns/dns_transport.cpp:424-439 | A finished write leaves the queue and the next one starts; a failed one fails the connection |
| TcpSessions.TcpSession.ReadFrame | src/dns/dns_transport.cpp:444-452 | At most one read of a length at a time |
| TcpSessions.TcpSession.OnLength | src/dns/dns_transport.cpp:453-470 | A length of zero or an error fails the connection, otherwise the body is read |
| TcpSessions.TcpSession.OnBody | src/dns/dns_transport.cpp:470-484 | The frame is dispatched, or the connection fails |
| TcpSessions.TcpSession.DispatchResponse | src/dns/dns_transport.cpp:520-538 | The request with the frame's ID gets the frame, nobody else does, and reading goes on |
| TcpSessions.TcpSession.Fail | src/dns/dns_transport.cpp:540-553 | One request leaves map and queue and its handler gets the error; an unknown ID changes nothing |
| TcpSessions.TcpSession.FailEverything | src/dns/dns_transport.cpp:555-569 | The loop over the pending map gives every request the error, once |
| TcpSessions.TcpSession.ConnectionLost | src/dns/dns_transport.cpp:571-577 | The connection is closed under a new generation and everything fails; stale generations change nothing |
| TcpSessions.TcpSession.Close | src/dns/dns_transport.cpp:579-589 | A new generation with all flags cleared |
| TcpSessions.TcpSession.StopSession | src/dns/dns_transport.cpp:299-306 | A stop fails everything once and for all |
| TcpSessions.TcpSession.Cancel | src/dns/dns_transport.cpp:297 | A cancellation fails one request |
| TcpSessions.TcpSession.DeadlineFired | src/dns/dns_transport.cpp:317-327 | A deadline fails the request that holds the ID when it fires |
| DnsTransports.AsioDnsTransport.OpenExchange | src/dns/dns_transport.cpp:924-936 | A new exchange gets a free ID and starts, or ends with the error at once |
| DnsTransports.AsioDnsTransport.Register | src/dns/dns_transport.cpp:926-929 | The operation is entered under a number of its own, and nothing has been told yet |
| DnsTransports.AsioDnsTransport.Start | src/dns/dns_transport.cpp:616-639 | A free ID is taken and its exchange begins; without one, or for a wire too short, it ends with an error |
| DnsTransports.AsioDnsTransport.CloseSockets | src/dns/dns_transport.cpp:835-844 | The session entry of the operation goes with it |
| DnsTransports.AsioDnsTransport.FinishOperation | src/dns/dns_transport.cpp:859-866 | The completed flag lets only the first outcome through |
| DnsTransports.AsioDnsTransport.Complete | src/dns/dns_transport.cpp:958-970 | The operation and its ID are given up and the handler is called once |
| DnsTransports.AsioDnsTransport.OnTask | src/dns/dns_transport.cpp:658-674 | The exchange task starts: too late, over TCP, or by opening a datagram |
| DnsTransports.AsioDnsTransport.OnDialed | src/dns/dns_transport.cpp:686-699 | What becomes of an opened datagram |
| DnsTransports.AsioDnsTransport.OnSent | src/dns/dns_transport.cpp:719-734 | What follows a datagram sent |
| DnsTransports.AsioDnsTransport.OnReceived | src/dns/dns_transport.cpp:735-776 | A whole answer to the own question finishes the exchange, a truncated one sends it to TCP, anything else is skipped or fails it (as `DnsTransportOutcomes.DatagramDecides` says for every run) |
| DnsTransports.AsioDnsTransport.RunTcp | src/dns/dns_transport.cpp:782-805 | The exchange joins the shared session under its own ID |
| DnsTransports.AsioDnsTransport.Join | src/dns/dns_transport.cpp:790-805 | The session is created if there is none, and has the ID free for the exchange |
| DnsTransports.AsioDnsTransport.OnTcpReply | src/dns/dns_transport.cpp:805-833 | A reply that does not decode or match is an error, otherwise it ends the exchange |
| DnsTransports.AsioDnsTransport.OnDeadline | src/dns/dns_transport.cpp:706-715 | A deadline ends an exchange that is still open |
| DnsTransports.AsioDnsTransport.Cancel | src/dns/dns_transport.cpp:938-943 | A cancellation ends an exchange that is still open |
| DnsTransports.AsioDnsTransport.StopTransport | src/dns/dns_transport.cpp:945-956 | The stop loop terminates and is equal to cancelling all live exchanges and the session at once |
| DnsTransports.AsioDnsTransport.CancelAll | src/dns/dns_transport.cpp:950-952 | Cancelling operations one after the other ends with none |
| DnsTransportOpening.OpenInSteps | src/dns/dns_transport.cpp:616-640 | Registration, ID, encoding and start amount to the one atomic opening |
| DnsTransportSpec.StepKeeps | src/dns/dns_transport.cpp:616-970 | Every event keeps the invariant that ties operations, active IDs, session and delivered results together |
| DnsTransportSpec.RunsAreValid | src/dns/dns_transport.cpp:616-970 | Every state of every run satisfies that invariant |
| DnsTransportSpec.IdsAreExclusive | src/dns/dns_transport.cpp:616-624 | In every run live exchanges hold distinct non-zero IDs, exactly the active ones |
| DnsTransportSpec.IdIsFreeOnSession | src/dns/dns_transport.cpp:275-280 | The branch for an ID already in use on the session is never taken |
| DnsTransportSpec.ExactlyOnce | src/dns/dns_transport.cpp:859-866 | In every run each exchange is answered exactly once, with an answer to its own question or an error, never again, and after a stop none is open |
| DnsTransportSpec.WaitingIsServed | src/dns/dns_transport.cpp:782-805 | An exchange that waits for TCP has its reply or a call under way that will bring one |
| DnsTransportSpec.RunRemembers | src/dns/dns_transport.cpp:958-970 | Delivered results are never taken back or changed |
| DnsTransportOutcomes.DatagramDecides | src/dns/dns_transport.cpp:735-777 | In every run a datagram ends a live exchange with just its message if that answers its question whole, sends it on to the shared session untold if it is truncated, and changes nothing if it is a stranger's or answers another question; a failed receive or an undecodable message ends it with that error |
| DnsTransportOutcomes.SameQuestionIff | src/dns/dns_transport.cpp:846-857 | A message answers a query if and only if it is a response and asks for the same names, up to normalization, types and classes in the same order |
| DnsTransportOutcomes.DatagramAnswersAreWhole | src/dns/dns_transport.cpp:769-774 | In every run an answer that a datagram delivers is not truncated |
| DnsTransportOutcomes.ReplyDecides | src/dns/dns_transport.cpp:805-833 | In every run the reply of the session ends the exchange with the message it holds, if that answers its question, with a framing error if not, and with the session's error otherwise |
| DnsTransportOutcomes.WayToAnswer | src/dns/dns_transport.cpp:658-734 | A live exchange goes to the session at once if TCP is preferred, and otherwise opens, sends and receives; the first call that fails ends it with its error, an expired deadline with a timeout |
| DnsTransportOutcomes.EndsFromOutside | src/dns/dns_transport.cpp:642-649 | A deadline ends a live exchange with a timeout, a cancellation with a cancellation, a stop every one |
| DnsTransportOutcomes.OthersAreNotTold | src/dns/dns_transport.cpp:859-866 | In every run an event for one exchange tells no other one anything |
| DnsTransportOutcomes.OpeningDecides | src/dns/dns_transport.cpp:616-643 | A new exchange is refused by a stopped transport, if all IDs are active, and without room for an ID; any other is live under an ID that was free |
| DotSessions.DotTlsSession.Exchange | src/dns/dot_dns_transport.cpp:84-135 | Refusals in order; otherwise the request waits and is queued, and a connect or the writing loop is started if needed |
| DotSessions.DotTlsSession.ConnectIfNeeded | src/dns/dot_dns_transport.cpp:236-247 | At most one connect, and none after retirement |
| DotSessions.DotTlsSession.EnsureWriteLoop | src/dns/dot_dns_transport.cpp:249-259 | At most one writing loop |
| DotSessions.DotTlsSession.RunWriteLoop | src/dns/dot_dns_transport.cpp:267-284 | From the head of the loop to the next live frame, or to the end of the loop, which clears the flag |
| DotSessions.DotTlsSession.OnWritten | src/dns/dot_dns_transport.cpp:284-306 | A finished write leaves the queue and the loop goes on, whatever has become of the connection; a failed one loses it |
| DotSessions.DotTlsSession.OnDialed | src/dns/dot_dns_transport.cpp:178-194 | A dial of the current connection leads to the handshake or to its loss |
| DotSessions.DotTlsSession.OnSecured | src/dns/dot_dns_transport.cpp:209-225 | A handshake of the current connection starts both loops, or loses it |
| DotSessions.DotTlsSession.RunReadLoop | src/dns/dot_dns_transport.cpp:317-324 | The reading loop goes on with the next length while the connection is the current one |
| DotSessions.DotTlsSession.OnLength | src/dns/dot_dns_transport.cpp:323-347 | A length of zero or an error loses the connection, otherwise the body is read |
| DotSessions.DotTlsSession.OnBody | src/dns/dot_dns_transport.cpp:345-362 | The frame is dispatched without another look at the connection, and reading goes on |
| DotSessions.DotTlsSession.DispatchResponse | src/dns/dot_dns_transport.cpp:409-427 | The request with the frame's ID gets the frame, nobody else does |
| DotSessions.DotTlsSession.FailRequest | src/dns/dot_dns_transport.cpp:429-446 | One request leaves; the last one to leave a connection in the making retires the session |
| DotSessions.DotTlsSession.StopSession | src/dns/dot_dns_transport.cpp:139-147 | A stop retires the session and fails everything |
| DotSessions.DotTlsSession.ConnectionFailed | src/dns/dot_dns_transport.cpp:464-471 | A lost connection retires the session and fails everything; stale generations change nothing |
| DotSessions.DotTlsSession.CloseConnection | src/dns/dot_dns_transport.cpp:473-483 | A new generation with all flags cleared |
| DotSessions.DotTlsSession.FailAll | src/dns/dot_dns_transport.cpp:448-462 | The loop over the pending map gives every request the error, once |
| DotSessions.DotDnsTransport.CurrentSession | src/dns/dot_dns_transport.cpp:650-664 | The transport keeps its session exactly as long as it has not retired, and has none after a stop |
| DotSessionSpec.StepKeeps | src/dns/dot_dns_transport.cpp:84-483 | Every call and callback keeps the invariant of flags, calls under way, queue and what was told |
| DotSessionSpec.RunsAreValid | src/dns/dot_dns_transport.cpp:84-483 | Every state of every run satisfies it |
| DotSessionSpec.RunsAreAwake | src/dns/dot_dns_transport.cpp:261-312 | In every run a waiting request is in a session that has not retired, with a dial, handshake or read under way, and with a non-empty queue a write, although the writing loop never starts itself again |
| DotSessionSpec.ToldExactlyOnce | src/dns/dot_dns_transport.cpp:409-471 | In every run each request waits untold or has been told exactly one thing for good; a retired session stays retired and nobody waits in it |
| DotSessionSpec.RetiredStaysAsItIs | src/dns/dot_dns_transport.cpp:178-370 | Whatever calls back into a retired session changes nothing but the record of calls |
| DotSessionSpec.LeavingRetires | src/dns/dot_dns_transport.cpp:438-441 | A request that leaves retires the session if and only if it was the only one and the connection was in the making |
| DotSessionOutcomes.ResponsesReachRequests | src/dns/dot_dns_transport.cpp:139-471 | In every run a waiting request is ended by a response under its own ID, and told just that; by what makes it leave; by a stop; or with the connection, by the error of its dial or handshake, an I/O error of a write or read, a framing error of an empty or short frame; everything else leaves it waiting |
| DotSessionOutcomes.RequestIsHeldOrRefused | src/dns/dot_dns_transport.cpp:84-135 | A new request is refused by a retired session, for a length that no frame can have and under a pending ID, and otherwise waits on a session that connects |
| DotSessionFrames.FramesGoOutOnce | src/dns/dot_dns_transport.cpp:249-312 | In every run in which no ID is used again while its old frame waits or is being written, no frame goes out twice, and whoever waits is in the queue or its frame has gone out |
| DotSessionFrames.FramesGoOutInTurn | src/dns/dot_dns_transport.cpp:249-312 | In such a run frames go out in the order of their requests |
| CacheKey.EqualKeysAgree | src/dns/dns_query_service.cpp:24-37 | Equal keys come from the same query up to its ID and the same group, unless a name is confusable |
| CacheKey.CollidesIffConfusable | src/dns/dns_query_service.cpp:24-37 | Exactly for which group names two different queries share a key |
| CacheKey.EqualKeysHide | src/dns/dns_query_service.cpp:24-37 | Equal keys come from the same query up to its ID and the same name, unless one name hides the other |
| CacheKey.PlainNames | src/dns/dns_query_service.cpp:24-37 | Names without NUL octets are never confusable |
| CacheKey.NulIsConfusable | src/dns/dns_query_service.cpp:24-37 | A concrete name that is confusable |
| DnsCache.ComputeCacheTtl | src/dns/dns_query_service.cpp:49-91 | The two loops compute the lifetime of a negative and of a positive answer |
| DnsCache.NegativeTtlIsLeast | src/dns/dns_query_service.cpp:52-73 | The negative lifetime is the least of the limit, the SOA TTLs and the SOA minimums |
| DnsCache.PositiveTtlIsLeast | src/dns/dns_query_service.cpp:83-86 | The positive lifetime is the least TTL of the answers |
| DnsCache.CacheTtlIsBounded | src/dns/dns_query_service.cpp:49-91 | A lifetime outlives no record it rests on, and is withheld only for a zero, a missing bound or an error code |
| DnsCache.NegativeLifetime | src/dns/dns_query_service.cpp:51-74 | A name error or an empty answer is kept for exactly the least of the limit, the SOA TTLs and the SOA minimums, if that is positive |
| DnsCache.MinimumComesLast | src/dns/dns_query_service.cpp:56-70 | The minimum of SOA data that was not parsed is its last four octets, high octet first |
| DnsCache.PositiveLifetime | src/dns/dns_query_service.cpp:75-91 | Any other answer with code 0 is kept for exactly the least TTL of its records, unless that is 0 or 0xffffffff; any other code never |
| DnsCache.TouchKeeps | src/dns/dns_query_service.cpp:620-621 | A hit keeps map and list in agreement |
| DnsCache.StoreKeeps | src/dns/dns_query_service.cpp:747-760 | A store keeps map and list in agreement and the size within capacity |
| DnsCache.HistoriesAreOrdered | src/dns/dns_query_service.cpp:745-763 | After any sequence of hits, drops, stores and clears map and list hold the same keys without duplicates, at most capacity many, in order of last use |
| DnsCache.EvictsLeastRecentlyUsed | src/dns/dns_query_service.cpp:752-755 | What a store pushes out was used less recently than everything that stays, and only a full cache pushes out anything |
| DnsCache.EntriesChange | src/dns/dns_query_service.cpp:745-763 | After any history, a hit changes no entry, an expired entry goes alone, and a new one costs another entry exactly if its key is new and the cache full: the one used least recently, and no other |
| DnsQueryServices.DnsQueryService.QueryOnOwner | src/dns/dns_query_service.cpp:582-645 | Objections in order, routing, then a cached answer, an exchange to join, or a new one |
| DnsQueryServices.DnsQueryService.LookUp | src/dns/dns_query_service.cpp:617-645 | A live entry is served, an expired one is dropped before anything else |
| DnsQueryServices.DnsQueryService.ServeCached | src/dns/dns_query_service.cpp:620-624 | The entry moves to the front and the request gets it under its own ID |
| DnsQueryServices.DnsQueryService.DropExpired | src/dns/dns_query_service.cpp:626-628 | An expired entry leaves map and list |
| DnsQueryServices.DnsQueryService.WaitOrLaunch | src/dns/dns_query_service.cpp:631-644 | The request waits on the exchange of its key, which is started if there is none |
| DnsQueryServices.DnsQueryService.RemoveWaiter | src/dns/dns_query_service.cpp:125-134 | Exactly the waiter of the request is taken out |
| DnsQueryServices.DnsQueryService.CancelOnOwner | src/dns/dns_query_service.cpp:660-679 | The request is told of its cancellation; the exchange ends with its last waiter |
| DnsQueryServices.DnsQueryService.Detach | src/dns/dns_query_service.cpp:665-675 | The request leaves its exchange and is told of its cancellation |
| DnsQueryServices.DnsQueryService.CancelEmptied | src/dns/dns_query_service.cpp:676-678 | An exchange without waiters is no longer in flight and tells nobody |
| DnsQueryServices.DnsQueryService.CancelShared | src/dns/dns_query_service.cpp:184-196 | An exchange is cancelled at most once |
| DnsQueryServices.DnsQueryService.FinishOperation | src/dns/dns_query_service.cpp:197-203 | Only the first result of an exchange counts |
| DnsQueryServices.DnsQueryService.Complete | src/dns/dns_query_service.cpp:738-781 | The exchange leaves the map, its answer is kept if it may be, and every waiter is told, under its own ID (what, in `DnsQueryOutcomes.PacketReachesWaiters` and `FailureReachesWaiters`) |
| DnsQueryServices.DnsQueryService.Remember | src/dns/dns_query_service.cpp:745-763 | What is kept of a reply, and for how long |
| DnsQueryServices.DnsQueryService.StoreAnswer | src/dns/dns_query_service.cpp:747-760 | An older entry goes, room is made, and the new one comes first |
| DnsQueryServices.DnsQueryService.EraseCached | src/dns/dns_query_service.cpp:748-751 | A key leaves map and list, if it is there |
| DnsQueryServices.DnsQueryService.Evict | src/dns/dns_query_service.cpp:752-755 | The loop evicts from the end of the list until there is room for one more |
| DnsQueryServices.DnsQueryService.PostAll | src/dns/dns_query_service.cpp:772-780 | The loop tells each waiter once |
| DnsQueryServices.DnsQueryService.Erase | src/dns/dns_query_service.cpp:769-771 | The loop takes exactly the waiters out of the open requests |
| DnsQueryServices.DnsQueryService.PostPacket | src/dns/dns_query_service.cpp:502-515 | A packet is delivered under the request's own ID, or as an error if it is too short to carry one (told octet for octet in `DnsQueryOutcomes.PacketReachesWaiters`) |
| DnsQueryServices.DnsQueryService.StopOnOwner | src/dns/dns_query_service.cpp:699-707 | The stop loop terminates and is equal to cancelling all exchanges at once |
| DnsQueryServices.DnsQueryService.CancelFirst | src/dns/dns_query_service.cpp:703-705 | Each pass of the stop loop leaves fewer exchanges in flight and does not change what the stop amounts to |
| DnsQueryServices.DnsQueryService.ClearCache | src/dns/dns_query_service.cpp:716-732 | The cache is empty and nothing else has changed |
| DnsQueryServices.StopAbsorbs | src/dns/dns_query_service.cpp:703-705 | The order in which a stop cancels exchanges makes no difference |
| DnsQueryServiceSpec.AskKeeps | src/dns/dns_query_service.cpp:582-645 | A query keeps the invariant of requests, waiters, exchanges, cache and delivered results |
| DnsQueryServiceSpec.CancelKeeps | src/dns/dns_query_service.cpp:660-679 | A cancellation keeps it; the operation of an open request always exists |
| DnsQueryServiceSpec.CompleteKeeps | src/dns/dns_query_service.cpp:738-781 | A completion keeps it |
| DnsQueryServiceSpec.FinishKeeps | src/dns/dns_query_service.cpp:197-203 | A result, late or not, keeps it |
| DnsQueryServiceSpec.StopKeeps | src/dns/dns_query_service.cpp:699-707 | A stop keeps it and leaves no request open |
| DnsQueryRuns.RunsAreValid | src/dns/dns_query_service.cpp:582-781 | Every state of every run satisfies the invariant |
| DnsQueryRuns.ExactlyOnce | src/dns/dns_query_service.cpp:738-781 | In every run a request is open and untold, or has been told exactly one thing that carries its own ID and stays the only one; after a stop none is open |
| DnsQueryRuns.RequestsAreWaiters | src/dns/dns_query_service.cpp:631-643 | Open requests are exactly the waiters of the exchanges in flight that have not completed, each of one |
| DnsQueryRuns.StopIsFinal | src/dns/dns_query_service.cpp:681-707 | After a stop no request is open and nothing is in flight, whatever comes later |
| DnsQueryRuns.RunRemembers | src/dns/dns_query_service.cpp:502-515 | What has been asked and told is never changed |
| DnsQuerySharing.NamedQueriesAgree | src/dns/dns_query_service.cpp:631-636 | As long as the wire of every packet, from behind the ID on and whatever follows, fixes the name it asks for: in every run all who wait on an exchange asked for what it sends, up to the ID, and were routed to its group, whatever the groups are called |
| DnsQuerySpelling.SpelledQueriesAgree | src/dns/dns_query_service.cpp:631-636 | So it is in every run of queries whose wire spells the name out in labels behind the header |
| DnsQuerySpelling.EncodedQueriesAreSpelled | src/dns/dns_codec.cpp:507-543 | The codec's own queries do so |
| DnsQuerySharing.AgreeIffNoClash | src/dns/dns_query_service.cpp:582-645 | For packets whose wire and questions are handed in side by side: a service with a given router always agrees if and only if it sends no two names so that one group's name hides the other's, or one to a group under the default group's internal name and the other to the default group |
| DnsQuerySharing.WaitersAgree | src/dns/dns_query_service.cpp:631-636 | Without such names all waiters agree with their exchange in every run, whatever the packets are |
| DnsQuerySharing.ClashIsShared | src/dns/dns_query_service.cpp:600-636 | For any two such names and any packet, a run in which the packet is asked for the one name and then, with some octets behind it, for the other, and the second query waits for the first one's exchange |
| DnsQuerySharing.PlainNamesNeverClash | src/dns/dns_query_service.cpp:600-615 | Without a router, and for group names without NUL octets none of which is the internal one, no names clash |
| DnsQuerySharing.SomeNamesClash | src/dns/dns_query_service.cpp:600-615 | A router and two names that clash |
| PolicyRouting.Select | src/dns/dns_policy_router.cpp:46-54 | The loop finds the first rule that matches, or the default upstream |
| PolicyRouting.FirstRuleDecides | src/dns/dns_policy_router.cpp:46-54 | A name goes where the first rule that matches it says, or to the default upstream, however it is spelled |
| PolicyRouting.MatchesIff | src/dns/dns_policy_router.cpp:10-23 | An exact rule matches its name, a suffix rule also whatever ends in a dot and its name, a keyword rule whatever holds its name |
| DnsQueryOrigins.ServedWithinLifetime | src/dns/dns_query_service.cpp:617-624 | In every run what the cache serves is the packet of an earlier reply under the same key, and less than its lifetime has passed since that reply |
| DnsQueryOrigins.AnswersAreFounded | src/dns/dns_query_service.cpp:738-781 | In every run an answer that is delivered is, under the request's own ID, the packet of a reply under the request's own key: of the exchange it waited for, or of an earlier one within its lifetime |
| DnsQueryOutcomes.PacketReachesWaiters | src/dns/dns_query_service.cpp:765-780 | In every run a packet that an exchange brings reaches each request that waits for it, whatever its response code, with the ID of the request in its first two octets and otherwise unchanged; without room for an ID it is a framing error; nobody else is told anything |
| DnsQueryOutcomes.FailureReachesWaiters | src/dns/dns_query_service.cpp:765-777 | In every run an exchange that fails fails each of its waiters with its own error, and nobody else |
| DnsQueryOutcomes.CancellationIsTold | src/dns/dns_query_service.cpp:660-732 | A cancellation is told to its open request, a stop to every open one, and nothing else ends one from outside; only clearing empties the cache |
| DnsQueryOutcomes.AskersAloneAreTold | src/dns/dns_query_service.cpp:582-645 | A new request tells nobody else anything |
| DnsQueryOutcomes.RefusedIsTold | src/dns/dns_query_service.cpp:584-613 | A query to a stopped service is cancelled, one that is a response, has not one question or is shorter than a header is a framing error, and one whose policy names an unknown group other than the four built-in names a configuration error; nothing else changes |
| DnsQueryOutcomes.RouteIsNamed | src/dns/dns_query_service.cpp:600-615 | A query goes to the group that the policy names for its name, if it is configured, and otherwise to the default group |
| DnsQueryOutcomes.LiveEntryIsTold | src/dns/dns_query_service.cpp:617-624 | In every run a request that is not refused and whose key has a live entry is told its packet at once, under its own ID, without an exchange |
| DnsQueryOutcomes.NewRequestWaits | src/dns/dns_query_service.cpp:631-644 | In every run any other request waits for the exchange in flight for its key, which goes on as it was, or for a new one that sends its own query where it is routed; an expired entry goes alone |
| DnsQueryOutcomes.ReplyIsKept | src/dns/dns_query_service.cpp:745-763 | In every run a packet with a lifetime is kept until exactly that has passed, and costs no other entry while there is room; nothing else changes the cache |
| DnsQueryOutcomes.RepliesServeTheNext | src/dns/dns_query_service.cpp:617-624 | So whoever asks for the same next and in time is answered with that packet |
| QuicTransports.QuicDnsTransport.AddNewExchange | src/dns/quic_dns_transport.cpp:470-498 | The session is chosen, the exchange registered and submitted, or refused after a stop |
| QuicTransports.QuicDnsTransport.Candidate | src/dns/quic_dns_transport.cpp:479-486 | The loop finds the first of the least loaded sessions that accept one more exchange |
| QuicTransports.QuicDnsTransport.Select | src/dns/quic_dns_transport.cpp:479-495 | That session, or the most recent idle one, or a new one, becomes or stays active |
| QuicTransports.QuicDnsTransport.Join | src/dns/quic_dns_transport.cpp:185-188 | The exchange belongs to the session, and timers set before are stale |
| QuicTransports.QuicDnsTransport.Submit | src/dns/quic_dns_transport.cpp:189-228 | An exchange that cannot be sent fails at once, otherwise the session opens or sends |
| QuicTransports.QuicDnsTransport.CompleteExchange | src/dns/quic_dns_transport.cpp:325-359 | The exchange leaves its session and is told the result that was set (`QuicPoolOutcomes.ResultsReachExchanges` says so for every run); with the last one the session comes to rest |
| QuicTransports.QuicDnsTransport.CompleteIfHeld | src/dns/quic_dns_transport.cpp:325-359 | A result for an exchange that is over changes nothing |
| QuicTransports.QuicDnsTransport.CompleteRegistered | src/dns/quic_dns_transport.cpp:563-573 | The handler is called once and the registration is gone |
| QuicTransports.QuicDnsTransport.CancelRegistered | src/dns/quic_dns_transport.cpp:500-511 | A cancellation ends an exchange that is registered |
| QuicTransports.QuicDnsTransport.EnterIdleOrRetire | src/dns/quic_dns_transport.cpp:361-376 | A session without exchanges rests if it is connected and ready, and retires otherwise |
| QuicTransports.QuicDnsTransport.SessionIdle | src/dns/quic_dns_transport.cpp:535-554 | The session joins the end of the idle list, at most four long; after a stop it retires |
| QuicTransports.QuicDnsTransport.CloseOldest | src/dns/quic_dns_transport.cpp:549-553 | A fifth idle session closes the oldest one |
| QuicTransports.QuicDnsTransport.RetireSession | src/dns/quic_dns_transport.cpp:385-404 | A session retires once and leaves both lists |
| QuicTransports.QuicDnsTransport.CloseIdle | src/dns/quic_dns_transport.cpp:378-383 | An empty session retires |
| QuicTransports.QuicDnsTransport.SessionRetired | src/dns/quic_dns_transport.cpp:556-561 | The session is in neither list |
| QuicTransports.QuicDnsTransport.FailSession | src/dns/quic_dns_transport.cpp:406-433 | All exchanges of the session end with the error and it retires |
| QuicTransports.QuicDnsTransport.CompleteEach | src/dns/quic_dns_transport.cpp:430-432 | The loop tells each exchange of the session once |
| QuicTransports.QuicDnsTransport.DatagramOpened | src/dns/quic_dns_transport.cpp:251-300 | What becomes of a session whose datagram was opened or not |
| QuicTransports.QuicDnsTransport.OnIdleTimer | src/dns/quic_dns_transport.cpp:166-178 | Only the timer of the current rest retires the session |
| QuicTransports.QuicDnsTransport.CancelAll | src/dns/quic_dns_transport.cpp:239-249 | The loop cancels each exchange of a session, the last one settles it |
| QuicTransports.QuicDnsTransport.StopTransport | src/dns/quic_dns_transport.cpp:513-533 | All active sessions are cancelled and all idle ones closed |
| QuicTransports.QuicDnsTransport.CloseAll | src/dns/quic_dns_transport.cpp:525-529 | The loop closes each idle session |
| QuicPoolSpec.BestIsLeastLoaded | src/dns/quic_dns_transport.cpp:479-486 | The session chosen is the first of the least loaded ones; there is none only if all are full |
| QuicPoolSpec.ChoiceFits | src/dns/quic_dns_transport.cpp:479-495 | Every choice is an active session with room, the most recent idle one, or a new one |
| QuicPoolSpec.AddNewKeeps | src/dns/quic_dns_transport.cpp:470-498 | A new exchange keeps the pool coherent |
| QuicPoolSpec.CompleteKeeps | src/dns/quic_dns_transport.cpp:325-376 | A result keeps the pool coherent |
| QuicPoolSpec.CancelKeeps | src/dns/quic_dns_transport.cpp:500-511 | A cancellation keeps the pool coherent |
| QuicPoolSpec.FailKeeps | src/dns/quic_dns_transport.cpp:406-433 | A failed session leaves the pool coherent |
| QuicPoolSpec.OpenedKeeps | src/dns/quic_dns_transport.cpp:251-300 | An opened or failed datagram keeps the pool coherent |
| QuicPoolSpec.TimerKeeps | src/dns/quic_dns_transport.cpp:166-178 | A timer, stale or not, keeps the pool coherent |
| QuicPoolSpec.StopKeeps | src/dns/quic_dns_transport.cpp:513-533 | A stop keeps the pool coherent and leaves no session and no exchange |
| QuicPoolRuns.RunsAreValid | src/dns/quic_dns_transport.cpp:166-573 | Every state of every run is coherent |
| QuicPoolRuns.PoolIsCoherent | src/dns/quic_dns_transport.cpp:166-573 | In every reachable state open exchanges are partitioned among active sessions with 1 to 64 of them; at most 4 idle sessions, empty, connected, distinct, none active; all others are retired |
| QuicPoolRuns.ExactlyOnce | src/dns/quic_dns_transport.cpp:563-573 | In every run each exchange is open and untold or has been told exactly one thing for good; after a stop none is open |
| QuicPoolRuns.StaleTimerIsHarmless | src/dns/quic_dns_transport.cpp:166-178 | Once a resting session is reused, no timer set before ever retires it, in the rest of the run |
| QuicPoolOutcomes.ResultsReachExchanges | src/dns/quic_dns_transport.cpp:325-573 | In every run an open exchange is ended by the result that its own session sets for it, and told just that; by its deadline with a timeout; by a cancellation or a stop; by the failure of its session or connection with that error; every other event leaves it open where it is |
| QuicPoolOutcomes.NewExchangeIsHeldOrRefused | src/dns/quic_dns_transport.cpp:470-498 | In every run a new exchange is cancelled by a stopped pool, told what stands against it, or open in an active session |
| QuicPoolOutcomes.NewExchangeJoins | src/dns/quic_dns_transport.cpp:470-498 | In every run it joins an active session with the fewest exchanges, if one has less than 64; else the session that came to rest last; else a new one |
| QuicPoolOutcomes.SessionsRestInTurn | src/dns/quic_dns_transport.cpp:363-376 | In every run a session whose last exchange is answered comes to rest behind the others, or retires if its connection is not in order; of five that rest, the one that has rested longest retires |
| QuicPoolOutcomes.RestEndsWithItsTimer | src/dns/quic_dns_transport.cpp:166-178 | In every run a ring retires a session if and only if it rests and the timer was set for this rest |
| QuicPoolOutcomes.ObjectionIsFirst | src/dns/quic_dns_transport.cpp:189-210 | Which objection is raised against a query, exactly |
| DoqFraming.FragmentsDoNotMatter | src/dns/doq_dns_transport.cpp:100-149 | The verdict on a response depends on its octets only, not on their fragments (section 4.2 of RFC 9250) |
| DoqFraming.AcceptedIffFramed | src/dns/doq_dns_transport.cpp:124-143 | Accepted are exactly the messages with a matching length prefix and an ID of zero (sections 4.2 and 4.2.1 of RFC 9250) |
| DoqFraming.FrameRoundTrip | src/dns/doq_dns_transport.cpp:88-96 | A framed query is read back from any fragments, and its restored ID makes it the query again |
| DoqSessions.DoqSession.OnQuicReady | src/dns/doq_dns_transport.cpp:48-56 | Any protocol but DoQ fails the session; otherwise the queue is pumped |
| DoqSessions.DoqSession.Enqueue | src/dns/quic_dns_transport.cpp:219-221 | An exchange waits for its stream |
| DoqSessions.DoqSession.SetAndDrain | src/dns/quic_dns_transport.cpp:319-336 | A result that is set is delivered once and ends the exchange |
| DoqSessions.DoqSession.PumpOpenPendingExchanges | src/dns/doq_dns_transport.cpp:58-98 | The loop opens streams in order of arrival until the engine is blocked; exchanges that are over are passed over |
| DoqSessions.DoqSession.SendQuery | src/dns/doq_dns_transport.cpp:84-97 | The query goes out framed, with its ID zeroed, on a new stream |
| DoqSessions.DoqSession.OnStreamData | src/dns/doq_dns_transport.cpp:100-149 | A fragment is gathered for the exchange of the stream; unknown streams and exchanges that are over are ignored |
| DoqSessions.DoqSession.Gather | src/dns/doq_dns_transport.cpp:106-149 | Too many octets fail the exchange, the end of the stream judges them, otherwise it goes on |
| DoqSessions.DoqSession.Finish | src/dns/doq_dns_transport.cpp:121-148 | The exchange ends with the verdict on what was gathered |
| DoqSessions.DoqSession.Unframe | src/dns/doq_dns_transport.cpp:124-144 | The message without its prefix, exactly if the prefix fits and the ID is zero |
| DoqSessions.DoqSession.OnStreamClosed | src/dns/doq_dns_transport.cpp:151-164 | A closed stream is forgotten; its exchange fails unless it is over |
| DoqSessions.DoqSession.OnStreamReset | src/dns/doq_dns_transport.cpp:166-175 | A reset stream fails its exchange |
| DoqSessions.DoqSession.FailSession | src/dns/quic_dns_transport.cpp:406-433 | All exchanges of the session end with the error |
| DoqSessions.DoqSession.CancelExchange | src/dns/quic_dns_transport.cpp:230-237 | A cancelled exchange ends with the error |
| DoqSessionSpec.PumpKeeps | src/dns/doq_dns_transport.cpp:58-98 | Pumping keeps the invariant of queue, streams, exchanges and what was sent |
| DoqSessionSpec.DataKeeps | src/dns/doq_dns_transport.cpp:100-149 | Data keep it |
| DoqSessionSpec.ClosedKeeps | src/dns/doq_dns_transport.cpp:151-164 | A closed stream keeps it |
| DoqSessionSpec.EndJudgesAll | src/dns/doq_dns_transport.cpp:100-149 | The end of a stream judges all octets that came for it, whatever came between them; before that the exchange goes on unless there are too many |
| DoqSessionSpec.AnswersWereFramed | src/dns/doq_dns_transport.cpp:124-148 | An answer is what was framed with the ID of the query restored |
| DoqSessionSpec.SentOnce | src/dns/doq_dns_transport.cpp:84-97 | Each query is sent on one stream only, and framed |
| DoqRuns.RunsAreValid | src/dns/doq_dns_transport.cpp:48-175 | Every state of every run satisfies the invariant |
| DoqRuns.ExactlyOnce | src/dns/quic_dns_transport.cpp:338-359 | In every run each exchange is live and untold, or has been told exactly one thing for good; a retired session has no live ones |
| DoqRuns.AnswersAreFounded | src/dns/doq_dns_transport.cpp:88-148 | In every run an exchange with an answer was sent framed on exactly one stream, and the octets that came back for it are exactly the answer framed, under the ID of its query |
| DoqRuns.RunRemembers | src/dns/doq_dns_transport.cpp:84-148 | Queries, what was sent and what was told never change |
| DoqOutcomes.EventsDecide | src/dns/doq_dns_transport.cpp:58-175 | In every run a live exchange ends with the message that its stream delivers framed, under its own ID; with a framing error for any other octets; with the error that the message is refused with; with an I/O error if its stream is closed or reset; with the error of a refused stream, of the handshake, of the session or of its cancellation; and whatever happens to others leaves it live |
| DoqOutcomes.PumpSendsInTurn | src/dns/doq_dns_transport.cpp:58-98 | Queries go out in the order of their exchanges, framed with an ID of zero, on consecutive streams, as many as the engine opens streams for; the others wait on in order, or all fail if it refuses one |
| Nonces.IncrementNonce | src/transport/proxy/crypto.cpp:873-879 | The loop in place is the little-endian successor |
| Nonces.NextCounts | src/transport/proxy/crypto.cpp:873-879 | As a number, the nonce grows by one and wraps to zero at the end of its length |
| Nonces.AfterCounts | src/transport/proxy/crypto.cpp:873-879 | As a number, many increments are one addition |
| Nonces.NoncesDiffer | src/transport/proxy/crypto.cpp:873-879 | No nonce comes back before all of its length have been used |
| ShadowsocksStreams.ShadowsocksStream.AppendTcpRecord | src/outbound/shadowsocks_outbound.cpp:81-100 | One record: sealed length, sealed payload, two nonces |
| ShadowsocksStreams.ShadowsocksStream.Write | src/outbound/shadowsocks_outbound.cpp:204-245 | Refusals, and otherwise the records of the payloads of at most 0x3fff octets; on failure nothing is sent, but the nonces used are gone |
| ShadowsocksStreams.ShadowsocksStream.EncodeAll | src/outbound/shadowsocks_outbound.cpp:220-233 | The loop cuts the data and appends record after record |
| ShadowsocksStreams.ShadowsocksStream.Read | src/outbound/shadowsocks_outbound.cpp:247-277 | One read: what is pending, or what one more record brings |
| ShadowsocksStreams.ShadowsocksStream.ReceiveLength | src/outbound/shadowsocks_outbound.cpp:375-399 | The length is opened and checked |
| ShadowsocksStreams.ShadowsocksStream.ReceivePayload | src/outbound/shadowsocks_outbound.cpp:401-427 | The payload is opened and becomes what is pending |
| ShadowsocksStreams.ShadowsocksStream.CopyPending | src/outbound/shadowsocks_outbound.cpp:490-504 | As much as fits is handed out, the rest stays |
| ShadowsocksStreams.ShadowsocksStream.ReadExact | src/outbound/shadowsocks_outbound.cpp:431-455 | Exactly the octets asked for, from the initial ones and then from the carrier, or none |
| ShadowsocksStreams.ShadowsocksStream.ReadExactCarrier | src/outbound/shadowsocks_outbound.cpp:510-544 | The loop pulls pieces of any size until there are enough |
| ShadowsocksStreams.ShadowsocksStream.OnWritten | src/outbound/shadowsocks_outbound.cpp:187-202 | The next write may begin |
| ShadowsocksSpec.CutIsWhole | src/outbound/shadowsocks_outbound.cpp:220-233 | The payloads of a write put together are the data |
| ShadowsocksSpec.RecordIsRead | src/outbound/shadowsocks_outbound.cpp:375-427 | A record that was written is read back, and moves both nonces by two |
| ShadowsocksSpec.ReadTakes | src/outbound/shadowsocks_outbound.cpp:247-277 | One read takes at most one record and delivers something if anything is left |
| ShadowsocksSpec.WritesAreRead | src/outbound/shadowsocks_outbound.cpp:204-277 | For all writes and all read sizes, the reads deliver a prefix of what was written, and all of it once nothing is left; the reader has moved by two nonces for every record |
| ShadowsocksSpec.SoundCipherExists | src/transport/proxy/crypto.cpp:607-700 | What is asked of a cipher can be met |
| ShadowsocksSpec.EnoughReadsGetAll | src/outbound/shadowsocks_outbound.cpp:247-277 | Reads with room leave nothing behind if there are enough of them |
| ShadowsocksSpec.WritesCompose | src/outbound/shadowsocks_outbound.cpp:204-245 | Several writes put the same octets on the carrier as their payloads in one sequence of records |
| ShadowsocksLayout.PiecesAreFull | src/outbound/shadowsocks_outbound.cpp:217-221 | Every piece of a write but the last is 16383 octets long |
| ShadowsocksLayout.WireIsRecords | src/outbound/shadowsocks_outbound.cpp:81-100 | What is written is one record for each piece: its length, high octet first, under one nonce, and the piece under the next |
| ShadowsocksLayout.ReadDecides | src/outbound/shadowsocks_outbound.cpp:375-427 | What a read makes of any octets at all: the payload of the record in front, or exactly which failure |
| ShadowsocksLayout.ReadTakesPending | src/outbound/shadowsocks_outbound.cpp:247-277 | A read takes as much waiting plaintext as fits, and leaves the rest |
| DnsUpstreams.DnsUpstreamGroup.NextStartIndex | src/dns/dns_upstream.cpp:376-381 | Round-robin start, with the wrap of the counter |
| DnsUpstreams.DnsUpstreamGroup.SelectMember | src/dns/dns_upstream.cpp:383-407 | The two loops: a healthy member first, any untried one otherwise |
| DnsUpstreams.DnsUpstreamGroup.SelectHealthy | src/dns/dns_upstream.cpp:389-396 | The first loop finds the first healthy untried member |
| DnsUpstreams.DnsUpstreamGroup.SelectUntried | src/dns/dns_upstream.cpp:398-406 | The second loop finds the first untried member |
| DnsUpstreams.DnsUpstreamGroup.RecordFailure | src/dns/dns_upstream.cpp:409-421 | The pause doubles from a quarter of a second up to half a minute; cancellations do not count |
| DnsUpstreams.DnsUpstreamGroup.BackoffOf | src/dns/dns_upstream.cpp:416-419 | The doubling pause |
| DnsUpstreams.DnsUpstreamGroup.RecordSuccess | src/dns/dns_upstream.cpp:423-428 | The member is healthy again |
| DnsUpstreams.GroupOperation.Start | src/dns/dns_upstream.cpp:128-141 | The exchange starts at the given member |
| DnsUpstreams.GroupOperation.TryNext | src/dns/dns_upstream.cpp:166-207 | The head of the loop: too late, no member, or the next one with its share of the time |
| DnsUpstreams.GroupOperation.OnMember | src/dns/dns_upstream.cpp:223-269 | What a return makes of the exchange and of the health of its member (told code by code in `DnsUpstreamOutcomes`) |
| DnsUpstreams.GroupOperation.Failed | src/dns/dns_upstream.cpp:231-266 | The failure is recorded; another member is tried, at a second reading of the clock, or the exchange ends |
| DnsUpstreams.GroupOperation.FinishWith | src/dns/dns_upstream.cpp:299-312 | Only the first outcome is delivered |
| DnsUpstreams.GroupOperation.Cancel | src/dns/dns_upstream.cpp:143-157 | A cancellation ends an exchange that is open |
| DnsUpstreamSpec.SelectIsNearest | src/dns/dns_upstream.cpp:383-407 | The member selected is the nearest healthy untried one in cyclic order if there is any, else the nearest untried one; none exactly if all have been tried |
| DnsUpstreamSpec.HeadKeeps | src/dns/dns_upstream.cpp:166-207 | The head of the loop keeps the invariant and tries at most one more member |
| DnsUpstreamSpec.ReturnedKeeps | src/dns/dns_upstream.cpp:223-269 | A reply keeps it; the loop is abandoned if and only if the member reports a cancellation |
| DnsUpstreamRuns.TriedOnce | src/dns/dns_upstream.cpp:164-269 | In every run each member is tried at most once, and there is at most one outcome |
| DnsUpstreamRuns.Completes | src/dns/dns_upstream.cpp:164-269 | Unless a member reports a cancellation, after each return the exchange is over or one more member is being tried |
| DnsUpstreamRuns.CompletesInTime | src/dns/dns_upstream.cpp:164-269 | So after as many returns as there are members there is exactly one outcome |
| DnsUpstreamRuns.FairShares | src/dns/dns_upstream.cpp:190-198 | If members keep to their deadlines, every member tried is given at least total / n of the time |
| DnsUpstreamRuns.LateStartBlamesFirst | src/dns/dns_upstream.cpp:167-176 | In every run the health of a member that was never tried changes if and only if the exchange starts at or after its deadline and the charge makes a difference to the first member, which it then falls on |
| DnsUpstreamRuns.TouchedWasTried | src/dns/dns_upstream.cpp:231-254 | Every member whose health an exchange changes has been tried, but for that one case |
| DnsUpstreamRuns.ChargedTwiceIff | src/dns/dns_upstream.cpp:240-263 | One pass of the loop: a member that fails is charged once, and a second time exactly if the deadline passes before the head of the loop reads the clock |
| DnsUpstreamRuns.AbandonedIff | src/dns/dns_upstream.cpp:223-230 | An exchange is abandoned exactly when the member being tried reports a cancellation |
| DnsUpstreamRuns.AbandonedWaitsForCancel | src/dns/dns_upstream.cpp:223-230 | In every run an abandoned exchange has no outcome until it is cancelled from outside, and exactly that one then |
| DnsUpstreamRuns.BackoffGrows | src/dns/dns_upstream.cpp:409-421 | The pause never shrinks with more failures and stays within its limits |
| DnsUpstreamOutcomes.GoodResponseEnds | src/dns/dns_upstream.cpp:232-237 | In every run a response with a code other than 2 and 5 ends the exchange with just that response, and its member is healthy again |
| DnsUpstreamOutcomes.BadResponseGoesOn | src/dns/dns_upstream.cpp:238-252 | In every run a response with code 2 or 5 is charged to its member and passed on if the deadline has come or no member is left; else the nearest untried healthy member is tried with its share of the time, unless the clock has run out by then |
| DnsUpstreamOutcomes.ErrorGoesOn | src/dns/dns_upstream.cpp:253-269 | In every run an error is charged to its member and passed on if the deadline has come or no member is left; else the next one is tried, unless the clock has run out by then |
| DnsUpstreamOutcomes.MemberCancellationAbandons | src/dns/dns_upstream.cpp:226-230 | A member's cancellation leaves no outcome and charges nobody |
| DnsUpstreamOutcomes.CancellationEnds | src/dns/dns_upstream.cpp:140-158 | The caller's cancellation is the outcome of an exchange without one; no event changes an exchange that has one |
| DnsUpstreamOutcomes.FirstAttempt | src/dns/dns_upstream.cpp:164-198 | An exchange starts with the nearest healthy member from the starting index on, with its share of the time; without members or at the deadline it fails at once |
| DnsUpstreamOutcomes.BackoffDoubles | src/dns/dns_upstream.cpp:409-421 | The pause is 250 ms after one failure and doubles with each further one, up to 30 s |
| DnsUpstreamOutcomes.MarkedAreTried | src/dns/dns_upstream.cpp:183-186 | The members marked as attempted are exactly those that have been tried |
| Budgets.ShareLeaves | src/dns/dns_upstream.cpp:190-198 | Who keeps to the share leaves enough for everybody else |
| Bootstraps.MergeServers | src/dns/bootstrap_resolver.cpp:179-198 | The loop keeps the first of equal endpoints and drops unusable ones |
| BootstrapSpec.MergeKeepsFirst | src/dns/bootstrap_resolver.cpp:179-198 | The result holds exactly the usable endpoints, once each, in order of first appearance |
| Bootstraps.BootstrapRequest.Drive | src/dns/bootstrap_resolver.cpp:312-336 | The driver passes over servers whose socket does not open, up to the next wait |
| Bootstraps.BootstrapRequest.OpenServer | src/dns/bootstrap_resolver.cpp:358-370 | A server starts with its share of the time and a timer of its own |
| Bootstraps.BootstrapRequest.OnAnswer | src/dns/bootstrap_resolver.cpp:402-449 | After the second answer the request ends if there is any address, else the next server is asked |
| Bootstraps.BootstrapRequest.Collect | src/dns/bootstrap_resolver.cpp:434-441 | The loop collects each address once, in order |
| Bootstraps.BootstrapRequest.Next | src/dns/bootstrap_resolver.cpp:322-331 | The next server, unless it is too late |
| Bootstraps.BootstrapRequest.OnServerDeadline | src/dns/bootstrap_resolver.cpp:487-506 | Only the timer of the current attempt has any effect |
| Bootstraps.BootstrapRequest.OnDeadline | src/dns/bootstrap_resolver.cpp:511-526 | The overall deadline pushes the request into the system phase, unless it is there |
| Bootstraps.BootstrapRequest.Finish | src/dns/bootstrap_resolver.cpp:536-552 | Only the first outcome is delivered |
| BootstrapSpec.StepKeeps | src/dns/bootstrap_resolver.cpp:305-552 | Every event keeps the order of servers and the single outcome |
| BootstrapSpec.RunsAreOrderly | src/dns/bootstrap_resolver.cpp:305-450 | In every run servers are asked at most once each, in order, and there is at most one outcome, which stays |
| BootstrapSpec.FairShares | src/dns/bootstrap_resolver.cpp:362-369 | If servers return in time, each one asked is given at least total / n |
| BootstrapSpec.StaleTimerIsHarmless | src/dns/bootstrap_resolver.cpp:498-501 | The timer of an earlier server does nothing, in every run |
| BootstrapSpec.FirstAnswerMayBeLost | src/dns/bootstrap_resolver.cpp:376-450 | A concrete run in which addresses from a first answer are lost |
| BootstrapSpec.StepCompletes | src/dns/bootstrap_resolver.cpp:402-449 | A request ends exactly when a second answer in time leaves anything gathered, when the system answers, or when it is cancelled; and with what |
| BootstrapSpec.FallsBackIff | src/dns/bootstrap_resolver.cpp:312-336 | A request falls back to the system exactly when its server is given up and it is too late or no other socket can be opened |
| BootstrapSpec.DeliveredIsOutcome | src/dns/bootstrap_resolver.cpp:445-448 | What a second answer delivers is everything gathered, and the only outcome of the run |
| BootstrapSpec.FallenBackIsLost | src/dns/bootstrap_resolver.cpp:452-482 | In every run, from the fall-back on no event delivers what was gathered; only the system or a cancellation ends the request |
| BootstrapSpec.DeliveredIff | src/dns/bootstrap_resolver.cpp:305-482 | A request that is over has delivered what was gathered if and only if it never fell back to the system and no cancellation ended it |
| BootstrapSpec.GatherIsUnion | src/dns/bootstrap_resolver.cpp:425-444 | What is gathered is every address once, new ones behind in the order in which they come |
| BootstrapSpec.NextServerIsAsked | src/dns/bootstrap_resolver.cpp:312-369 | A server that is given up hands over to the first one behind it whose socket can be opened, with an equal share of the time left, and what was gathered stays |
| BootstrapSpec.SecondQueryFollows | src/dns/bootstrap_resolver.cpp:402-436 | After a first answer in time the same server is asked for AAAA records |
| DnsCodecs.EncodeQueryPacket | src/dns/dns_codec.cpp:507-543 | The loop over the labels builds exactly the message, or refuses exactly the invalid names |
| DnsCodecs.AppendLabels | src/dns/dns_codec.cpp:523-538 | Each label between two dots goes out behind its length, unless one is empty or too long |
| DnsCodecs.NextLabel | src/dns/dns_codec.cpp:525-527 | The text up to the next dot is the first label of the rest |
| DnsCodecs.EncodePlainResponse | src/dns/dns_codec.cpp:654-702 | The response before flags and OPT are patched |
| DnsCodecs.AppendAddresses | src/dns/dns_codec.cpp:681-700 | The loop appends one record for each address, or fails if one does not fit |
| DnsCodecs.AppendOptRecord | src/dns/dns_codec.cpp:66-92 | The OPT record goes last and the header counts it |
| DnsCodecs.EncodeQueryResponse | src/dns/dns_codec.cpp:704-723 | Succeeds exactly for an encodable pair of query and answer, and patches flags over the plain response |
| DnsCodecs.EncodeErrorResponse | src/dns/dns_codec.cpp:725-743 | The same for an error without answers |
| DnsRoundTrip.ResponseIsReadBack | src/dns/dns_codec.cpp:654-723 | A parser of its own reads back the normalized question, the addresses in order, their TTL and the whole response code (sections 4.1.2 to 4.1.4 of RFC 1035, section 6.1.3 of RFC 6891) |
| DnsRoundTrip.QueryIsReadBack | src/dns/dns_codec.cpp:507-543 | The same for queries |
| DnsRoundTrip.ErrorIsReadBack | src/dns/dns_codec.cpp:725-743 | The same for error responses, ID included |
| DnsCodecFields.ResponseFields | src/dns/dns_codec.cpp:704-723 | Field by field with the weights of RFC 1035: ID, QR, opcode, AA, TC, RD, RA, Z, AD, CD and RCODE; the question; the addresses that were given, in order; and the OPT record with size, version, flags, options and the upper part of the code |
| DnsCodecFields.ErrorFields | src/dns/dns_codec.cpp:725-743 | The same for error responses, which are never authoritative and hold no records but OPT |
| DnsCodecFields.QueryFields | src/dns/dns_codec.cpp:507-543 | A query reads as the one question with RD set and nothing else |
| DnsCodecFields.PlainFields | src/dns/dns_codec.cpp:654-702 | The plain response has QR and RA set, RD and AA as given, and no OPT record |
| DnsCodecFields.ResponseIsBuiltIff | src/dns/dns_codec.cpp:704-710 | Exactly which responses are built, and that the others are framing errors |
| DnsCodecFields.ErrorIsBuiltIff | src/dns/dns_codec.cpp:725-737 | Exactly which error responses are built |
| DnsCodecFields.QueryIsBuiltIff | src/dns/dns_codec.cpp:507-538 | A query is built if and only if its name fits |
| DnsCodecFields.LabelsGoodIff | src/dns/dns_codec.cpp:523-538 | The loop accepts the labels if and only if no dot comes first, no two together, and one within any 64 octets |
| DnsCodecFields.FoundIsFirst | src/dns/dns_codec.cpp:68-71 | The OPT record that is answered is the first one of the query |
| DnsRoundTrip.CodeIsSplit | src/dns/dns_codec.cpp:66-92 | Four bits in the header and eight in the OPT record give the 12-bit code back |
| DnsRoundTrip.LabelsAreRead | src/dns/dns_codec.cpp:523-539 | Encoded labels are read back wherever they stand in a message |
| DnsRoundTrip.JoinOfSplit | src/dns/dns_codec.cpp:523-538 | The labels joined by dots are the name |
| DnsRoundTrip.AddressesAreRead | src/dns/dns_codec.cpp:681-700 | Address records are read back, names through the pointer to the question |
| DnsTruncation.TruncateUdpResponse | src/dns/dns_codec.cpp:745-860 | The three nested loops and the last resort, stage by stage; they terminate |
| DnsTruncation.DeleteSet | src/dns/dns_codec.cpp:807-825 | The loop from the end deletes exactly one RRset |
| DnsTruncation.FindLastRemovable | src/dns/dns_codec.cpp:789-806 | The last record that is not OPT in the additional section |
| DnsTruncation.DeleteOpt | src/dns/dns_codec.cpp:845-858 | Exactly the OPT records go |
| DnsTruncationSpec.StagesKeep | src/dns/dns_codec.cpp:784-858 | At every stage RRsets are whole or gone (section 9 of RFC 2181), in the order additional, authority, answer, OPT after all else |
| DnsTruncationSpec.FirstFitIsFirst | src/dns/dns_codec.cpp:830-859 | The message returned is that of the first stage that fits |
| DnsTruncationSpec.ShortenedResponse | src/dns/dns_codec.cpp:745-860 | Every shortened message fits, carries TC, holds whole RRsets in that order, and no earlier stage would have fitted |
| DnsTruncationSpec.ShortensIff | src/dns/dns_codec.cpp:745-860 | Shortening succeeds if and only if the response fits as it is, or some stage fits and all before it can be written |
| DnsTruncationSpec.StagesLoseOneSet | src/dns/dns_codec.cpp:784-858 | From stage to stage exactly one RRset goes: that of the last record that may go, of the first section that has one; OPT goes when nothing else can |
| DnsAnswers.SearchCname | src/dns/dns_codec.cpp:570-575 | The first CNAME record of a name that has a target |
| DnsAnswers.FollowCnames | src/dns/dns_codec.cpp:566-587 | The loop follows at most eight records to names not visited, and takes the least TTL |
| DnsAnswers.CollectAddresses | src/dns/dns_codec.cpp:588-601 | The loop takes all addresses of the right type at the end of the chain |
| DnsAnswers.EvaluateAnswer | src/dns/dns_codec.cpp:556-606 | The whole evaluation of a response |
| DnsAnswersSpec.AnswerIsSound | src/dns/dns_codec.cpp:556-606 | The addresses are those of exactly the matching records at the end of a chain of at most eight CNAME records of the response from the question's name; the TTL is at most that of each record used |
| DnsAnswersSpec.FollowedIsPath | src/dns/dns_codec.cpp:569-587 | What is followed is a chain of records of the response, whose names are pairwise different |
| DnsAnswersSpec.FollowedIsMaximal | src/dns/dns_codec.cpp:569-583 | Following stops only after eight records or where no record leads to a new name |
| DnsAnswersSpec.UsedIsComplete | src/dns/dns_codec.cpp:588-601 | No address record at the end of the chain is left out |
| DnsAnswersSpec.FindCnameIsFirst | src/dns/dns_codec.cpp:570-575 | The record that is followed is the first CNAME record (type 5) for the name; there is none only if no record is one |
| AddressResolvers.AddressOperation.OnReply | src/dns/address_resolver.cpp:73-154 | What each reply leads to: the answer, an error, or one more query |
| AddressResolvers.AddressOperation.Chase | src/dns/address_resolver.cpp:127-148 | The first CNAME record of the current name leads to the next query, unless it was visited or eight were sent |
| AddressResolvers.AddressOperation.Complete | src/dns/address_resolver.cpp:156-162 | The answer goes out under the original question and with the least TTL of the chain |
| AddressResolvers.AddressOperation.FinishWith | src/dns/address_resolver.cpp:164-170 | Only the first outcome is delivered |
| AddressResolvers.AddressOperation.Cancel | src/dns/address_resolver.cpp:46-61 | A cancellation takes effect when the query returns |
| AddressResolverSpec.StepKeeps | src/dns/address_resolver.cpp:73-154 | Every event keeps the chain that leads through the visited names |
| AddressResolverSpec.RunsAreBounded | src/dns/address_resolver.cpp:73-154 | In every run at most eight queries are sent, for distinct names, and at most one outcome is delivered, which stays |
| AddressResolverSpec.FollowedWereReceived | src/dns/address_resolver.cpp:127-148 | In every run each record that led from one query to the next stands in a response that was received |
| AddressResolverSpec.CompletedOnce | src/dns/address_resolver.cpp:101-170 | Which response a resolution was completed with |
| AddressResolverSpec.AddressesAreAtEndOfChain | src/dns/address_resolver.cpp:73-162 | In every run, addresses delivered are those of exactly the matching records of the completing response, at the end of one CNAME chain from the original name through all queries, each record of which stands in a response received in answer to the query under way then (section 3.6.2 of RFC 1034); the TTL is at most that of every record of the chain and every address |
| AddressResolverSpec.ResponseDecides | src/dns/address_resolver.cpp:117-149 | In every run a response without addresses, with code 0 and to an address query, leads to the next query if and only if its first CNAME record for the name asked last has a new target and fewer than eight names were asked; any other response is delivered with its own code and addresses |
| AddressResolverSpec.FailureDecides | src/dns/address_resolver.cpp:101-116 | In every run an error ends a resolution as it is, a message that is no response to one question with a framing error, anything after a cancellation with that |
| Names.NormalizedTwice | src/dns/dns_codec.cpp:608-618 | Normalizing a name twice is the same as once |
| Names.NormalFormIsUnique | src/dns/dns_codec.cpp:608-618 | The normal form of a name is the name without dots at its end and with ASCII letters in lower case, and nothing else |
| Names.NormalizeName | src/dns/dns_codec.cpp:608-618 | The loops compute it |
| TcpRelays.TcpRelay.OnRead | src/proxy/tcp_relay.cpp:96-134 | A chunk is written on, the end of the stream ends the direction |
| TcpRelays.TcpRelay.OnWritten | src/proxy/tcp_relay.cpp:96-134 | The counter moves, the activity is noted and the next read starts |
| TcpRelays.TcpRelay.OnFailure | src/proxy/tcp_relay.cpp:80-134 | A failure in one direction ends the whole relay |
| TcpRelays.TcpRelay.WatchIdle | src/proxy/tcp_relay.cpp:136-163 | The loop of the watchdog up to its next sleep |
| TcpRelays.TcpRelay.OnWake | src/proxy/tcp_relay.cpp:136-163 | What the watchdog finds when it wakes |
| TcpRelays.TcpRelay.OnSleepFailed | src/proxy/tcp_relay.cpp:154-158 | A failed sleep ends the watchdog and nothing else |
| TcpRelays.TcpRelay.Touch | src/proxy/tcp_relay.cpp:165-171 | Activity is noted unless the relay is over |
| TcpRelays.TcpRelay.FinishRelay | src/proxy/tcp_relay.cpp:173-189 | The completion handler is called the first time only |
| TcpRelaySpec.StepKeeps | src/proxy/tcp_relay.cpp:80-189 | Every step of either pump, of the watchdog or a stop keeps the relay's invariant |
| TcpRelaySpec.RelayIsFaithful | src/proxy/tcp_relay.cpp:96-189 | In every interleaving each side gets the initial data and then a prefix of what was read, counters never run ahead of it, and the completion is reported at most once |
| TcpRelaySpec.CleanEndCountsAll | src/proxy/tcp_relay.cpp:80-134 | After a clean end both ways the report counts all octets, and all were delivered |
| TcpRelaySpec.WatchdogIsPatient | src/proxy/tcp_relay.cpp:136-163 | In every run the watchdog that wakes up ends the relay if and only if the launch and every completed write before it lie at least five minutes back |
| TcpRelaySpec.LastActivityIsLatest | src/proxy/tcp_relay.cpp:109-124 | In every run that goes on, the activity noted is the latest of the launch and all completed writes |
| TcpRelaySpec.WatchdogIsAwake | src/proxy/tcp_relay.cpp:144-155 | While the relay goes on, the watchdog wakes up no later than five minutes after some activity |
| TcpRelaySpec.WatchdogStays | src/proxy/tcp_relay.cpp:144-162 | The watchdog leaves a relay that goes on only if its sleep fails |
| TcpRelaySpec.CompletesOnce | src/proxy/tcp_relay.cpp:80-94 | After a stop, or once the supervisor has gone on, the completion has been reported exactly once, and for good |
| TcpRelaySpec.ReportsAtOnce | src/proxy/tcp_relay.cpp:80-189 | In every run the completion is reported at the first failed read or write, at the end of both sides or of the watchdog, at a stop, or when the watchdog finds five minutes without activity: at once, with the counters as they are, and by no other event |
| TcpRelaySpec.EndedDirectionsStay | src/proxy/tcp_relay.cpp:96-134 | After a failed or final read or a failed write nothing is read, delivered or counted in that direction any more |
| TcpRelaySpec.WatchdogSleeps | src/proxy/tcp_relay.cpp:144-155 | A watchdog that goes on sleeps thirty seconds, or what is left of five minutes without activity |

## Left out

Members whose statement has a limit of its own:

- DnsQuerySharing.WaitersAgree: holds for routers that send no two names so that they clash; `DnsQuerySharing.AgreeIffNoClash` shows that nothing less will do for packets whose wire and questions are handed in side by side, and `DnsQuerySharing.NamedQueriesAgree` needs no such condition for others.
- DnsQuerySpelling.SpelledQueriesAgree: a question whose name uses a pointer is not covered, since a pointer may lead into the transaction ID.
- DnsQueryOrigins.ServedWithinLifetime: a cached packet is served unchanged, so the TTLs inside it do not age; the code does not age them either.
- DnsUpstreamRuns.Completes: assumes that no member reports a cancellation, since the loop then returns without an outcome (`src/dns/dns_upstream.cpp:226-230`).
- DnsUpstreamRuns.FairShares: assumes that members return, and the loop goes on, by the deadline they were given; nothing in the loop enforces it.
- BootstrapSpec.FairShares: assumes the same of bootstrap servers; the timer that enforces it is an event of its own.
- AddressResolverSpec.AddressesAreAtEndOfChain: assumes that each response answers the question that was sent, which the transports check (`DnsTransportSpec.ExactlyOnce`), not the resolver.
- TcpSessionRuns.FramesGoOutOnce: assumes that no ID is used again while its old frame is in the queue or being written, because the queue knows IDs only; `TcpSessionRuns.ReusedIdIsForgotten` and `TcpSessionRuns.SendsTwice` show what happens otherwise. `TcpSessionCopies.CopiesAddUp` counts the copies in every run, and `DnsTransportFrames.FramesGoOutOnce` discharges the assumption from the order in which the transport gives IDs out.
- TcpSessionOrder.FramesGoOutInTurn: assumes the same.
- DotSessionFrames.FramesGoOutOnce: assumes the same of the IDs of the TLS transport, whose allocator is not modelled a second time.
- TcpSessions.TcpSession.DeadlineFired: a deadline fails whichever request holds its ID when it fires, as in the code; that no request times out early is not stated, because an ID may be in use again by then.
- ShadowsocksSpec.WritesAreRead: no read is cancelled in between, and one read is one step.
- OutboundRegistry.MembersTakeTurns: as long as the 64-bit counter does not wrap; where it does, a turn may be skipped or repeated unless the number of members divides 2^64.
- DnsCodecs.EncodeQueryPacket: names are strings of characters below 256, one for each octet.
- DnsTruncation.TruncateUdpResponse: parsing and writing of messages by c-ares are a given record list and an arbitrary function of it; failures inside c-ares other than those of writing are not modelled.

Simplifications:

- Objects shared by several owners (operations, sessions, exchanges) are records under numbers of their own, kept in maps; their addresses and reference counts are not modelled.
- Threads, memory ordering, the posting of handlers to other schedulers and the lifetime of coroutines are not modelled; a posted step runs at some later time, or at once.
- The clock never runs backwards, as the steady clock promises, and is read once for each step, except where two readings matter (`FakeIp.FakeIpStore.Resolve`, `DnsUpstreams.GroupOperation.OnMember`).
- Counters of 64 bits that only number things (exchanges, generations) do not wrap; the turn counters of the registry and of the upstream group do.
- QUIC callbacks are steps of their own and never nested inside another step; setting a result and draining it is one step.
- The QUIC pool treats `ready()` of a connection as a parameter, and submission over HTTP/3 as an event that delivers a result.
- Decoding of a received message is a parameter in the transports and in `doq.dfy`; sockets, dialers and the system resolver are events.
- In the TCP session a frame's length and body each arrive in one piece; a missing dialer fails like a dialer that cannot connect.
- Salt exchange, obfuscation and TLS wrapping around Shadowsocks records.
- Flags are divided by powers of two instead of masked; the constants are those of the mask 0x7910.

Not modelled:

- The operations of `src/dns/dot_dns_transport.cpp` around its session: the same design as in `dns_transport.cpp`, with the same ID allocator.
- DNS over HTTPS (`doh1`, `doh2` and `doh3` transports): plumbing around HTTP libraries.
- `ech_resolver.cpp`, `connection_registry.cpp`, `proxy_address.hpp`: easy members.
- Configuration validation, connect chains of the other outbounds, HTTP forwarding, `main.cpp` and the scripts.
