# Portmaster kernel extension: a verified model

This project models the connection and verdict engine of the Portmaster Windows kernel
extension, its packet parsing and rewriting, and the handover protocols around it, and
proves what they guarantee. `dafny verify dfyconfig.toml` checks all of it.

The parts and how they fit together:

- **Requests** (`IdCache.dfy`, `IdCacheRuns.dfy`, `RequestCache.dfy`). Packets waiting for a
  userspace verdict: a queue ordered by ID, a reverse index by connection instance, the
  requests being applied and their thread IDs. The class is proved against functions on an
  abstract cache; the promises over whole runs are lemmas about those functions.
- **Connections** (`ConnectionTable.dfy`, `ConnectionRuns.dfy`, `ConnectionMap.dfy`). The
  three-level adaptive index of one address family is proved against plain lists ordered by
  endpoint and insertion. `Valid` says that the index stands for the table its operations
  have made, so what holds of every reachable table holds of every reachable index.
- **Lifecycle** (`Lifecycle.dfy`, `LifecycleProof.dfy`, `LifecycleTheorems.dfy`,
  `LifecycleMeaning.dfy`). Generations, requests, deferred TCP closures and events as one
  transition system: a step is one critical section, and work a thread does after leaving one
  is an outstanding job that any later step may run. `ConnectionLifecycle.dfy` shows that the maps of both families implement the
  generation map used there: every map operation of either family, over every run, is the
  protocol's effect on the generations. The request cache is used through the functions the
  class is proved against.
- **Packets** (`Ipv6Walk.dfy`, `Inspector.dfy`, `PacketLayout.dfy`, `LazyInspector.dfy`,
  `Checksum.dfy`, `Rewrite.dfy`, `Redirect.dfy`). The bounded extension-header walk, the pure
  parse and what it gives for packets laid out from field values, the lazy inspector over a
  source whose reads may fail, in-place rewriting with checksums, and the redirect round trip.
- **Stream and gate** (`ReadStream.dfy`, `DispatchGate.dfy`). Fragmentation in the driver and
  reassembly in the client; admission, sessions and unload as a transition system.
- **Suspensions** (`Suspensions.dfy`). Reference-counted holds on suspended processes.

Where a promise does not hold of the code as it stands, the code is modelled as it is, a
lemma gives the case and another says exactly when the promise holds:

- Skipping the redirect scan loses matches exactly when special ports are ignored and the key
  can be an alias (`ScanSkipLossless`).
- A quoted identity accepted from an ICMP error differs from the inspector's own key of the
  quoted bytes exactly for the first fragment of an IPv4 packet, when fragments are left to
  reassembly (`QuoteNamesKey`, `FirstFragmentQuote`).
- The source says that a replacement file owner always begins at a record boundary. It is
  always accepted at one, because the discard of the saved fragment cannot fail
  (`NewOwnerAtBoundary`, `DiscardSucceeds`). But `driver_read` does not compare its file with
  the owner: a read of the old file that passes the gate only after the new owner was accepted
  can leave a fragment, and the new owner's first read then starts inside a record
  (`LateReadSplitsRecord`). Whether that can happen is decided at the handover: it can, if and
  only if the driver is not unloading and a read of another file already waits outside the gate
  at passive level (`HandoverExact`). Reads of other files that arrive only later are left aside
  there; a file object whose last handle is closed gets none.
- The client does not hand over every record: one that is too large for the pipe, or whose
  send fails, is dropped exactly while a remote client stays connected (`LostExactly`;
  `OversizedLost` is the case).

The publication interface accepts a packet under its generation's redirect alias as well as
under its own tuple. A verdict for an alias packet is lost when the redirect changes meanwhile,
although the generation is live (`LiveVerdictApplies` has the exact condition,
`LiveVerdictDiscarded` the case). All three callers publish under the generation's own tuple,
and for those the verdict is applied in every continuation in which the generation lives
(`OwnTupleVerdictApplies`).

Assumptions, each visible in a contract or in the step relation: clock readings are positive
where an end time is written; the instance and request counters do not wrap (the generation
counter of the suspensions does, and is modelled so); the system hands out no process handle
that is still open; the packet library's header checks and checksums are the small
definitions in `Rewrite.dfy`, `Redirect.dfy` and `Checksum.dfy`.

## Model

| member | source | states |
|---|---|---|
| RequestRuns.RunValid | windows_kext/driver/src/id_cache.rs:141-254 | in every run the queue is strictly ordered by ID, queued and active IDs are disjoint, and all IDs lie between 1 and `next_id` |
| RequestRuns.IssuedExactly | windows_kext/driver/src/id_cache.rs:489-518 | over any run from an empty cache the issued IDs are exactly 1, 2, … up to `next_id` minus 1, none skipped or reused |
| RequestRuns.StatusMonotone | windows_kext/driver/src/id_cache.rs:228-254 | over any run a request only moves from unissued to queued to active to done, or skips forward, never back |
| RequestRuns.StepMonotone | windows_kext/driver/src/id_cache.rs:228-254 | one operation never moves a request back, and only a claim of that very ID makes it active |
| RequestRuns.ClaimedAtMostOnce | windows_kext/driver/src/id_cache.rs:228-247 | a queued packet is handed to at most one verdict in any run, and to none after it left the queue |
| RequestRuns.ThreadStable | windows_kext/driver/src/id_cache.rs:217-254 | a captured thread ID keeps its value over any run that does not finish, retire or drain its request |
| RequestSpec.PartitionIds | windows_kext/driver/src/id_cache.rs:311-397 | retiring splits the queue in two: every ID lands in exactly one half and both halves keep the queue's order |
| RequestSpec.IndexOf | windows_kext/driver/src/id_cache.rs:228-230 | an ID is found where it is queued, and missed only when no entry carries it |
| RequestRuns.PushMeaning | windows_kext/driver/src/id_cache.rs:167-213 | every packet gets one entry behind the queue, with the next IDs, its own tuple, packet and instance, and the captured thread; a tuple mixing families changes nothing |
| RequestRuns.ClaimMeaning | windows_kext/driver/src/id_cache.rs:228-247 | a claim hands over what was queued under the ID, takes out that entry alone, and remembers its tuple and instance |
| RequestRuns.RetireMeaning | windows_kext/driver/src/id_cache.rs:311-397 | a request bound to no retired instance stays as it is; of the bound ones an outbound UDP packet stays queued without its instance and any other leaves the queue with its thread ID |
| RequestCache.AddKeepsExact | windows_kext/driver/src/id_cache.rs:416-432 | adding a request to the queue and to its bucket keeps the reverse index equal to a full scan by instance, in ID order |
| RequestCache.RemoveKeepsExact | windows_kext/driver/src/id_cache.rs:434-450 | removing a claimed request from queue and bucket keeps the index exact, and an emptied bucket disappears |
| RequestCache.RetireKeepsExact | windows_kext/driver/src/id_cache.rs:311-397 | dropping the buckets of ended instances matches detaching or removing exactly their requests |
| RequestCache.IdsOfMembers | windows_kext/driver/src/id_cache.rs:260-294 | the bucket of an instance holds exactly the queued IDs bound to it |
| RequestCache.IdsOfOrdered | windows_kext/driver/src/id_cache.rs:92-129 | a bucket is strictly increasing, as its binary search needs |
| RequestCache.RetireOneCorrect | windows_kext/driver/src/id_cache.rs:462-486 | retiring the next ID of an increasing list extends the stable partition by exactly that ID |
| RequestCache.AffectedPartition | windows_kext/driver/src/id_cache.rs:336-397 | whatever order the index yields them in, the affected IDs are those of the partition by instance |
| RequestCache.IdCache.PushPackets | windows_kext/driver/src/id_cache.rs:489-518 | every packet of one indication becomes one entry with consecutive IDs, in order; a tuple mixing families becomes none |
| RequestCache.IdCache.Push | windows_kext/driver/src/id_cache.rs:167-213 | queue, index, thread map and counter move together to the abstract push, and the new IDs are returned in order |
| RequestCache.IdCache.GetThreadId | windows_kext/driver/src/id_cache.rs:217-220 | returns the captured thread ID, and 0 exactly when none was captured |
| RequestCache.IdCache.WasIssuedId | windows_kext/driver/src/id_cache.rs:223-226 | true exactly for IDs that were issued, whatever became of them |
| RequestCache.IdCache.PopId | windows_kext/driver/src/id_cache.rs:228-247 | claims the packet of a queued ID: out of queue and index, into the active map; otherwise nothing changes |
| RequestCache.IdCache.FinishId | windows_kext/driver/src/id_cache.rs:250-254 | forgets the active marker and the thread ID, and nothing else |
| RequestCache.IdCache.PopAll | windows_kext/driver/src/id_cache.rs:405-413 | hands out the whole queue and empties queue, index and thread map; active requests stay |
| RequestCache.IdCache.TcpEndpointRequestIds | windows_kext/driver/src/id_cache.rs:260-294 | the snapshot by index, or by scan for a loopback-like endpoint, equals a full scan of queued and active requests |
| RequestCache.IdCache.RetirePendingId | windows_kext/driver/src/id_cache.rs:462-486 | a survivor is detached in place, any other request bound to the instance is removed with its thread ID |
| RequestCache.IdCache.RetireBucket | windows_kext/driver/src/id_cache.rs:317-334 | the single-instance path is the stable partition by instance |
| RequestCache.IdCache.RetireSeveral | windows_kext/driver/src/id_cache.rs:373-397 | the batched path, which collects and sorts IDs of several instances, is the same partition, removed entries in increasing ID order |
| RequestCache.IdCache.RetireConnectionInstances | windows_kext/driver/src/id_cache.rs:311-397 | all paths (one instance, nothing pending, one pending request, several) refine one stable partition of the queue |
| LifecycleProof.StepInv | windows_kext/driver/src/device.rs:942-1265 | every critical section, in any interleaving, keeps the joint invariant of generations, requests, closures and events |
| LifecycleTheorems.ReadyPathIsQuiet | windows_kext/driver/src/device.rs:1146-1204 | a deferred closure completes through the ready path only when no request of its endpoint is queued or being applied, and its generation stays dead and unreferenced ever after |
| LifecycleTheorems.NoClosureStranded | windows_kext/driver/src/device.rs:1057-1163 | every deferred closure waits for a request still to be decided, applied or finished, or has its completer scheduled |
| LifecycleMeaning.CloseMeaning | windows_kext/driver/src/device.rs:1092-1141 | closing a live endpoint with a queued or active request of its instance, or of its loopback peer with the four tuple fields exchanged, defers: the generation lives on and the closure waits for exactly those requests; a failed or duplicate pend keeps the existing closure and schedules the end; with no such request the generation ends and owes its END |
| LifecycleMeaning.CloseIsKept | windows_kext/driver/src/device.rs:1092-1265 | in every continuation of closing an endpoint its generation lives only while its closure is pended or its end is scheduled |
| LifecycleMeaning.DeferredReachable | windows_kext/driver/src/device.rs:1092-1123 | a reachable state in which a live connection is closed and its closure waits for a queued request |
| LifecycleTheorems.QuietMeansClosed | windows_kext/driver/src/device.rs:1146-1204 | with all requests decided and no work left, no deferred closure remains |
| LifecycleTheorems.ClosureCompletes | windows_kext/driver/src/device.rs:1057-1204 | from every reachable state, whatever userspace answers, a run of the driver's own steps and of those answers completes a deferred closure through the ready path |
| LifecycleTheorems.EventOrder | windows_kext/driver/src/device.rs:1014-1084 | in every run no CONN of a generation follows its END and no generation has two ENDs |
| LifecycleMeaning.AnnouncedOnce | windows_kext/driver/src/device.rs:1035-1084 | in every reachable state each issued request has either one announcement outstanding or one CONN event, never both or two, under the instance it was queued with |
| LifecycleTheorems.EndingOwesOneEnd | windows_kext/driver/src/ale_callouts.rs:1211-1255 | whichever path ends a live generation, one END becomes due that was not due before, and it is never lost |
| LifecycleTheorems.RequestsConserved | windows_kext/driver/src/device.rs:453-566 | every issued request is in exactly one place: queued, being applied, or settled |
| LifecycleTheorems.OutcomeIsFinal | windows_kext/driver/src/device.rs:453-566 | a settled packet keeps its outcome in every continuation |
| LifecycleTheorems.VerdictHitsRecorded | windows_kext/driver/src/device.rs:487-522 | a verdict changes policy only on the generation recorded when its request was queued, and only while that is live |
| LifecycleTheorems.LateVerdictBlocks | windows_kext/driver/src/device.rs:487-522 | when the recorded generation has ended the packet is blocked whatever the verdict, unless it is an outbound UDP clone, which is injected exactly when accepted and never redirected; no generation changes |
| LifecycleMeaning.VerdictMeaning | windows_kext/driver/src/device.rs:487-566 | over every applied verdict: injected if and only if accepted and its generation is reached, or it has none, or it is a sent UDP datagram; redirected if and only if a redirect verdict reaches the generation, to port 53, 717 or 719 with the generation's own addresses and port to restore; otherwise blocked |
| LifecycleMeaning.FirstAnswerCounts | windows_kext/driver/src/device.rs:453-485 | the answer that claims a queued request is the one applied to the packet that was queued, in every continuation and whatever further answers arrive |
| LifecycleMeaning.ReachesIsLiveMatching | windows_kext/driver/src/connection_map.rs:586-612 | a tuple reaches a live generation if and only if it is its own, or, with special ports not ignored, the alias that the verdict gives it |
| LifecycleMeaning.RetireBlocks | windows_kext/driver/src/device.rs:1225-1265 | once an ended instance is retired its queued packets are blocked in every continuation, except outbound UDP |
| LifecycleMeaning.DrainBlocks | windows_kext/driver/src/device.rs:942-994 | shutdown blocks every queued packet in every continuation and sets out to block the generation each is bound to |
| LifecycleMeaning.BlockDrainedMeaning | windows_kext/driver/src/device.rs:973-981 | the generation a drained packet still reaches, and no other, is blocked permanently |
| LifecycleTheorems.LiveVerdictApplies | windows_kext/driver/src/connection_map.rs:620-668 | for a live generation the verdict is applied if and only if the packet carries its own tuple or its present redirect alias; the packet is then injected exactly when accepted, redirected exactly by a redirect verdict, with target and origin spelled out, and blocked otherwise |
| LifecycleTheorems.OwnTupleVerdictApplies | windows_kext/driver/src/device.rs:453-522 | a request published under its generation's own tuple has its verdict applied to that generation in every continuation in which it lives, and its packet is injected exactly when accepted, redirected exactly by a redirect verdict, and blocked otherwise |
| LifecycleTheorems.LiveStaysBound | windows_kext/driver/src/id_cache.rs:311-397 | while its generation lives a request stays bound to it under the tuple it was queued with |
| LifecycleTheorems.LiveVerdictDiscarded | windows_kext/driver/src/device.rs:507-522 | a reachable state of the publication interface in which the verdict for a packet published under an alias is discarded although its generation is live; no caller publishes under an alias |
| LifecycleProof.PushFacts | windows_kext/driver/src/device.rs:1035-1084 | publication adds only entries with new IDs, its own tuple and its own instance |
| LifecycleMeaning.EnqueueMeaning | windows_kext/driver/src/device.rs:1035-1084 | each published packet is queued under the next ID with its tuple, instance and thread, gets its announcement, and is waited for by exactly the closures of its endpoint or loopback peer |
| LifecycleProof.FinishClosure | windows_kext/driver/src/tcp_closure_cache.rs:105-114 | finishing a request takes it out of every waiting set and schedules those left empty |
| LifecycleProof.PushClosure | windows_kext/driver/src/tcp_closure_cache.rs:94-101 | a request published while a closure is pended joins the closure's waiting set if it matches |
| ConnectionTable.EndpointIdentifies | windows_kext/driver/src/connection_map.rs:85-107 | within one family the compact index key identifies remote address and port |
| ConnectionTable.First | windows_kext/driver/src/connection_map.rs:383-408 | the first entry of a list that meets a query, and none only when no entry meets it |
| ConnectionTable.WinnerIsBest | windows_kext/driver/src/connection_map.rs:750-803 | a lookup returns the earliest best-ranked entry of a linear scan (live exact, live redirect, ended exact, ended redirect) and misses only when nothing is eligible |
| ConnectionRuns.ReadIsBest | windows_kext/driver/src/connection_map.rs:750-803 | a read returns the earliest best-ranked eligible entry, stored as returned and refreshed if it is live, and misses only when none is eligible |
| ConnectionRuns.ReadKeepsAlive | windows_kext/driver/src/connection_map.rs:413-432 | a live entry that was read stays live over every run that ends nothing explicitly and expires idle entries up to 60000 ms later |
| ConnectionRuns.EndpointClosureEnds | windows_kext/driver/src/connection_map.rs:434-450 | closing a local endpoint ends and returns exactly the live entries with the closed address, if one is named, and the closing or an unknown owner, sparing tracked ones when asked |
| ConnectionRuns.ExpiryEnds | windows_kext/driver/src/connection_map.rs:413-418 | expiry ends exactly the live, untracked, idle-expirable entries last used more than 60000 ms ago |
| ConnectionTable.ScanSkipLossless | windows_kext/driver/src/connection.rs:64-71 | skipping the redirect scan loses no match, on any cache, if and only if special ports are not ignored or the key can be no alias |
| ConnectionTable.AttributionKept | windows_kext/driver/src/connection_cache.rs:56-73 | a known owner is never forgotten nor replaced by the System process, and any other PID replaces what is stored |
| ConnectionRuns.RunOk | windows_kext/driver/src/connection_map.rs:494-520 | every reachable table has one live entry per exact tuple, endpoint order, distinct instance numbers and no empty group |
| ConnectionRuns.RegisterChooses | windows_kext/driver/src/connection_map.rs:494-520 | registration refuses exactly when the tuple has a live entry, and answers with the number of the one live entry the tuple has afterwards |
| ConnectionRuns.InsertPairwise | windows_kext/driver/src/connection_map.rs:297-322 | an inserted connection joins the endpoint order behind its equals and breaks none of the pairwise rules |
| ConnectionRuns.EditEvolves | windows_kext/driver/src/connection_map.rs:425-432 | an edit changes no tuple, no number and no ended entry |
| ConnectionRuns.HistoryUnchanged | windows_kext/driver/src/connection_map.rs:970-987 | over every run without a clear and without a clean more than 60000 ms after its end, an ended entry stays in its group unchanged |
| ConnectionRuns.HistoryStep | windows_kext/driver/src/connection_map.rs:970-987 | one operation keeps an ended entry unchanged if and only if it is not a clear or a clean more than 60000 ms after its end |
| ConnectionRuns.CleanKeeps | windows_kext/driver/src/connection_map.rs:977-987 | cleaning keeps exactly the live entries and the ended ones within their grace |
| ConnectionRuns.NoRevival | windows_kext/driver/src/connection_map.rs:829-869 | over every run, whatever is live at the end was live at the start under the same tuple and number or was inserted on the way |
| ConnectionIndex.BucketLookup | windows_kext/driver/src/connection_map.rs:245-251 | looking in one bucket finds what a scan of the whole flat list finds, for every exact query |
| ConnectionIndex.InsertSlotFlat | windows_kext/driver/src/connection_map.rs:284-295 | inserting into the ordered tree inserts into the flat list at the same place |
| ConnectionIndex.InsertIntoOk | windows_kext/driver/src/connection_map.rs:297-322 | empty, inline and tree forms all insert alike; buckets agree on their endpoint and `Many` holds at least two |
| ConnectionIndex.EditSlotsFlat | windows_kext/driver/src/connection_map.rs:620-668 | editing the first hit inside its bucket edits the first hit of the flat list |
| ConnectionIndex.RetainInOk | windows_kext/driver/src/connection_map.rs:324-350 | retaining shrinks tree, bucket and vector forms back exactly when one element is left, and reports emptiness exactly |
| ConnectionIndex.EndIn | windows_kext/driver/src/connection_map.rs:907-932 | one pass over all buckets ends exactly the selected live entries and returns their copies in list order |
| ConnectionIndex.LiveAndEndedMatch | windows_kext/driver/src/connection_map.rs:383-408 | the single pass yields the first live match, and without one the first ended match |
| ConnectionIndex.ConnectionMap.Reached | windows_kext/driver/src/connection_map.rs:379-379 | what holds of every reachable flat table holds of the table this index stands for |
| ConnectionIndex.ConnectionMap.InsertIfAbsent | windows_kext/driver/src/connection_map.rs:494-520 | updates the live entry of the exact tuple or inserts; the answer is an error exactly when a live entry was there, and names the only live entry the tuple then has |
| ConnectionIndex.ConnectionMap.Read | windows_kext/driver/src/connection_map.rs:750-803 | returns and refreshes the connection the flat priority lookup chooses |
| ConnectionIndex.ConnectionMap.GetLiveInstanceMatching | windows_kext/driver/src/connection_map.rs:586-612 | finds one exact live instance by tuple or alias, as on the flat table |
| ConnectionIndex.ConnectionMap.EditInstance | windows_kext/driver/src/connection_map.rs:620-668 | changes one exact live instance by tuple or alias, as on the flat table, and nothing else |
| ConnectionIndex.ConnectionMap.EditExact | windows_kext/driver/src/connection_map.rs:540-547 | changes, ends or promotes the live entry of an exact tuple (or one instance of it), never an ended or redirected one |
| ConnectionIndex.ConnectionMap.EndInstances | windows_kext/driver/src/connection_map.rs:846-869 | ends the listed generations one after the other and returns exactly those that were live |
| ConnectionIndex.ConnectionMap.EndMatchingOnEndpoint | windows_kext/driver/src/connection_map.rs:907-932 | ends exactly the selected live connections of a local endpoint and returns copies of them |
| ConnectionIndex.ConnectionMap.EndInactiveUntracked | windows_kext/driver/src/connection_map.rs:940-968 | ends exactly the idle fallback entries and returns a copy of each, once, group by group and in list order within a group |
| ConnectionIndex.ConnectionMap.CleanEnded | windows_kext/driver/src/connection_map.rs:977-987 | removes exactly the expired history and the groups it empties |
| ConnectionIndex.ConnectionMap.Clear | windows_kext/driver/src/connection_map.rs:970-972 | empties the map |
| ConnectionLifecycle.LookupAgrees | windows_kext/driver/src/connection_cache.rs:309-332 | the map's lookup of one live instance is the liveness test of the lifecycle protocol |
| ConnectionLifecycle.InstanceAgrees | windows_kext/driver/src/connection_cache.rs:428-452 | a change of one instance found by tuple or alias is the protocol's verdict on that generation exactly when the protocol finds it live, and leaves the other family alone |
| ConnectionLifecycle.ExactAgrees | windows_kext/driver/src/connection_cache.rs:406-424 | a verdict or an end on the live entry of an exact tuple is the protocol's update or end of exactly that generation |
| ConnectionLifecycle.EndBatchAgrees | windows_kext/driver/src/connection_map.rs:846-869 | ending a batch of exact instances under one guard is the protocol's end of those of them that are live |
| ConnectionLifecycle.EndSomeAgrees | windows_kext/driver/src/connection_map.rs:907-968 | ending by local endpoint or by inactivity is the protocol's end of the selected generations, all of them live and of this family |
| ConnectionLifecycle.CleanAgrees | windows_kext/driver/src/connection_map.rs:977-987 | removing expired history is the protocol's cleaning of exactly those generations, all of them ended and of this family |
| ConnectionLifecycle.ClearAgrees | windows_kext/driver/src/connection_cache.rs:711-720 | clearing a map is the protocol's clearing of its family and keeps the other |
| ConnectionLifecycle.RegisterAgrees | windows_kext/driver/src/connection_cache.rs:217-242 | registering a candidate with any number that was drawn is the protocol's registration, also when numbers arrive out of order |
| ConnectionLifecycle.RegisterAnswersTwin | windows_kext/driver/src/connection_cache.rs:217-242 | the number registration answers with is the only live generation the tuple has in the protocol afterwards, and it refuses exactly when there was one |
| ConnectionLifecycle.OtherFamilyKept | windows_kext/driver/src/connection_cache.rs:38-45 | a map goes on representing the generations of its family whatever happens to those of the other |
| ConnectionLifecycle.OpImplements | windows_kext/driver/src/connection_cache.rs:205-720 | any operation on either map is the protocol's effect on the generations, and afterwards both maps represent them |
| ConnectionLifecycle.RunImplements | windows_kext/driver/src/connection_cache.rs:205-720 | over every run of operations on the two maps, from empty ones on, they hold exactly the generations of the protocol |
| Ipv6Walk.Reader.Prefix | windows_kext/driver/src/ipv6_packet.rs:32-40 | a read returns the packet's own bytes of the window, or nothing |
| Ipv6Walk.WalkIsLayout | windows_kext/driver/src/ipv6_packet.rs:81-179 | the walk resolves exactly the packets whose chain of at most eight extension headers leads to an upper-layer protocol, to that protocol and offset, and flags exactly real fragments and routing headers with segments left |
| Ipv6Walk.OffsetFits | windows_kext/driver/src/packet_metadata.rs:200-225 | the walk stays inside the packet and its offset is at most 16424, so the sixteen-bit cache is lossless |
| Ipv6Walk.PrefixStable | windows_kext/driver/src/ipv6_packet.rs:81-179 | what a prefix resolves, or stops at as a fragment, every longer packet keeps |
| Ipv6Walk.ChainWithoutFragments | windows_kext/driver/src/ipv6_packet.rs:118-126 | without fragments, stopping at fragments makes no difference |
| Ipv6Walk.FragmentMask | windows_kext/driver/src/ipv6_packet.rs:118-121 | the mask picks the fragment offset and the more-fragments flag |
| Ipv6Walk.Advance | windows_kext/driver/src/ipv6_packet.rs:104-165 | one turn of the loop moves behind one complete header, or not at all when it is incomplete or unreadable |
| Ipv6Walk.Walk | windows_kext/driver/src/ipv6_packet.rs:81-179 | the loop over a source that may fail: resolved results and fragment stops are those of the recursive definition, and without a failed read all results are |
| LazyInspection.Inspector.Resolve | windows_kext/driver/src/packet_metadata.rs:200-225 | what is cached behind an extension chain is the packet's own header, or an error that a failed read explains |
| LazyInspection.Inspector.ReadHeader | windows_kext/driver/src/packet_metadata.rs:173-198 | the header read with one retry is the packet's own, or an error that a failed read explains |
| LazyInspection.Inspector.KeyBehind | windows_kext/driver/src/packet_metadata.rs:310-349 | ports that are present but unreadable never become a zero-port key; absent ports do |
| LazyInspection.Inspector.GetKey | windows_kext/driver/src/packet_metadata.rs:253-349 | on the fast and the slow path a successful key, or a fragment report, is that of the pure parse; if no read failed in this call, or since the caches were last empty when a header is cached, every result is |
| LazyInspection.Inspector.RetryKey | windows_kext/driver/src/packet_metadata.rs:134-139 | the retry forgets all cached state; if none of its own reads fails it gives exactly the key of the pure parse that accepts fragments, whatever failed before |
| LazyInspection.Inspector.IsTcpReset | windows_kext/driver/src/packet_metadata.rs:146-161 | a reported reset is one, and without a failed read so is a reported absence, on first and repeated calls |
| LazyInspection.Inspector.ReadQuote | windows_kext/driver/src/packet_metadata.rs:436-521 | a quoted identity read through the window is the pure one, which ends at the outer and the quoted declared length |
| LazyInspection.Inspector.GetIcmp | windows_kext/driver/src/packet_metadata.rs:385-434 | every echo or error field reported is that of the pure parse; without a failed read all are |
| Inspection.QuoteNamesKey | windows_kext/driver/src/packet_metadata.rs:436-500 | an accepted transport quote joined with the local address is the key of the quoted bytes as an outbound packet, if and only if it is not the first fragment of an IPv4 packet under an inspector that leaves fragments to reassembly |
| Inspection.FirstFragmentQuote | windows_kext/driver/src/packet_metadata.rs:469-482 | a concrete quote for which the two differ |
| Inspection.QuoteWithinDeclared | windows_kext/driver/src/packet_metadata.rs:436-521 | a quote's meaning depends on no byte beyond the length its own header declares |
| PacketLayout.KeyOf4 | windows_kext/driver/src/packet_metadata.rs:568-592 | an IPv4 TCP or UDP packet laid out from field values, with any options, has the key of those values by direction; a fragment has none where reassembly is awaited |
| PacketLayout.PortlessKeyOf4 | windows_kext/driver/src/packet_metadata.rs:310-349 | other IPv4 protocols have the key with zero ports, if four bytes follow the base header |
| PacketLayout.KeyOf6 | windows_kext/driver/src/packet_metadata.rs:568-592 | an IPv6 TCP or UDP packet laid out from field values has the key of those values by direction |
| PacketLayout.ResetOf4 | windows_kext/driver/src/packet_metadata.rs:146-161 | of eight chosen TCP flags exactly RST makes a reset, behind any IPv4 options |
| PacketLayout.ResetOf6 | windows_kext/driver/src/packet_metadata.rs:146-161 | of eight chosen TCP flags exactly RST makes a reset in IPv6 |
| PacketLayout.EchoOf4 | windows_kext/driver/src/packet_metadata.rs:385-434 | IPv4 echo requests and replies, and no other type, are reported with the chosen identifier and sequence |
| PacketLayout.EchoOf6 | windows_kext/driver/src/packet_metadata.rs:385-434 | IPv6 echo requests and replies, and no other type, are reported with the chosen identifier and sequence |
| PacketLayout.TransportQuote | windows_kext/driver/src/packet_metadata.rs:436-521 | a quoted TCP or UDP packet of this host is named by the chosen protocol, destination and ports |
| PacketLayout.EchoQuote | windows_kext/driver/src/packet_metadata.rs:436-521 | a quoted echo request of this host is named by the chosen destination, identifier and sequence |
| PacketLayout.ErrorOf4 | windows_kext/driver/src/packet_metadata.rs:385-434 | an ICMP message reports what its quote names if and only if it is of type 3, 11 or 12 and comes in or is sent by this host to itself, which alone is marked as a local error |
| PacketLayout.ErrorOf6 | windows_kext/driver/src/packet_metadata.rs:385-434 | the same for ICMPv6 types 1 to 4 |
| Checksum.FoldMeaning | windows_kext/driver/src/ipv6_packet.rs:298-316 | folding carries keeps the sum modulo 65535 and gives zero only for zero (RFC 1071) |
| Checksum.FoldTogether | windows_kext/driver/src/ipv6_packet.rs:298-316 | sums folded part by part and folded again are the fold of the total |
| Checksum.FilledVerifies | windows_kext/driver/src/ipv6_packet.rs:298-316 | the complement written into a zeroed field makes the receiver's sum all ones |
| Checksum.SumIsNumber | windows_kext/driver/src/ipv6_packet.rs:298-316 | the sum of the words and the octets read as one big-endian number differ by a multiple of 65535 |
| Checksum.TotalVerifies | windows_kext/driver/src/ipv6_packet.rs:298-316 | a total of all ones means that pseudo-header and padded data, laid out octet by octet and read as one number, are a multiple of 65535, which is what a receiver tests |
| Rewrite.RewriteFrame | windows_kext/driver/src/ipv6_packet.rs:277-321 | only the two addresses, one port and the transport checksum change; extension headers, lengths and payload do not |
| Rewrite.RewriteVerifies | windows_kext/driver/src/ipv6_packet.rs:277-321 | the checksum of a rewritten packet verifies over the upper-layer length (section 8.1 of RFC 8200) |
| Rewrite.RewriteKeepsContext | windows_kext/driver/src/ipv6_packet.rs:221-254 | a rewritten packet is again valid with the same transport protocol, offset and length |
| Rewrite.VerdictContext | windows_kext/driver/src/ipv6_packet.rs:221-270 | a packet that passes validation has its transport header, checksum field included, inside its declared length |
| Rewrite.RewritableExactly | windows_kext/driver/src/ipv6_packet.rs:221-270 | an IPv6 packet can be rewritten if and only if it is complete, version 6, no jumbogram, and a chain of at most eight headers, no real fragment and no segments left, leads to a whole TCP or UDP header; its layout is that header's |
| Rewrite.FilledNonzero | windows_kext/driver/src/ipv6_packet.rs:298-316 | a filled UDP checksum is never zero |
| Rewrite.FilledIsRight | windows_kext/driver/src/ipv6_packet.rs:298-316 | the filled checksum of a TCP or UDP header verifies whatever the packet held before |
| Rewrite.FillChecksum | windows_kext/driver/src/ipv6_packet.rs:298-316 | fills the field in place with the specified word |
| Rewrite.RewriteIpv6 | windows_kext/driver/src/ipv6_packet.rs:277-321 | all or nothing: an error names its cause and leaves every byte, a success is the specified rewrite and touches nothing else |
| Redirect.RedirectRoundTrip | windows_kext/driver/src/packet_util.rs:91-227 | the reply to a redirected packet finds its connection by reverse lookup, and restoring it gives the connection's original key |
| Redirect.ReplyFinds | windows_kext/driver/src/connection.rs:391-417 | the only redirected live connection of a group is what its alias finds, when no live tuple equals the alias |
| Redirect.AliasMatches | windows_kext/driver/src/connection.rs:168-202 | the alias a redirect produces is one the reverse lookup accepts, on a port for which it scans, in the same group |
| Redirect.KeyOfRewritten | windows_kext/driver/src/packet_metadata.rs:568-592 | the key of a rewritten packet has the new addresses, the new port and the other port unchanged |
| Redirect.Layout6IsHeader | windows_kext/driver/src/ipv6_packet.rs:221-254 | the layout that rewriting validates is the header the inspector reports |
| Redirect.Rewritten4Meets | windows_kext/driver/src/packet_util.rs:98-130 | rewriting a valid IPv4 packet changes addresses, one port and the checksums, and nothing else |
| Redirect.Rewritten4Bare | windows_kext/driver/src/packet_util.rs:98-130 | rewriting a parsable IPv4 packet without a whole TCP or UDP header changes its addresses and header checksum, and nothing else |
| Redirect.Rewritten4Verifies | windows_kext/driver/src/packet_util.rs:98-130 | the transport checksum of a rewritten valid IPv4 packet verifies |
| Redirect.HeaderFilledVerifies | windows_kext/driver/src/packet_util.rs:107-107 | the filled IPv4 header, read as one number, is a multiple of 65535 |
| Redirect.Rewritten4Accepted | windows_kext/driver/src/packet_util.rs:98-130 | after the rewrite of a valid IPv4 packet a receiver accepts the header and the transport checksum |
| Redirect.RewriteIpv4 | windows_kext/driver/src/packet_util.rs:98-130 | the in-place IPv4 rewrite is the specified one; an unparsable packet stays as it is |
| Redirect.RedirectOutbound | windows_kext/driver/src/packet_util.rs:91-158 | an outbound packet gets the redirect target, port and source that `unify` and the target call for, and a receiver accepts all its checksums; IPv6 success is exactly validity and failure changes nothing; an unparsable IPv4 packet stays as it is, and one without TCP or UDP header gets only new addresses and a header checksum that verifies |
| Redirect.RedirectInbound | windows_kext/driver/src/packet_util.rs:174-227 | a reply gets the original addresses and port, and a receiver accepts all its checksums; mixed families are refused unchanged; an unparsable IPv4 packet stays as it is, and one without TCP or UDP header gets only new addresses and a header checksum that verifies |
| ReadStream.EventStream.Push | windows_kext/driver/src/device.rs:1081-1083 | a pushed record is appended to what is still to be read |
| ReadStream.EventStream.WriteRecord | windows_kext/driver/src/device.rs:286-296 | a record's bytes are split into what fits and one saved fragment, kept only when the buffer is full |
| ReadStream.EventStream.Read | windows_kext/driver/src/device.rs:310-371 | a read emits exactly the next bytes of fragment and queued records, never writes over a saved fragment, and is empty only when nothing is there |
| ReadStream.DecodeEncoded | kext_client/src/PortmasterKext.cpp:531-545 | a buffer that starts with an encoded record yields that record and the rest |
| ReadStream.WireFormat | kext_client/src/PortmasterKext.cpp:531-545 | a record's bytes are its kind, its payload length in little-endian order, and its payload |
| ReadStream.EncodeDecoded | kext_client/src/PortmasterKext.cpp:531-545 | a complete first record encodes back to the bytes it came from |
| ReadStream.ParseConserves | kext_client/src/PortmasterKext.cpp:528-702 | dispatching splits a buffer into whole records and an incomplete rest without losing a byte |
| ReadStream.StreamRecovered | kext_client/src/PortmasterKext.cpp:787-791 | for any read sizes the dispatched records are the first ones pushed, in order, and the buffer is a proper prefix of the next |
| ReadStream.Client.Dispatch | kext_client/src/PortmasterKext.cpp:528-702 | consumes every complete record once and in order, sends each to the receiver the state of the pipe calls for, and returns the bytes consumed |
| ReadStream.ReceiverExactly | kext_client/src/PortmasterKext.cpp:546-564 | a dispatched record belongs to the remote client if and only if one is connected, the record fits and sending works; to the local handlers if and only if no client is connected or sending failed and the session is over; to nobody in the remaining case |
| ReadStream.LostExactly | kext_client/src/PortmasterKext.cpp:546-564 | a record has no receiver if and only if a client is and stays connected and the record is too large or its send fails; when a failed send ends the session, exactly the oversized ones are lost that way |
| ReadStream.OversizedLost | kext_client/src/PortmasterKext.cpp:546-564 | the case: a client with a working, connected pipe receives a record five bytes over the limit and ends with it dispatched to nobody |
| ReadStream.ReceiveOne | kext_client/src/PortmasterKext.cpp:528-702 | a whole record received at a record boundary is dispatched at once, as that record and nothing else, to the receiver the pipe calls for |
| ReadStream.Client.Receive | kext_client/src/PortmasterKext.cpp:787-791 | all bytes received are dispatched records plus one incomplete record, and every record went where the pipe sends it |
| ReadStream.Pump | kext_client/src/PortmasterKext.cpp:705-792 | after any turn of the reader loop dispatched, buffered and unread bytes together are the pushed stream |
| DispatchGate.StepInv | windows_kext/driver/src/entry.rs:137-655 | every atomic step of every dispatch, session and unload keeps the counters exact and the session claims true |
| DispatchGate.CountersExact | windows_kext/driver/src/entry.rs:137-295 | each counter is zero exactly when nobody it counts is inside |
| DispatchGate.DrainIsFinal | windows_kext/driver/src/entry.rs:473-535 | once the gate is closed and the drain was seen, no dispatch is admitted or can become so before reopening |
| DispatchGate.DeviceFreedUnused | windows_kext/driver/src/entry.rs:473-535 | no dispatch can use a freed device, and when it is freed no callback is inside the driver |
| DispatchGate.CreateDecides | windows_kext/driver/src/entry.rs:567-596 | a create becomes the owner if and only if it sees no unload and finds no owner; otherwise it gives the session back and the owner stays |
| DispatchGate.NewOwnerAtBoundary | windows_kext/driver/src/entry.rs:542-655 | a new owner is always accepted with no read inside, none since the discard, and no fragment saved |
| DispatchGate.HandoverExact | windows_kext/driver/src/entry.rs:542-706 | at every handover: some continuation in which no further read of another file arrives brings the new owner's own first read to a saved fragment, if and only if the driver is not unloading and a read of another file waits outside the gate at passive level |
| DispatchGate.HandoverSafe | windows_kext/driver/src/entry.rs:542-706 | without such a waiting read the new owner's own first read starts at a record boundary in every such continuation, whatever rejected, leaving or non-passive reads of other files are still around |
| DispatchGate.HandoverSplits | windows_kext/driver/src/entry.rs:683-706 | with such a waiting read there is a continuation, constructed for any handover, in which it takes part of a record before the new owner's first read |
| DispatchGate.HarmlessStep | windows_kext/driver/src/entry.rs:137-161 | a read of another file that was rejected, is leaving, is not at passive level, or waits outside while the driver unloads stays so at every step, and none of these reaches the stream |
| DispatchGate.DiscardSucceeds | windows_kext/driver/src/entry.rs:616-636 | in every reachable state the discard at cleanup succeeds, with no read inside and none admissible: whoever gets there has passed the test of the interrupt level that the lock makes again |
| DispatchGate.LateReadSplitsRecord | windows_kext/driver/src/entry.rs:683-706 | a reachable state in which a late read of the old file has left a fragment and the new owner's first read is about to start inside that record |
| Suspensions.RunBalanced | kext_client/src/ProcessSuspensions.cpp:108-224 | in every run successful suspends minus successful resumes is the number of retained entries, exactly their handles are open, and handles were closed exactly by resumes |
| Suspensions.ReleaseMeaning | kext_client/src/ProcessSuspensions.cpp:181-202 | only the last token out resumes a generation, a failed resume keeps it, and no other generation is touched |
| Suspensions.AcquireMeaning | kext_client/src/ProcessSuspensions.cpp:121-172 | a token is given if and only if the PID may be held, acquisitions go on, and the process has a live generation to share or the suspend works with a number left; a throw is passed on exactly when the backend is asked and throws; an exited process keeps its own generation, and a refusal suspends nothing |
| Suspensions.ProcessSuspensions.Acquire | kext_client/src/ProcessSuspensions.cpp:121-172 | entries, PID index and generation counter move to the specified state, also when the backend refuses or throws |
| Suspensions.ProcessSuspensions.Release | kext_client/src/ProcessSuspensions.cpp:181-202 | entries and PID index move to the specified state, with the specified answers |
| Suspensions.ProcessSuspensions.ResumeAll | kext_client/src/ProcessSuspensions.cpp:204-224 | every hold whose resume works is gone with its handle, every other is kept untouched, and acquisitions stop |
| Suspensions.ProcessSuspensions.Destroy | kext_client/src/ProcessSuspensions.cpp:108-113 | destruction leaves no handle open, and over the whole lifetime as many handles were closed as suspends succeeded, so none twice |

## Left out

- WFP, NDIS, KMDF and IRP calls, injection, clone allocation and filter registration: foreign kernel interfaces; packets end as blocked, injected or redirected.
- Failure of an injection or of a push to the event queue: outcomes record what is attempted, and the queue is taken to accept every event.
- The endpoint and flow caches that decide which instances an end path names: the lifecycle protocol lets an end path name any set of instances.
- Memory ordering of atomics and spin locks: each guarded section or atomic operation is one step.
- Fairness: from every state a closure can be completed by steps that are enabled, but not that a scheduler eventually runs them.
- Attribution of a UDP packet by PID alone, listings and counts of entries, and the reverse lookup of the latest ended generation: they read one list and add only easy members.
- Recomputing checksums of unredirected packets, the packet batch form, and `IcmpEcho` loopback keys: small variations of what is modelled.
- Bandwidth counters, log ring, ICMP echo cache, registry settings, delayed-verdict timer, command parsing and the monitor's printing: they would add only easy members.
- The contents of CONN and END records beyond their generation and request ID.
- DispatchGate.HandoverExact: leaves aside reads of other files that arrive only after the handover, because the I/O manager sends none for a file object whose last handle is closed.
- ConnectionIndex.ConnectionMap.EndInactiveUntracked: does not state in which order the groups are visited, because that is the key order of the library's protocol type.
- Redirect.RedirectOutbound: does not say what a rewrite does to an IPv4 packet that passes the library's check with a header length below twenty, where header and payload overlap.
- Redirect.RedirectInbound: does not say what a rewrite does to an IPv4 packet that passes the library's check with a header length below twenty, where header and payload overlap.
- RequestCache.IdCache.TcpEndpointRequestIds: equals the full scan only for a nonzero instance or a loopback-like endpoint, because the index does not hold requests bound to instance zero.
- Ordered trees and maps of the libraries are sequences in key order or Dafny maps, and a library sort is an ordered rearrangement; their own algorithms are not modelled.
