# Ultra Ethernet control logic for SONiC, in Dafny

This project models the control core of an Ultra Ethernet (UE) extension for
SONiC and proves properties of it. The parts modelled:

- **Transport daemon, flow table** (`FlowManager.FlowTable`). Per-flow state and
  statistics are kept under the 5-tuple key. The model covers flow creation
  (with a capacity limit), removal, packet-spraying weights, the RTT moving
  average and the idle-timeout sweep. It also covers the IPv4/UDP flow-key
  parser, the periodic timers and the range-checked transport configuration.
- **Transport daemon, congestion monitor** (`CongestionManager.CongestionMonitor`).
  The model covers the threshold classifier, the per-interface event counters
  and the 100-record event history. It also covers the state-to-weight
  rebalancing of paths, the "global" configuration handler and the
  interval-gated periodic task.
- **RDMA provider helpers.** `DualStackAddr` models the 16-byte tagged address
  with copy, compare and the sockaddr conversions, the v2 connection pool
  lookup, the v2 write fallback, multipath setup and the endpoint's
  address-format check. `RdmaPool` models the original 64-bit-keyed pool and
  write path.
- **Wire headers** (`WireHeaders`). The packed UET, PDS and semantic headers,
  the v2 UET header and the whole packet are each an encoder and a decoder,
  proved mutually inverse.
- **Link daemon, LLR manager** (`LlrManager`). The model covers the
  link-level-retry configuration validator (retries, timeout, power-of-two
  window), the global and per-interface enable/disable tables and the
  statistics counters.
- **Link daemon, PRI manager** (`PriManager`). The model covers the
  header-compression configuration parser, the global enable and the
  statistics update.
- **Dual-stack configuration manager** (`DualStackConfig`, written in Python in
  the original). The model covers the validator and its error list. It also
  covers the global, interface and ECMP appliers as sequences of database
  writes, the capability auto-detection and the two CLI entry builders.

`Common` holds the shared pieces:
- `std::stoi`, as a partial parse to a 32-bit value;
- Python's `str.split` and `str.strip`;
- 32-bit truncation.

Clocks, random samples and calls into code that is not shown are parameters.
Database writes are left out, except in the Python manager. There the writes
are the observable result, so they are returned as a list.

## Model

| member | source | states |
|---|---|---|
| Common.Stoi | sonic-ue-transportd/src/ue_flow_manager.cpp:98 | a successful parse is a value within the signed 32-bit range |
| Common.StoiOfNatToString | sonic-ue-transportd/src/ue_flow_manager.cpp:98 | every decimal rendering of a number up to INT32_MAX parses back to that number |
| Common.ToU32 | sonic-ue-linkd/src/ue_llr_manager.cpp:83 | storing an int in a uint32_t keeps values in range and adds 2^32 to negative 32-bit values |
| Common.Split | ue_dual_stack_config_mgr.py:62 | `split` gives at least one part and no part contains the separator |
| Common.SplitJoin | ue_dual_stack_config_mgr.py:332 | splitting a joined list of separator-free parts gives back the list |
| Common.StripSpec | ue_dual_stack_config_mgr.py:230 | `strip` removes exactly the leading and trailing characters `str.isspace` accepts, ASCII and Unicode alike |
| Common.StripBlankSix | ue_dual_stack_config_mgr.py:230 | " 6" strips to "6", so the validator accepts it |
| WireHeaders.EncodeUet | ue_transport.h:9-18 | 16 bytes; version in the low nibble and reserved in the high nibble of byte 0, flags at 1, then big-endian length, flow id, sequence, checksum and urgent pointer at fixed disjoint offsets |
| WireHeaders.DecodeUet | ue_transport.h:9-18 | fails exactly when fewer than 16 bytes are given |
| WireHeaders.UetRoundTrip | ue_transport.h:9-18 | decoding an encoded UET header returns it unchanged |
| WireHeaders.UetDecodeEncode | ue_transport.h:9-18 | re-encoding any decoded 16 bytes gives the same bytes |
| WireHeaders.EncodePds | ue_transport.h:21-28 | 12 bytes: type, reliability mode, then big-endian connection id, ack, window and options |
| WireHeaders.DecodePds | ue_transport.h:21-28 | fails exactly when fewer than 12 bytes are given |
| WireHeaders.PdsRoundTrip | ue_transport.h:21-28 | decoding an encoded PDS header returns it unchanged |
| WireHeaders.PdsDecodeEncode | ue_transport.h:21-28 | re-encoding any decoded 12 bytes gives the same bytes |
| WireHeaders.EncodeSemantic | ue_transport.h:31-38 | 20 bytes: opcode, message type, then big-endian tag, remote address (8 bytes), rkey and length |
| WireHeaders.DecodeSemantic | ue_transport.h:31-38 | fails exactly when fewer than 20 bytes are given |
| WireHeaders.SemanticRoundTrip | ue_transport.h:31-38 | decoding an encoded semantic header returns it unchanged |
| WireHeaders.SemanticDecodeEncode | ue_transport.h:31-38 | re-encoding any decoded 20 bytes gives the same bytes |
| WireHeaders.EncodePacket | ue_transport.h:41-48 | IP, UDP, UET, PDS and semantic headers back to back with no padding; the payload starts at byte 76 |
| WireHeaders.DecodePacket | ue_transport.h:41-48 | fails exactly below 76 bytes; otherwise the payload is everything from byte 76 on |
| WireHeaders.PacketRoundTrip | ue_transport.h:41-48 | decoding an encoded packet returns every header and the payload unchanged |
| WireHeaders.PacketDecodeEncode | ue_transport.h:41-48 | re-encoding any decoded packet of at least 76 bytes gives the same bytes |
| WireHeaders.EncodeUetV2 | ue_transport_v4v6.h:23-32 | the v2 header keeps the 16-byte layout, with the IP version in the high nibble of byte 0 |
| WireHeaders.DecodeUetV2 | ue_transport_v4v6.h:23-32 | fails exactly when fewer than 16 bytes are given |
| WireHeaders.UetV2RoundTrip | ue_transport_v4v6.h:23-32 | decoding an encoded v2 header returns it unchanged |
| WireHeaders.UetV2SharesLayout | ue_transport_v4v6.h:23-32 | the v2 header encodes exactly as a v1 header whose reserved nibble holds the IP version |
| DualStackAddr.AddrFamily | ue_transport_v4v6.h:66-69 | AF_INET exactly for version 4, AF_INET6 for every other version |
| DualStackAddr.AddrLen | ue_transport_v4v6.h:71-74 | 4 exactly for version 4, 16 otherwise |
| DualStackAddr.CopiedAddr | ue_transport_v4v6.h:76-85 | for v4 the first 4 bytes are copied and the other 12 zeroed; otherwise all 16 bytes are copied |
| DualStackAddr.AddrCopy | ue_transport_v4v6.h:76-85 | the destination array ends up holding the copied address |
| DualStackAddr.MemCmp | ue_transport_v4v6.h:93 | zero exactly for equal byte strings, otherwise a byte difference |
| DualStackAddr.MemCmpAntisymmetric | ue_transport_v4v6.h:93 | swapping the operands negates the result |
| DualStackAddr.AddrCompare | ue_transport_v4v6.h:87-95 | for v4, 0 exactly when the 4 address bytes agree and 1 otherwise (padding ignored); for other versions, 0 exactly when all 16 bytes agree |
| DualStackAddr.CopyComparesEqual | ue_transport_v4v6.h:76-95 | a copy always compares equal to its source |
| DualStackAddr.CopyIdempotent | ue_transport_v4v6.h:76-85 | copying a copy changes nothing |
| DualStackAddr.SockaddrToAddr | ue_transport_v4v6.h:98-114 | AF_INET and AF_INET6 succeed, with version 4 or 6 and the address copied in; any other family returns -1 and leaves the outputs untouched |
| DualStackAddr.AddrToSockaddr | ue_transport_v4v6.h:117-136 | versions 4 and 6 give the struct size, the matching family, the address and the port; any other version returns -1 with zeroed storage |
| DualStackAddr.SockaddrRoundTrip | ue_transport_v4v6.h:98-136 | converting an address to a sockaddr and back restores the address and the version |
| DualStackAddr.AddrRoundTrip | ue_transport_v4v6.h:98-136 | converting an AF_INET or AF_INET6 sockaddr to an address and back restores the sockaddr |
| DualStackAddr.Connection.constructor | ue_transport_v4v6.h:35-52 | a connection holds the given version, port, address and timestamp |
| DualStackAddr.FirstMatch | ue_transport_v4v6.h:148-152 | the least index matching version, port and address and not yet timed out; none when no entry matches |
| DualStackAddr.Touch | ue_transport_v4v6.h:154 | only the hit entry's last activity changes, and it becomes now |
| DualStackAddr.FirstMatchIsLeast | ue_transport_v4v6.h:148-152 | any matching index with no earlier match is the one found |
| DualStackAddr.RepeatLookupSameEntry | ue_transport_v4v6.h:148-155 | a second lookup within the timeout of the first returns the same entry |
| DualStackAddr.ExpiredNeverReturned | ue_transport_v4v6.h:150-152 | an entry past its timeout is never returned |
| DualStackAddr.ConnPool.constructor | ue_transport_v4v6.h:268-269 | the pool starts empty with the given limit and timeout |
| DualStackAddr.ConnPool.GetEphemeralConnV2 | ue_transport_v4v6.h:139-160 | returns the first matching live connection and refreshes only that one; on a miss returns null and changes nothing |
| DualStackAddr.WriteImmediateV2 | ue_transport_v4v6.h:163-181 | a hit posts on the pooled connection; a miss falls back to the created temporary connection, and returns -ENOMEM when creation failed |
| DualStackAddr.Multipath.constructor | ue_transport_v4v6.h:184-196 | a path table of the given capacity with no active paths |
| DualStackAddr.Multipath.SetupMultipathV2 | ue_transport_v4v6.h:198-222 | records the version, the path count truncated to 8 bits and the seed; zeroes the counters of exactly paths 0 to count-1; leaves the other paths alone |
| DualStackAddr.SupportedVersions | ue_transport_v4v6.h:252-265 | FI_SOCKADDR_IN, FI_SOCKADDR_IN6 and FI_SOCKADDR map to IPv4 only, IPv6 only and both; any other format has no mapping |
| DualStackAddr.SupportedVersionsCover | ue_transport_v4v6.h:252-265 | the mapped support admits version 4 or 6 exactly as its address format allows |
| DualStackAddr.Endpoint.constructor | ue_transport_v4v6.h:266-269 | a new endpoint has the given support and an empty, valid pool |
| DualStackAddr.EndpointCreateV2 | ue_transport_v4v6.h:241-281 | a failed allocation gives -FI_ENOMEM; an unknown format gives -FI_EINVAL and no endpoint; otherwise 0 and an endpoint with the mapped support and an empty pool |
| RdmaPool.RdmaConnection.constructor | ue_rdma.c:4-15 | a connection holds the given address and timestamp |
| RdmaPool.Lookup | ue_rdma.c:43-45 | the least index whose address matches and that has not timed out; none when no entry qualifies |
| RdmaPool.LookupIsLeast | ue_rdma.c:43-45 | any qualifying index with no earlier qualifying one is the one found |
| RdmaPool.Refresh | ue_rdma.c:46-47 | only the hit entry's last activity changes, and it becomes now |
| RdmaPool.RepeatLookupSameEntry | ue_rdma.c:44-47 | two lookups of one address within the timeout return the same entry |
| RdmaPool.ExpiredSkipped | ue_rdma.c:43-51 | a timed-out entry is never returned, though it stays in the pool |
| RdmaPool.ConnPool.constructor | ue_rdma.c:4-15 | the pool starts empty with the given timeout |
| RdmaPool.ConnPool.GetEphemeralConn | ue_rdma.c:36-52 | returns the first live entry for the address and refreshes only it; a miss returns null and leaves the pool as it was |
| RdmaPool.WritePlan | ue_rdma.c:18-33 | as written: a hit posts on the pooled entry; a miss posts on the created connection, or on NULL when creation failed |
| RdmaPool.WriteAsWrittenPostsNull | ue_rdma.c:25-32 | with an empty pool and a failed creation, the written code posts on NULL |
| RdmaPool.CheckedWritePlan | ue_rdma.c:25-32 | corrected: never posts on NULL; fails with -ENOMEM exactly on a miss with a failed creation; otherwise agrees with the written plan |
| RdmaPool.CheckedDiffersOnlyOnNull | ue_rdma.c:25-32 | the corrected and the written write paths differ exactly where the written one posts on NULL |
| RdmaPool.WriteImmediate | ue_rdma.c:18-33 | the connection posted on and the pool afterwards follow the written plan; the result is the post's |
| RdmaPool.WriteImmediateChecked | ue_rdma.c:18-33 | follows the corrected plan: -ENOMEM and no post when a miss meets a failed creation |
| FlowManager.InitialFlowState | sonic-ue-transportd/src/ue_flow_manager.cpp:191-202 | a new flow has sequence 1, ack 0, window and cwnd at the default, ssthresh 65536, spraying on, 4 paths weighted 25 each, stamped now |
| FlowManager.EqualWeights | sonic-ue-transportd/src/ue_flow_manager.cpp:258-262 | n weights, each 100 / n |
| FlowManager.EqualWeightsSum | sonic-ue-transportd/src/ue_flow_manager.cpp:259-262 | the equal weights sum to at most 100 and to more than 100 - n |
| FlowManager.RttUpdate | sonic-ue-transportd/src/ue_flow_manager.cpp:351-366 | current is the sample; min is taken when unset or larger; max is the larger; avg starts at the sample and then is the floor of (7 avg + sample) / 8; nothing else changes |
| FlowManager.RttAverageBetween | sonic-ue-transportd/src/ue_flow_manager.cpp:351-366 | the average stays between the minimum and the maximum sample |
| FlowManager.RttExample | sonic-ue-transportd/src/ue_flow_manager.cpp:362-366 | samples 100 then 108 give average 101, minimum 100, maximum 108 |
| FlowManager.LiveFlows | sonic-ue-transportd/src/ue_flow_manager.cpp:432-458 | the kept flows are exactly those idle for no longer than the timeout, with their states unchanged |
| FlowManager.ExpiredIds | sonic-ue-transportd/src/ue_flow_manager.cpp:436 | the removed ids are exactly the flows idle for strictly longer than the timeout |
| FlowManager.SweepStep | sonic-ue-transportd/src/ue_flow_manager.cpp:436-456 | visiting one flow removes it exactly when it has expired |
| FlowManager.ExpiryKeepsKeysAligned | sonic-ue-transportd/src/ue_flow_manager.cpp:442-453 | removing expired flows and their statistics keeps the two tables on the same keys |
| FlowManager.SweepBoundary | sonic-ue-transportd/src/ue_flow_manager.cpp:436 | a flow idle for exactly the timeout survives; one idle a second longer is removed |
| FlowManager.SweepIdempotent | sonic-ue-transportd/src/ue_flow_manager.cpp:432-458 | a second sweep at the same time removes nothing |
| FlowManager.ParsePacketFlowId | sonic-ue-transportd/src/ue_flow_manager.cpp:279-302 | the zero key below 28 bytes or when the version is not 4; otherwise big-endian addresses from bytes 12-19, with ports from bytes 20-23 only for protocol 17 |
| FlowManager.AcceptedKeyIsIpv4 | sonic-ue-transportd/src/ue_flow_manager.cpp:306-310 | a key with both addresses non-zero comes from an IPv4 packet of at least 28 bytes |
| FlowManager.RangedU32 | sonic-ue-transportd/src/ue_flow_manager.cpp:96-128 | a value is taken exactly when it parses and lies in the given range |
| FlowManager.ApplyTransportFieldsInRange | sonic-ue-transportd/src/ue_flow_manager.cpp:72-129 | whatever the fields, window, max flows and timeout stay within [1024, 1048576], [1000, 10000000] and [10, 3600] |
| FlowManager.WindowFieldAccepted | sonic-ue-transportd/src/ue_flow_manager.cpp:96-106 | a window field changes the window exactly when it parses into range, and changes nothing else |
| FlowManager.FlowTable.constructor | sonic-ue-transportd/src/ue_flow_manager.cpp:10-26 | empty tables; mode RUD, algorithm UE_CUBIC_PLUS, window 65536, 1000000 flows, timeout 300 |
| FlowManager.FlowTable.CreateFlow | sonic-ue-transportd/src/ue_flow_manager.cpp:176-214 | a full table or a known id changes nothing; otherwise the initial state and zeroed statistics are added; the tables keep the same keys |
| FlowManager.FlowTable.RemoveFlow | sonic-ue-transportd/src/ue_flow_manager.cpp:216-241 | the flow and its statistics are gone and the statistics key is retracted, whether or not the flow existed |
| FlowManager.FlowTable.UpdateFlowState | sonic-ue-transportd/src/ue_flow_manager.cpp:243-249 | a known flow gets the given state stamped now; an unknown one changes nothing |
| FlowManager.FlowTable.EnablePacketSpraying | sonic-ue-transportd/src/ue_flow_manager.cpp:251-266 | a known flow gets spraying on, n paths and n equal weights; an unknown one changes nothing |
| FlowManager.FlowTable.UpdateFlowPaths | sonic-ue-transportd/src/ue_flow_manager.cpp:268-277 | a known flow gets the weights verbatim and their count as its path count; an unknown one changes nothing |
| FlowManager.FlowTable.ProcessIncomingPacket | sonic-ue-transportd/src/ue_flow_manager.cpp:304-344 | a key with a zero address is ignored; an unknown flow is created with the default mode if there is room; the flow then counts one packet of the packet's length and is stamped now; a rejected creation counts nothing |
| FlowManager.FlowTable.UpdateFlowRtt | sonic-ue-transportd/src/ue_flow_manager.cpp:346-368 | a flow with statistics folds in the sample; otherwise nothing changes |
| FlowManager.FlowTable.CleanupExpiredFlows | sonic-ue-transportd/src/ue_flow_manager.cpp:425-463 | exactly the expired flows and their statistics are removed and their keys retracted |
| FlowManager.FlowTable.DoPeriodicTask | sonic-ue-transportd/src/ue_flow_manager.cpp:370-394 | the sweep runs when 60 s have passed since the last one, dropping exactly the expired flows and their statistics and retracting their statistics keys; each timer moves to now only when its task runs; otherwise the tables are unchanged |
| FlowManager.FlowTable.ProcessTransportConfig | sonic-ue-transportd/src/ue_flow_manager.cpp:55-147 | only a SET on "global" changes the configuration, applying the fields in order |
| CongestionManager.Classify | sonic-ue-transportd/src/ue_congestion_manager.cpp:136-144 | critical at or above the critical threshold, else congested at or above the congested threshold, else warning at or above the warning threshold, else normal, each as an if-and-only-if |
| CongestionManager.ClassifyExamples | sonic-ue-transportd/src/ue_congestion_manager.cpp:136-144 | with 70/85/95: 85 and 94 are congested, 95 critical, 70 warning, 10 normal |
| CongestionManager.ClassifyMonotone | sonic-ue-transportd/src/ue_congestion_manager.cpp:136-144 | with ascending thresholds a deeper queue never gets a less severe state |
| CongestionManager.Sample | sonic-ue-transportd/src/ue_congestion_manager.cpp:127-144 | the record takes the sampled depth, the time and the classified state, and keeps its thresholds |
| CongestionManager.WeightOf | sonic-ue-transportd/src/ue_congestion_manager.cpp:218-238 | a weight is at most 100 |
| CongestionManager.Reweigh | sonic-ue-transportd/src/ue_congestion_manager.cpp:218-238 | normal 100, warning 75, congested 25, critical 0; available exactly when not critical; the state is kept |
| CongestionManager.ReweighAll | sonic-ue-transportd/src/ue_congestion_manager.cpp:212-240 | every path is reweighed and none is added or lost |
| CongestionManager.ReweighOnlyState | sonic-ue-transportd/src/ue_congestion_manager.cpp:218-238 | two paths in the same state get the same weight and availability |
| CongestionManager.ReweighAllIdempotent | sonic-ue-transportd/src/ue_congestion_manager.cpp:212-240 | rebalancing twice is the same as once |
| CongestionManager.ReweighFixesConsistent | sonic-ue-transportd/src/ue_congestion_manager.cpp:218-238 | a path is unchanged by rebalancing exactly when its weight and availability already match its state |
| CongestionManager.EventStats | sonic-ue-transportd/src/ue_congestion_manager.cpp:159-186 | every event counts one; congested adds 100 ECN marks and, with rebalancing on, one rebalance; critical adds 10 drops; nothing else changes |
| CongestionManager.KeepLast | sonic-ue-transportd/src/ue_congestion_manager.cpp:194-196 | the newest min(n, 100) records, in order |
| CongestionManager.PushEvent | sonic-ue-transportd/src/ue_congestion_manager.cpp:190-196 | the new record is last; below 100 records it is appended; otherwise the oldest is dropped to keep 100 |
| CongestionManager.TrimHistory | sonic-ue-transportd/src/ue_congestion_manager.cpp:194-196 | popping from the front while over 100 leaves the newest 100 |
| CongestionManager.HandleEvent | sonic-ue-transportd/src/ue_congestion_manager.cpp:153-197 | counts the event for the interface, rebalances paths only for a congested state with rebalancing on, and pushes the interface's record |
| CongestionManager.DetectAll | sonic-ue-transportd/src/ue_congestion_manager.cpp:118-151 | a detection pass keeps the set of interfaces |
| CongestionManager.DetectAllClassifies | sonic-ue-transportd/src/ue_congestion_manager.cpp:122-144 | after a pass every visited interface holds its sampled depth and the classified state; unvisited ones are unchanged |
| CongestionManager.DetectOneInterfaces | sonic-ue-transportd/src/ue_congestion_manager.cpp:122-144 | one iteration changes only the visited interface's record, to its sample |
| CongestionManager.DetectAllBoundsHistory | sonic-ue-transportd/src/ue_congestion_manager.cpp:190-196 | the history never exceeds 100 records |
| CongestionManager.DetectOneQuiet | sonic-ue-transportd/src/ue_congestion_manager.cpp:133-149 | an interface whose state does not change raises no event and changes no counter |
| CongestionManager.DetectOneReports | sonic-ue-transportd/src/ue_congestion_manager.cpp:147-149 | an interface whose state changes pushes one record carrying its new state |
| CongestionManager.ApplyCongestionField | sonic-ue-transportd/src/ue_congestion_manager.cpp:65-85 | a field throws exactly when it is a threshold whose value `std::stoi` rejects |
| CongestionManager.ApplyCongestionFieldsStops | sonic-ue-transportd/src/ue_congestion_manager.cpp:61-86 | once a field has thrown, later fields are never applied |
| CongestionManager.UnknownAlgorithmIgnored | sonic-ue-transportd/src/ue_congestion_manager.cpp:65-74 | an unknown algorithm name leaves the configuration unchanged |
| CongestionManager.ThresholdUnchecked | sonic-ue-transportd/src/ue_congestion_manager.cpp:75-76 | any parsed ECN threshold is stored, without a range check |
| CongestionManager.ElapsedU64 | sonic-ue-transportd/src/ue_congestion_manager.cpp:98 | unsigned 64-bit subtraction, which is the plain difference when time has not gone back |
| CongestionManager.CongestionMonitor.constructor | sonic-ue-transportd/src/ue_congestion_manager.cpp:6-27 | UE_CUBIC_PLUS, ECN 80, drop 95, feedback, rebalancing and spraying on, interval 100 ms, timers zero, no statistics or events |
| CongestionManager.CongestionMonitor.UpdatePathWeights | sonic-ue-transportd/src/ue_congestion_manager.cpp:212-240 | the path table becomes its rebalanced form |
| CongestionManager.CongestionMonitor.HandleCongestionEvent | sonic-ue-transportd/src/ue_congestion_manager.cpp:153-197 | the counters, paths and history change as the event handler specifies |
| CongestionManager.CongestionMonitor.DetectInterface | sonic-ue-transportd/src/ue_congestion_manager.cpp:122-150 | one loop iteration is one step of the detection pass |
| CongestionManager.CongestionMonitor.DetectCongestion | sonic-ue-transportd/src/ue_congestion_manager.cpp:118-151 | the monitor's state after the loop is the detection pass over the interfaces in order |
| CongestionManager.CongestionMonitor.ProcessCongestionConfig | sonic-ue-transportd/src/ue_congestion_manager.cpp:50-91 | only a SET on "global" applies the fields; a throw stops at the failing field and is reported |
| CongestionManager.CongestionMonitor.DoPeriodicTask | sonic-ue-transportd/src/ue_congestion_manager.cpp:93-116 | the new monitor state is the detection pass when the interval has passed (else the old state), then reweighed paths when rebalancing is enabled and 1000 ms have passed; statistics after 5000 ms; each timer moves only when its task runs |
| LlrManager.PowerOfTwoTestSound | sonic-ue-linkd/src/ue_llr_manager.cpp:105 | a non-zero w with w & (w - 1) == 0 is a power of two |
| LlrManager.PowerOfTwoTestComplete | sonic-ue-linkd/src/ue_llr_manager.cpp:105 | every power of two passes the bit test |
| LlrManager.CheckWindow | sonic-ue-linkd/src/ue_llr_manager.cpp:103-112 | the window is kept or replaced by 256 |
| LlrManager.CheckWindowKeeps | sonic-ue-linkd/src/ue_llr_manager.cpp:105-112 | the window is kept exactly when it is a power of two in [16, 1024] |
| LlrManager.CheckWindowIsLlrWindow | sonic-ue-linkd/src/ue_llr_manager.cpp:105-112 | the resulting window is always a power of two in [16, 1024] |
| LlrManager.LlrWindowsArePow2 | sonic-ue-linkd/src/ue_llr_manager.cpp:105-112 | every accepted window size is a power of two |
| LlrManager.ParseLlrFieldsInRange | sonic-ue-linkd/src/ue_llr_manager.cpp:73-119 | whatever the fields, retries stay in [1, 10], timeout in [1, 100] and the window is an accepted size |
| LlrManager.ApplyLlrFieldInRange | sonic-ue-linkd/src/ue_llr_manager.cpp:79-118 | one field keeps the parsed values in range |
| LlrManager.RetriesExamples | sonic-ue-linkd/src/ue_llr_manager.cpp:81-90 | "11" and "-1" give 3, "7" gives 7, and an unparseable value changes nothing |
| LlrManager.GlobalAfterSet | sonic-ue-linkd/src/ue_llr_manager.cpp:122-129 | with llr_enable the global configuration is exactly the parsed values, enabled; otherwise only the enabled flag clears |
| LlrManager.InterfaceDecision | sonic-ue-linkd/src/ue_llr_manager.cpp:141-171 | an enabled interface gets the global retries and timeout, buffer 1024 and statistics on |
| LlrManager.ScanInterface | sonic-ue-linkd/src/ue_llr_manager.cpp:150-163 | the field loop yields the last llr_enable value and whether any llr_enable or "true" ue_enable was seen |
| LlrManager.ScanFindsActionable | sonic-ue-linkd/src/ue_llr_manager.cpp:150-163 | the scan acts exactly when some field is llr_enable or a "true" ue_enable |
| LlrManager.ScanKeepsEnabled | sonic-ue-linkd/src/ue_llr_manager.cpp:150-163 | without an llr_enable field the interface stays disabled |
| LlrManager.ScanFollowsLastLlrEnable | sonic-ue-linkd/src/ue_llr_manager.cpp:154-156 | the interface is enabled exactly when the last llr_enable field is "true" |
| LlrManager.TickStats | sonic-ue-linkd/src/ue_llr_manager.cpp:380-383 | retries and successes grow by the increments; the frame counters keep their invariant |
| LlrManager.TickAllFromZero | sonic-ue-linkd/src/ue_llr_manager.cpp:380-383 | after any run of updates, frames retransmitted equal retries and frames transmitted equal retries plus successes |
| LlrManager.LlrManager.constructor | sonic-ue-linkd/src/ue_llr_manager.cpp:8-27 | LLR off, 3 retries, 5 ms, window 256, selective repeat on, empty tables |
| LlrManager.LlrManager.EnableGlobalLlr | sonic-ue-linkd/src/ue_llr_manager.cpp:178-209 | the global configuration is exactly the given values, enabled |
| LlrManager.LlrManager.DisableGlobalLlr | sonic-ue-linkd/src/ue_llr_manager.cpp:211-229 | LLR off with the other global values kept, and the interface, SAI-object and statistics tables empty |
| LlrManager.LlrManager.EnableInterfaceLlr | sonic-ue-linkd/src/ue_llr_manager.cpp:231-246 | the interface's configuration is recorded and its statistics reset to zero |
| LlrManager.LlrManager.DisableInterfaceLlr | sonic-ue-linkd/src/ue_llr_manager.cpp:248-271 | the interface leaves the configuration, SAI-object and statistics tables, and nothing else changes |
| LlrManager.LlrManager.ProcessLlrConfig | sonic-ue-linkd/src/ue_llr_manager.cpp:56-131 | other keys and operations change nothing; SET stores the parsed values when llr_enable is "true", keeping the interface, SAI-object and statistics tables; otherwise SET, and DEL, turn LLR off keeping the other global values and empty those tables |
| LlrManager.LlrManager.ProcessInterfaceConfig | sonic-ue-linkd/src/ue_llr_manager.cpp:133-176 | SET enables, disables or ignores the interface as the scan decides, enabling leaving the SAI-object table as it was; DEL disables it; other operations change nothing |
| LlrManager.LlrManager.UpdateInterfaceLlrStats | sonic-ue-linkd/src/ue_llr_manager.cpp:369-383 | one update of the interface's counters with the given increments |
| LlrManager.LlrManager.UpdateLlrStatistics | sonic-ue-linkd/src/ue_llr_manager.cpp:334-340 | every configured interface gets exactly one update; the keys are unchanged |
| LlrManager.LlrManager.DoPeriodicTask | sonic-ue-linkd/src/ue_llr_manager.cpp:323-332 | after 5 s every statistics entry takes one tick with its interface's increments, and the timer moves only then; otherwise nothing changes |
| PriManager.ApplyPriField | sonic-ue-linkd/src/ue_pri_manager.cpp:59-67 | a field throws exactly when it is a compression ratio that does not parse |
| PriManager.LaterFlagOverrides | sonic-ue-linkd/src/ue_pri_manager.cpp:55-68 | a later pri_enable, ethernet_compression or ip_compression field decides that flag, on exactly "true" |
| PriManager.BadRatioThrows | sonic-ue-linkd/src/ue_pri_manager.cpp:65-66 | an unparseable compression ratio throws, wherever it appears |
| PriManager.ParsePriFieldsNoneStays | sonic-ue-linkd/src/ue_pri_manager.cpp:55-68 | after a throw no later field matters |
| PriManager.PriDecision | sonic-ue-linkd/src/ue_pri_manager.cpp:39-76 | other keys or operations are ignored; a throw is reported; otherwise enable with the parsed flags and ratio exactly when pri_enable is "true", else disable |
| PriManager.PriDefaults | sonic-ue-linkd/src/ue_pri_manager.cpp:50-53 | no fields disable PRI; pri_enable alone enables it with both compressions off and ratio 25 |
| PriManager.SavedPerPacket | sonic-ue-linkd/src/ue_pri_manager.cpp:130 | ratio * 42 / 100 on uint32_t, exact when the product does not wrap |
| PriManager.PriTick | sonic-ue-linkd/src/ue_pri_manager.cpp:127-132 | as written: +1000 compressed, +50 uncompressed, bytes saved grow by the cumulative compressed count times the per-packet saving, and the reported ratio is recomputed |
| PriManager.PriTickRatioClimbs | sonic-ue-linkd/src/ue_pri_manager.cpp:129-132 | at ratio 25 the written update reports 23 and then 35 |
| PriManager.PriTickPerUpdate | sonic-ue-linkd/src/ue_pri_manager.cpp:127-132 | corrected: bytes saved grow by this update's 1000 packets times the per-packet saving |
| PriManager.PriTicksCount | sonic-ue-linkd/src/ue_pri_manager.cpp:127-130 | with the corrected update, n updates from zero give 1000n packets and 1000n times the per-packet saving |
| PriManager.PriTicksSteady | sonic-ue-linkd/src/ue_pri_manager.cpp:131-132 | with the corrected update the reported ratio stays the per-packet saving over 42, whatever n |
| PriManager.PriManager.constructor | sonic-ue-linkd/src/ue_pri_manager.cpp:5-16 | the given configuration and interface table, no statistics, timer zero |
| PriManager.PriManager.EnableGlobalPri | sonic-ue-linkd/src/ue_pri_manager.cpp:78-99 | PRI on with exactly the given flags and ratio; the other fields are kept |
| PriManager.PriManager.ProcessPriConfig | sonic-ue-linkd/src/ue_pri_manager.cpp:39-76 | follows the decision; the enable branch installs the parsed flags and ratio, an ignored key or operation and a failed ratio parse leave the configuration as it was; nothing is stated after the disable branch |
| PriManager.PriManager.UpdateInterfacePriStats | sonic-ue-linkd/src/ue_pri_manager.cpp:120-132 | the interface's counters take one written update, starting from zero for a new entry |
| PriManager.PriManager.UpdatePriStatistics | sonic-ue-linkd/src/ue_pri_manager.cpp:112-118 | exactly the enabled interfaces get an update; other entries are unchanged |
| PriManager.PriManager.DoPeriodicTask | sonic-ue-linkd/src/ue_pri_manager.cpp:101-110 | after 5 s every enabled interface's entry takes one tick (a fresh entry starting from zero) and the others stay, and the timer moves only then; otherwise nothing changes |
| DualStackConfig.DefaultVersionTokens | ue_dual_stack_config_mgr.py:226 | the default "4,6" splits into "4" and "6" |
| DualStackConfig.GlobalErrors | ue_dual_stack_config_mgr.py:228-231 | every error names a token that does not strip to "4" or "6" |
| DualStackConfig.GlobalErrorsComplete | ue_dual_stack_config_mgr.py:229-231 | every bad token is reported |
| DualStackConfig.GlobalErrorsEmpty | ue_dual_stack_config_mgr.py:228-231 | no global error exactly when every token strips to "4" or "6" |
| DualStackConfig.IfaceErrors | ue_dual_stack_config_mgr.py:236-243 | at most two errors, each a missing max_paths for that interface |
| DualStackConfig.IfaceErrorsMeaning | ue_dual_stack_config_mgr.py:239-243 | a v4 error exactly when the unstripped tokens include "4" and max_paths_v4 is absent, and the same for v6 |
| DualStackConfig.InterfaceErrors | ue_dual_stack_config_mgr.py:234-243 | every interface error is a missing max_paths |
| DualStackConfig.InterfaceErrorsEmpty | ue_dual_stack_config_mgr.py:234-243 | no interface error exactly when every interface has max_paths for the versions it lists |
| DualStackConfig.GroupErrors | ue_dual_stack_config_mgr.py:249-261 | at most one error per group, each an invalid prefix of that family |
| DualStackConfig.GroupErrorsEmpty | ue_dual_stack_config_mgr.py:249-261 | no group error exactly when every prefix parses |
| DualStackConfig.GlobalSectionEmpty | ue_dual_stack_config_mgr.py:224-231 | the global section is clean exactly when its tokens are valid or the table is absent |
| DualStackConfig.InterfaceSectionEmpty | ue_dual_stack_config_mgr.py:234-243 | the interface section is clean exactly when every interface is consistent or the table is absent |
| DualStackConfig.OptGroupErrorsEmpty | ue_dual_stack_config_mgr.py:249-261 | an absent group table is clean, a present one as its prefixes |
| DualStackConfig.ValidationErrorsEmpty | ue_dual_stack_config_mgr.py:219-263 | the validator returns no error exactly when no rule fires |
| DualStackConfig.ValidationErrorsOrdered | ue_dual_stack_config_mgr.py:219-263 | errors come global first, then interface, then IPv4 and IPv6 ECMP |
| DualStackConfig.ValidateDualStackConfig | ue_dual_stack_config_mgr.py:219-263 | the list the loops build is the specified error list, empty exactly for a valid configuration |
| DualStackConfig.CheckGlobalVersions | ue_dual_stack_config_mgr.py:224-231 | the global loop appends exactly the global errors |
| DualStackConfig.CheckInterfaces | ue_dual_stack_config_mgr.py:234-243 | the interface loop appends exactly the interface errors |
| DualStackConfig.CheckInterface | ue_dual_stack_config_mgr.py:236-243 | one interface adds exactly its errors |
| DualStackConfig.CheckGroups | ue_dual_stack_config_mgr.py:249-261 | a group loop appends exactly that family's prefix errors |
| DualStackConfig.ApplyGlobal | ue_dual_stack_config_mgr.py:58-86 | without enable "true" only enabled=false is written; otherwise six writes in the source's order (enabled, ipv4_enabled, ipv6_enabled, transport mode, dual-stack mode, algorithm), with IPv4 and IPv6 on exactly when "4" and "6" are unstripped tokens, and the defaults uet, concurrent and hybrid |
| DualStackConfig.SpacedVersionsPassButDisableIpv6 | ue_dual_stack_config_mgr.py:62-69 | "4, 6" passes validation, yet applying it records IPv6 off |
| DualStackConfig.SpacedTokens | ue_dual_stack_config_mgr.py:226-231 | "4, 6" splits into "4" and " 6", both valid once stripped, and " 6" is not "6" |
| DualStackConfig.ConfigureEcmpGroup | ue_dual_stack_config_mgr.py:165-186 | nothing is written exactly when the prefix is rejected; otherwise four writes under the group key, in order: the prefix, max_paths (default "4"), hash_algorithm (default "crc32") and the version |
| DualStackConfig.GroupErrorsName | ue_dual_stack_config_mgr.py:249-261 | a group name is reported exactly when some group of that name has a prefix the family rejects |
| DualStackConfig.EcmpWriteOfGroup | ue_dual_stack_config_mgr.py:156-158 | a write of the group loop is a write of one of its groups, and every group's writes are in the loop's |
| DualStackConfig.EcmpWriteCount | ue_dual_stack_config_mgr.py:165-186 | four writes for each group the validator does not report, none for the others |
| DualStackConfig.EcmpAppliedUnlessReported | ue_dual_stack_config_mgr.py:153-186 | for either family and distinct group names: each group is written exactly when the validator does not report its name, the loop writes nothing else, four writes per written group |
| DualStackConfig.ApplyEcmp | ue_dual_stack_config_mgr.py:153-163 | the IPv4 groups' writes followed by the IPv6 groups'; an absent table contributes nothing |
| DualStackConfig.ReportedPrefix | ue_dual_stack_config_mgr.py:219-263 | the full validator reports a family's invalid prefix exactly when that family's group check does |
| DualStackConfig.ApplyEcmpUnlessReported | ue_dual_stack_config_mgr.py:153-163 | IPv4 writes then IPv6 writes, and for each family a write belongs to a group whose name the full validator does not report, and back |
| DualStackConfig.Ipv6KeyExamples | ue_dual_stack_config_mgr.py:303 | "Ethernet0\|fe80::1/64" is an IPv6 key of Ethernet0; "Ethernet0\|10.0.0.1/24" and "Ethernet01\|fe80::1/64" are not |
| DualStackConfig.InterfaceWritesShape | ue_dual_stack_config_mgr.py:126-151 | six to eight writes, all to the interface's key, ending with the notification on the dual-stack channel that carries the interface, the SET_DUAL_STACK operation, the configuration and the recorded capabilities |
| DualStackConfig.InterfaceWritesMaxPaths | ue_dual_stack_config_mgr.py:133-140 | max_paths_v4 is written once (default "4") exactly when IPv4 is on, and the same for v6 |
| DualStackConfig.DualStackConfigManager.constructor | ue_dual_stack_config_mgr.py:11-25 | no interface capabilities recorded |
| DualStackConfig.DualStackConfigManager.ApplyInterfaceDualStackConfig | ue_dual_stack_config_mgr.py:111-151 | nothing without ue_enable "true"; otherwise the unstripped-token capabilities are recorded and the interface writes made |
| DualStackConfig.DualStackConfigManager.AutoDetectIpCapabilities | ue_dual_stack_config_mgr.py:287-310 | IPv4 exactly when the interface has an entry; IPv6 exactly when some key starts with the interface and a bar and contains a colon |
| DualStackConfig.CliVersions | ue_dual_stack_config_mgr.py:318-325 | never empty, only "4" and "6"; "4" unless only IPv6 was asked for, "6" unless only IPv4 was |
| DualStackConfig.CliVersionsRoundTrip | ue_dual_stack_config_mgr.py:318-332 | the joined list splits back into itself and passes the global check |
| DualStackConfig.CliGlobalEntryFields | ue_dual_stack_config_mgr.py:327-334 | exactly the six fields, with the arguments' values and mode "concurrent" |
| DualStackConfig.CliGlobalEntryVersions | ue_dual_stack_config_mgr.py:318-332 | the entry's versions are the CLI list, and pass validation |
| DualStackConfig.CliGlobalEntryApplied | ue_dual_stack_config_mgr.py:318-334 | an enabling entry, applied, records IPv4 unless only IPv6 was asked for and IPv6 unless only IPv4 was |
| DualStackConfig.CliInterfaceEntryFields | ue_dual_stack_config_mgr.py:353-363 | the four fixed fields plus a max_paths field exactly for each version asked for |
| DualStackConfig.CliInterfaceEntryVersions | ue_dual_stack_config_mgr.py:344-355 | the entry's versions are the CLI list |
| DualStackConfig.CliInterfaceEntryChecked | ue_dual_stack_config_mgr.py:344-363 | with a version asked for the entry is consistent; with neither it fails with two missing-max_paths errors |

## Left out

- Database and pub/sub I/O is left out: `set`, `del`, `hset`, `publish`, `get_entry`/`get_keys` and the consumer dispatch in `doTask`. So is logging. In the C++ daemons the writes are not modelled; statistics publishing is a no-op. Deleted statistics keys appear as a ghost `retracted` set in the flow table. In the Python manager the writes are the returned list, and the orchagent notification is the final `Publish` write.
- `processFlowConfig` is left out: its loops have no effect.
- `ipToString` is left out: it only formats addresses for logging.
- `updateCongestionState`, `enableECNMarking` and `updateCongestionStatistics` are left out. The first has no body in the congestion manager's source. The other two only write to the database.
- `rebalancePaths` is modelled as `updatePathWeights`, which is all it does.
- The congestion monitor's interface and path tables are filled by the interface handler, whose body is not shown. They are constructor arguments.
- Clocks (`time`, `steady_clock`, `jiffies`) are parameters. Congestion detection stamps every interface with one timestamp, whereas the source reads `steady_clock` again for each interface (ue_congestion_manager.cpp:129-130).
- Random values are inputs:
  - the `rand() % 100` queue depth;
  - the LLR retry and success increments;
  - the multipath entropy seed.
- `time_before` is modelled with unbounded integers, not its wrap-around arithmetic.
- The LLR floating-point rates are left out: `latency_improvement_ns` and `success_rate_percent`.
- `getPortOid` is left out: it is a `std::hash` of the name.
- `applyLLRToInterface` is left out: it only writes to the database.
- The PRI manager's `disableGlobalPRI`, `processInterfaceConfig`, `validatePRIConfig` and the interface enable/disable methods are declared in its header without bodies. The model's disable branch changes nothing, and its contract states nothing about the state after that branch.
- PriManager.PriManager.constructor: the C++ constructor leaves the global PRI configuration uninitialised, so the model takes it as an argument.
- LlrManager.LlrManager.DisableGlobalLlr: modelled as the intended clear of every interface table. The source erases entries from the map it is iterating over, which is undefined behaviour in C++.
- FlowManager.FlowTable.EnablePacketSpraying: requires a positive path count for a known flow, since the source divides 100 by it (undefined for 0).
- DualStackAddr.Multipath.SetupMultipathV2: requires the path count reported by the provider to fit the path array. The source does not check this, and writing past the array is undefined behaviour.
- DualStackAddr.MemCmp: only the sign and magnitude bound of `memcmp` are specified, as the C standard does. The model returns the first byte difference.
- The uint64_t counters of the LLR, PRI, flow and congestion statistics are unbounded integers. Their 64-bit wrap-around is not modelled. The uint32_t `ratio * 42` product in the PRI update is truncated explicitly.
- `ue_send_v2` is left out: its text breaks off mid-function.
- The provider and offload wrappers (`ue_provider.c`, `ue_inc.c`) are not part of this model. They call functions whose bodies are not shown.
- `ue_create_temp_connection`, `ue_create_temp_connection_v2` and `ue_post_rdma_write` are parameters: the created connection (possibly null) and the post's return code.
- RdmaPool.WriteImmediate: assumes the temporary connection created on a pool miss is not inserted into the pool, so its contract states the pool unchanged on a miss. The creation's body is not part of this model, and a design that inserts the new entry is not captured.
- RdmaPool.WriteImmediateChecked: assumes the same on the miss branches, both when the creation succeeds and when it fails.
- DualStackAddr.WriteImmediateV2: assumes the same of `ue_create_temp_connection_v2`; the pool's entries are stated unchanged on a miss.
- The daemons' entry points (`ue_linkd.cpp`, `ue_transportd.cpp`) are not part of this model, nor is `sonic_ue_mgr.py` or the SAI extension header.
- Python's `ipaddress.IPv4Network`/`IPv6Network` validity is a predicate parameter.
- Error messages are constructors of an error datatype rather than formatted strings.
- The Python manager's database loaders and writers are left out: `load_ue_dual_stack_config`, `apply_address_family_config`, `apply_rdma_dual_stack_config` and `get_interface_statistics`. They only copy values between tables.
- An exception inside `auto_detect_ip_capabilities` is not modelled. The database reads are its inputs.
- The CLI builders take their arguments as strings; the `str()` of an integer is not modelled. Their `set_entry` and `print` are left out.
- Iteration order over a C++ `std::map`/`unordered_map` or a Python dict is an explicit sequence, `order`, for the loops whose result depends on it (congestion detection, the Python dictionary walks). The loops whose contracts state a result for every key (path reweighing, the flow sweep, the LLR and PRI statistics updates, disabling LLR) pick keys in an arbitrary order, so their results hold for every order. The model accepts any `order`, including one that skips a key or repeats one; the source's instance is each key of the map exactly once, and no proved property depends on that.

## Findings

| source | as written | input that shows it | evidently intended | confidence | as-written member | corrected member |
|---|---|---|---|---|---|---|
| ue_rdma.c:25-32 | on a pool miss the temporary connection is created, and the write is posted without checking that creation succeeded | an empty pool and a failed `ue_create_temp_connection` post on NULL | return -ENOMEM without posting, as `ue_rdma_write_immediate_v2` does | not executed | RdmaPool.WriteAsWrittenPostsNull | RdmaPool.CheckedWritePlan |
| sonic-ue-linkd/src/ue_pri_manager.cpp:129-132 | `bytes_saved` grows by the cumulative `packets_compressed` times the per-packet saving on every update | ratio 25 from zeroed statistics: the reported ratio is 23 after one update and 35 after two | add only this update's 1000 packets, so the reported ratio stays the configured saving (23 at ratio 25) | not executed | PriManager.PriTickRatioClimbs | PriManager.PriTicksSteady |
