/** The flow table of the transport daemon (UEFlowManager,
    sonic-ue-transportd/src/ue_flow_manager.cpp): per-flow state and statistics
    keyed by the 5-tuple, flow creation and removal, packet spraying weights,
    the RTT moving average, the idle-timeout sweep, the IPv4/UDP flow-key
    parser and the range-checked transport configuration. Wall-clock time is
    the parameter `now` (seconds); database writes are left out. */
module FlowManager {
  import opened Common

  // ---------------------------------------------------------------------------
  // Data model
  // ---------------------------------------------------------------------------

  /** UEFlowId: the 5-tuple, host byte order. */
  datatype FlowId = FlowId(srcIp: u32, dstIp: u32, srcPort: u16, dstPort: u16, ipVersion: byte)

  const ZERO_FLOW_ID: FlowId := FlowId(0, 0, 0, 0, 0)

  datatype FlowMode =
    | ReliableUnorderedDelivery
    | ReliableOrderedDelivery
    | UnreliableUnorderedDelivery
    | ReliableUnorderedDeliveryIdempotent

  datatype CongestionAlgorithm = UeCubic | UeCubicPlus | Hybrid | ReceiverBased

  datatype FlowState = FlowState(
    flowId: FlowId,
    mode: FlowMode,
    sequenceNum: nat,
    ackNum: nat,
    windowSize: nat,
    congestionWindow: nat,
    ssthresh: nat,
    lastActivity: int,
    packetSprayingEnabled: bool,
    activePaths: nat,
    pathWeights: seq<nat>)

  datatype FlowStats = FlowStats(
    packetsSent: nat,
    packetsReceived: nat,
    bytesSent: nat,
    bytesReceived: nat,
    currentRttUs: nat,
    minRttUs: nat,
    maxRttUs: nat,
    avgRttUs: nat,
    packetsRetransmitted: nat,
    outOfOrderPackets: nat,
    duplicatePackets: nat)

  /** `UEFlowStats stats = {}`. */
  const ZERO_STATS: FlowStats := FlowStats(0, 0, 0, 0, 0, 0, 0, 0, 0, 0, 0)

  /** The five transport settings processTransportConfig maintains. */
  datatype TransportConfig = TransportConfig(
    defaultFlowMode: FlowMode,
    congestionAlgorithm: CongestionAlgorithm,
    defaultWindowSize: nat,
    maxFlows: nat,
    flowTimeoutSec: nat)

  const DEFAULT_TRANSPORT_CONFIG: TransportConfig :=
    TransportConfig(ReliableUnorderedDelivery, UeCubicPlus, 65536, 1000000, 300)

  const DEFAULT_SSTHRESH: nat := 65536
  const DEFAULT_PATH_WEIGHTS: seq<nat> := [25, 25, 25, 25]

  // ---------------------------------------------------------------------------
  // Specification functions
  // ---------------------------------------------------------------------------

  /** The state createFlow installs for a new flow at time `now`. */
  function InitialFlowState(id: FlowId, mode: FlowMode, window: nat, now: int): (s: FlowState)
    ensures s.flowId == id && s.mode == mode && s.lastActivity == now
    ensures s.sequenceNum == 1 && s.ackNum == 0
    ensures s.windowSize == window && s.congestionWindow == window && s.ssthresh == 65536
    ensures s.packetSprayingEnabled && s.activePaths == 4 && s.pathWeights == [25, 25, 25, 25]
  {
    FlowState(id, mode, 1, 0, window, window, DEFAULT_SSTHRESH, now, true, 4, DEFAULT_PATH_WEIGHTS)
  }

  function Sum(s: seq<nat>): nat {
    if s == [] then 0 else s[0] + Sum(s[1..])
  }

  /** The weight vector enablePacketSpraying builds: n copies of 100 / n. */
  function EqualWeights(n: nat): (w: seq<nat>)
    requires n > 0
    ensures |w| == n && forall i :: 0 <= i < n ==> w[i] == 100 / n
  {
    seq(n, _ => 100 / n)
  }

  lemma {:induction false} SumConstant(c: nat, s: seq<nat>)
    requires forall i :: 0 <= i < |s| ==> s[i] == c
    ensures Sum(s) == c * |s|
  {
    if s != [] {
      SumConstant(c, s[1..]);
    }
  }

  /** The equal split never exceeds 100 and loses less than one unit per path. */
  lemma EqualWeightsSum(n: nat)
    requires n > 0
    ensures 100 - n < Sum(EqualWeights(n)) <= 100
  {
    SumConstant(100 / n, EqualWeights(n));
  }

  /** One RTT sample folded into the statistics (updateFlowRTT). */
  function RttUpdate(st: FlowStats, sample: nat): (r: FlowStats)
    ensures r.currentRttUs == sample
    ensures r.minRttUs == (if st.minRttUs == 0 || sample < st.minRttUs then sample else st.minRttUs)
    ensures r.maxRttUs == (if sample > st.maxRttUs then sample else st.maxRttUs)
    ensures st.avgRttUs == 0 ==> r.avgRttUs == sample
    ensures st.avgRttUs != 0 ==> 8 * r.avgRttUs <= 7 * st.avgRttUs + sample < 8 * r.avgRttUs + 8
    ensures r == st.(currentRttUs := r.currentRttUs, minRttUs := r.minRttUs,
                     maxRttUs := r.maxRttUs, avgRttUs := r.avgRttUs)
  {
    st.(currentRttUs := sample,
        minRttUs := if st.minRttUs == 0 || sample < st.minRttUs then sample else st.minRttUs,
        maxRttUs := if sample > st.maxRttUs then sample else st.maxRttUs,
        avgRttUs := if st.avgRttUs == 0 then sample else (st.avgRttUs * 7 + sample) / 8)
  }

  /** The average stays between the smallest and the largest sample seen. */
  lemma RttAverageBetween(st: FlowStats, sample: nat)
    requires st.avgRttUs == 0 || (st.minRttUs <= st.avgRttUs <= st.maxRttUs && st.minRttUs > 0)
    ensures var r := RttUpdate(st, sample);
      r.minRttUs <= r.avgRttUs <= r.maxRttUs
  {
  }

  /** A flow is expired when it has been idle for strictly longer than the timeout. */
  predicate Expired(s: FlowState, now: int, timeout: nat) {
    now - s.lastActivity > timeout
  }

  /** The flows cleanupExpiredFlows keeps. */
  function LiveFlows(flows: map<FlowId, FlowState>, now: int, timeout: nat): (r: map<FlowId, FlowState>)
    ensures forall id :: id in r <==> id in flows && !Expired(flows[id], now, timeout)
    ensures forall id :: id in r ==> r[id] == flows[id]
  {
    map id | id in flows && !Expired(flows[id], now, timeout) :: flows[id]
  }

  /** The identities cleanupExpiredFlows removes. */
  function ExpiredIds(flows: map<FlowId, FlowState>, now: int, timeout: nat): (r: set<FlowId>)
    ensures forall id :: id in r <==> id in flows && Expired(flows[id], now, timeout)
  {
    set id | id in flows && Expired(flows[id], now, timeout)
  }

  /** The table part way through the sweep: the flows still to visit, and the
      visited ones that have not expired. */
  function Unswept(flows: map<FlowId, FlowState>, toVisit: set<FlowId>, now: int, timeout: nat): map<FlowId, FlowState> {
    map id | id in flows && (id in toVisit || !Expired(flows[id], now, timeout)) :: flows[id]
  }

  /** The visited flows that expired. */
  function ExpiredAmong(flows: map<FlowId, FlowState>, visited: set<FlowId>, now: int, timeout: nat): set<FlowId> {
    set id | id in visited && id in flows && Expired(flows[id], now, timeout)
  }

  /** Visiting one more flow removes it from the table exactly when it expired. */
  lemma SweepStep(flows: map<FlowId, FlowState>, toVisit: set<FlowId>, visited: set<FlowId>, id: FlowId, now: int, timeout: nat)
    requires id in toVisit && toVisit <= flows.Keys
    ensures Expired(flows[id], now, timeout) ==>
      && Unswept(flows, toVisit - {id}, now, timeout) == Unswept(flows, toVisit, now, timeout) - {id}
      && ExpiredAmong(flows, visited + {id}, now, timeout) == ExpiredAmong(flows, visited, now, timeout) + {id}
    ensures !Expired(flows[id], now, timeout) ==>
      && Unswept(flows, toVisit - {id}, now, timeout) == Unswept(flows, toVisit, now, timeout)
      && ExpiredAmong(flows, visited + {id}, now, timeout) == ExpiredAmong(flows, visited, now, timeout)
  {
  }

  /** Removing the expired flows and their statistics keeps the two tables on
      the same identities. */
  lemma ExpiryKeepsKeysAligned<S>(flows: map<FlowId, FlowState>, stats: map<FlowId, S>, now: int, timeout: nat)
    requires flows.Keys == stats.Keys
    ensures LiveFlows(flows, now, timeout).Keys == (stats - ExpiredIds(flows, now, timeout)).Keys
  {
  }

  // ---------------------------------------------------------------------------
  // parsePacketFlowId: IPv4 (RFC 791, section 3.1) and UDP (RFC 768) headers
  // ---------------------------------------------------------------------------

  const IPHDR_SIZE: nat := 20
  const UDPHDR_SIZE: nat := 8
  const IPPROTO_UDP: byte := 17

  function ReadBE16(p: seq<byte>, at: nat): (x: u16)
    requires at + 2 <= |p|
  {
    p[at] as int * 0x100 + p[at + 1] as int
  }

  function ReadBE32(p: seq<byte>, at: nat): (x: u32)
    requires at + 4 <= |p|
  {
    ReadBE16(p, at) * 0x1_0000 + ReadBE16(p, at + 2)
  }

  /** The flow key of an IPv4 packet. The version is the high nibble of byte 0,
      the protocol byte 9, the addresses bytes 12-15 and 16-19; the UDP ports
      follow a 20-byte IP header whatever its IHL says. Anything shorter than
      28 bytes, or not IPv4, gives the all-zero key. */
  function ParsePacketFlowId(packet: seq<byte>): (id: FlowId)
    ensures |packet| < IPHDR_SIZE + UDPHDR_SIZE || packet[0] / 16 != 4 ==> id == ZERO_FLOW_ID
    ensures |packet| >= IPHDR_SIZE + UDPHDR_SIZE && packet[0] / 16 == 4 ==>
      && id.ipVersion == 4
      && id.srcIp == ReadBE32(packet, 12) && id.dstIp == ReadBE32(packet, 16)
      && (packet[9] == IPPROTO_UDP ==> id.srcPort == ReadBE16(packet, 20) && id.dstPort == ReadBE16(packet, 22))
      && (packet[9] != IPPROTO_UDP ==> id.srcPort == 0 && id.dstPort == 0)
  {
    if |packet| < IPHDR_SIZE + UDPHDR_SIZE then ZERO_FLOW_ID
    else if packet[0] / 16 != 4 then ZERO_FLOW_ID
    else if packet[9] == IPPROTO_UDP then
      FlowId(ReadBE32(packet, 12), ReadBE32(packet, 16), ReadBE16(packet, 20), ReadBE16(packet, 22), 4)
    else
      FlowId(ReadBE32(packet, 12), ReadBE32(packet, 16), 0, 0, 4)
  }

  /** The key of a packet processIncomingPacket accepts is never the zero key
      and always names IPv4. */
  lemma AcceptedKeyIsIpv4(packet: seq<byte>)
    requires var id := ParsePacketFlowId(packet); id.srcIp != 0 && id.dstIp != 0
    ensures |packet| >= 28 && packet[0] / 16 == 4 && ParsePacketFlowId(packet).ipVersion == 4
  {
  }

  // ---------------------------------------------------------------------------
  // processTransportConfig
  // ---------------------------------------------------------------------------

  function ParseFlowMode(v: string): Option<FlowMode> {
    if v == "rud" then Some(ReliableUnorderedDelivery)
    else if v == "rod" then Some(ReliableOrderedDelivery)
    else if v == "uud" then Some(UnreliableUnorderedDelivery)
    else if v == "rudi" then Some(ReliableUnorderedDeliveryIdempotent)
    else None
  }

  function ParseAlgorithm(v: string): Option<CongestionAlgorithm> {
    if v == "ue_cubic" then Some(UeCubic)
    else if v == "ue_cubic_plus" then Some(UeCubicPlus)
    else if v == "hybrid" then Some(Hybrid)
    else if v == "receiver_based" then Some(ReceiverBased)
    else None
  }

  /** `uint32_t x = std::stoi(v)` followed by a range check: the new value, or
      None when stoi throws (caught) or the value is out of range. */
  function RangedU32(v: string, lo: nat, hi: nat): (r: Option<nat>)
    requires hi < 0x8000_0000
    ensures r.Some? <==> Stoi(v).Some? && lo <= Stoi(v).value <= hi
    ensures r.Some? ==> r.value == Stoi(v).value
  {
    match Stoi(v)
    case None => None
    case Some(x) => var w := ToU32(x); if lo <= w <= hi then Some(w) else None
  }

  /** The effect of one field of a "global" SET on the transport configuration. */
  function ApplyTransportField(c: TransportConfig, fv: FieldValue): (r: TransportConfig)
  {
    if fv.field == "default_flow_mode" then
      (match ParseFlowMode(fv.value) case Some(m) => c.(defaultFlowMode := m) case None => c)
    else if fv.field == "congestion_algorithm" then
      (match ParseAlgorithm(fv.value) case Some(a) => c.(congestionAlgorithm := a) case None => c)
    else if fv.field == "default_window_size" then
      (match RangedU32(fv.value, 1024, 1048576) case Some(w) => c.(defaultWindowSize := w) case None => c)
    else if fv.field == "max_flows" then
      (match RangedU32(fv.value, 1000, 10000000) case Some(m) => c.(maxFlows := m) case None => c)
    else if fv.field == "flow_timeout_sec" then
      (match RangedU32(fv.value, 10, 3600) case Some(t) => c.(flowTimeoutSec := t) case None => c)
    else c
  }

  function ApplyTransportFields(c: TransportConfig, values: seq<FieldValue>): TransportConfig
    decreases |values|
  {
    if values == [] then c
    else ApplyTransportFields(ApplyTransportField(c, values[0]), values[1..])
  }

  lemma {:induction false} ApplyTransportFieldsSnoc(c: TransportConfig, values: seq<FieldValue>, fv: FieldValue)
    ensures ApplyTransportFields(c, values + [fv]) == ApplyTransportField(ApplyTransportFields(c, values), fv)
    decreases |values|
  {
    if values != [] {
      assert (values + [fv])[1..] == values[1..] + [fv];
      ApplyTransportFieldsSnoc(ApplyTransportField(c, values[0]), values[1..], fv);
    }
  }

  /** The configuration predicate that every accepted setting lies in its documented range. */
  ghost predicate InRange(c: TransportConfig) {
    && 1024 <= c.defaultWindowSize <= 1048576
    && 1000 <= c.maxFlows <= 10000000
    && 10 <= c.flowTimeoutSec <= 3600
  }

  /** Out-of-range or unparseable values keep the previous setting, so the
      ranges hold after any sequence of fields. */
  lemma {:induction false} ApplyTransportFieldsInRange(c: TransportConfig, values: seq<FieldValue>)
    requires InRange(c)
    ensures InRange(ApplyTransportFields(c, values))
    decreases |values|
  {
    if values != [] {
      ApplyTransportFieldsInRange(ApplyTransportField(c, values[0]), values[1..]);
    }
  }

  /** A window size field is taken exactly when it parses to a value within
      [1024, 1048576]. */
  lemma WindowFieldAccepted(c: TransportConfig, v: string)
    ensures var r := ApplyTransportField(c, FieldValue("default_window_size", v));
      r == (if Stoi(v).Some? && 1024 <= Stoi(v).value <= 1048576
            then c.(defaultWindowSize := Stoi(v).value) else c)
  {
  }

  // ---------------------------------------------------------------------------
  // The flow table
  // ---------------------------------------------------------------------------

  class FlowTable {
    var activeFlows: map<FlowId, FlowState>
    var flowStats: map<FlowId, FlowStats>
    var config: TransportConfig
    /** Statistics keys deleted from the state database (m_state_db->del). */
    ghost var retracted: set<FlowId>
    /** The function-static timers of doPeriodicTask. */
    var lastStatsUpdate: int
    var lastCleanup: int
    var lastReport: int

    /** Every flow has a statistics entry and every statistics entry a flow. */
    ghost predicate Valid()
      reads this
    {
      activeFlows.Keys == flowStats.Keys
    }

    constructor ()
      ensures Valid() && activeFlows == map[] && flowStats == map[]
      ensures config == DEFAULT_TRANSPORT_CONFIG && retracted == {}
      ensures lastStatsUpdate == 0 && lastCleanup == 0 && lastReport == 0
    {
      activeFlows := map[];
      flowStats := map[];
      config := DEFAULT_TRANSPORT_CONFIG;
      retracted := {};
      lastStatsUpdate, lastCleanup, lastReport := 0, 0, 0;
    }

    /** createFlow: rejected (no change) when the table is full or the id is
        present; otherwise installs the initial state and zeroed statistics. */
    method CreateFlow(id: FlowId, mode: FlowMode, now: int)
      modifies this`activeFlows, this`flowStats
      ensures old(|activeFlows| >= config.maxFlows || id in activeFlows) ==>
        activeFlows == old(activeFlows) && flowStats == old(flowStats)
      ensures old(|activeFlows| < config.maxFlows && id !in activeFlows) ==>
        && activeFlows == old(activeFlows)[id := InitialFlowState(id, mode, config.defaultWindowSize, now)]
        && flowStats == old(flowStats)[id := ZERO_STATS]
      ensures old(Valid()) ==> Valid()
    {
      if |activeFlows| >= config.maxFlows {
        return;
      }
      if id in activeFlows {
        return;
      }
      activeFlows := activeFlows[id := InitialFlowState(id, mode, config.defaultWindowSize, now)];
      flowStats := flowStats[id := ZERO_STATS];
    }

    /** removeFlow: drops the flow and its statistics and retracts the published key. */
    method RemoveFlow(id: FlowId)
      modifies this`activeFlows, this`flowStats, this`retracted
      ensures activeFlows == old(activeFlows) - {id} && flowStats == old(flowStats) - {id}
      ensures id !in activeFlows && id !in flowStats
      ensures retracted == old(retracted) + {id}
      ensures old(Valid()) ==> Valid()
    {
      if id in activeFlows {
        activeFlows := activeFlows - {id};
      }
      if id in flowStats {
        flowStats := flowStats - {id};
      }
      retracted := retracted + {id};
    }

    /** updateFlowState: replaces a known flow's state, stamping it with `now`. */
    method UpdateFlowState(id: FlowId, state: FlowState, now: int)
      modifies this`activeFlows
      ensures id in old(activeFlows) ==> activeFlows == old(activeFlows)[id := state.(lastActivity := now)]
      ensures id !in old(activeFlows) ==> activeFlows == old(activeFlows)
      ensures old(Valid()) ==> Valid()
    {
      if id in activeFlows {
        activeFlows := activeFlows[id := state.(lastActivity := now)];
      }
    }

    /** enablePacketSpraying: n equal weights of 100 / n. The source divides by
        n inside the known-flow branch, so n must be positive there. */
    method EnablePacketSpraying(id: FlowId, numPaths: byte)
      requires id in activeFlows ==> numPaths > 0
      modifies this`activeFlows
      ensures id !in old(activeFlows) ==> activeFlows == old(activeFlows)
      ensures id in old(activeFlows) ==>
        activeFlows == old(activeFlows)[id := old(activeFlows)[id].(packetSprayingEnabled := true,
          activePaths := numPaths, pathWeights := EqualWeights(numPaths))]
      ensures old(Valid()) ==> Valid()
    {
      if id in activeFlows {
        var weightPerPath := 100 / numPaths;
        var weights: seq<nat> := [];
        var i := 0;
        while i < numPaths
          invariant 0 <= i <= numPaths
          invariant weights == seq(i, _ => weightPerPath)
        {
          weights := weights + [weightPerPath];
          i := i + 1;
        }
        activeFlows := activeFlows[id := activeFlows[id].(packetSprayingEnabled := true,
          activePaths := numPaths, pathWeights := weights)];
      }
    }

    /** updateFlowPaths: stores the vector as given, without normalising it. */
    method UpdateFlowPaths(id: FlowId, weights: seq<nat>)
      modifies this`activeFlows
      ensures id !in old(activeFlows) ==> activeFlows == old(activeFlows)
      ensures id in old(activeFlows) ==>
        activeFlows == old(activeFlows)[id := old(activeFlows)[id].(pathWeights := weights,
          activePaths := |weights|)]
      ensures old(Valid()) ==> Valid()
    {
      if id in activeFlows {
        activeFlows := activeFlows[id := activeFlows[id].(pathWeights := weights, activePaths := |weights|)];
      }
    }

    /** processIncomingPacket: packets whose key has a zero address are ignored;
        otherwise the flow is created with the default mode if absent and, if it
        then exists, counts one packet of |packet| bytes and is stamped `now`. */
    method ProcessIncomingPacket(iface: string, packet: seq<byte>, now: int)
      modifies this`activeFlows, this`flowStats
      ensures var id := ParsePacketFlowId(packet);
        && (id.srcIp == 0 || id.dstIp == 0 ==> activeFlows == old(activeFlows) && flowStats == old(flowStats))
        && (id.srcIp != 0 && id.dstIp != 0 && id !in old(activeFlows) && |old(activeFlows)| >= old(config.maxFlows) ==>
              activeFlows == old(activeFlows) && flowStats == old(flowStats))
        && (id.srcIp != 0 && id.dstIp != 0 && (id in old(activeFlows) || |old(activeFlows)| < old(config.maxFlows)) ==>
              var before := if id in old(activeFlows) then old(activeFlows)[id]
                            else InitialFlowState(id, config.defaultFlowMode, config.defaultWindowSize, now);
              var st := if id in old(activeFlows) && id in old(flowStats) then old(flowStats)[id] else ZERO_STATS;
              && activeFlows == old(activeFlows)[id := before.(lastActivity := now)]
              && flowStats == old(flowStats)[id := st.(packetsReceived := st.packetsReceived + 1,
                                                       bytesReceived := st.bytesReceived + |packet|)])
      ensures old(Valid()) ==> Valid()
    {
      var id := ParsePacketFlowId(packet);
      if id.srcIp == 0 || id.dstIp == 0 {
        return;
      }
      if id !in activeFlows {
        CreateFlow(id, config.defaultFlowMode, now);
      }
      if id in activeFlows {
        var st := if id in flowStats then flowStats[id] else ZERO_STATS;
        flowStats := flowStats[id := st.(packetsReceived := st.packetsReceived + 1,
                                         bytesReceived := st.bytesReceived + |packet|)];
        activeFlows := activeFlows[id := activeFlows[id].(lastActivity := now)];
      }
    }

    /** updateFlowRTT: folds one sample into the flow's statistics, if it has any. */
    method UpdateFlowRtt(id: FlowId, rttUs: u32)
      modifies this`flowStats
      ensures id in old(flowStats) ==> flowStats == old(flowStats)[id := RttUpdate(old(flowStats)[id], rttUs)]
      ensures id !in old(flowStats) ==> flowStats == old(flowStats)
      ensures old(Valid()) ==> Valid()
    {
      if id in flowStats {
        var st := flowStats[id];
        st := st.(currentRttUs := rttUs);
        if st.minRttUs == 0 || rttUs < st.minRttUs {
          st := st.(minRttUs := rttUs);
        }
        if rttUs > st.maxRttUs {
          st := st.(maxRttUs := rttUs);
        }
        if st.avgRttUs == 0 {
          st := st.(avgRttUs := rttUs);
        } else {
          st := st.(avgRttUs := (st.avgRttUs * 7 + rttUs) / 8);
        }
        flowStats := flowStats[id := st];
      }
    }

    /** cleanupExpiredFlows: erases, while walking the table, every flow idle
        for longer than the configured timeout, with its statistics. */
    method CleanupExpiredFlows(now: int)
      modifies this`activeFlows, this`flowStats, this`retracted
      ensures activeFlows == LiveFlows(old(activeFlows), now, config.flowTimeoutSec)
      ensures flowStats == old(flowStats) - ExpiredIds(old(activeFlows), now, config.flowTimeoutSec)
      ensures retracted == old(retracted) + ExpiredIds(old(activeFlows), now, config.flowTimeoutSec)
      ensures old(Valid()) ==> Valid()
    {
      ghost var flows0, stats0, retracted0 := activeFlows, flowStats, retracted;
      var timeout := config.flowTimeoutSec;
      var toVisit := activeFlows.Keys;
      ghost var visited: set<FlowId> := {};
      while toVisit != {}
        invariant toVisit + visited == flows0.Keys && toVisit !! visited
        invariant activeFlows == Unswept(flows0, toVisit, now, timeout)
        invariant flowStats == stats0 - ExpiredAmong(flows0, visited, now, timeout)
        invariant retracted == retracted0 + ExpiredAmong(flows0, visited, now, timeout)
        decreases toVisit
      {
        var id :| id in toVisit;
        SweepStep(flows0, toVisit, visited, id, now, timeout);
        if now - activeFlows[id].lastActivity > timeout {
          flowStats := flowStats - {id};
          retracted := retracted + {id};
          activeFlows := activeFlows - {id};
        }
        toVisit := toVisit - {id};
        visited := visited + {id};
      }
      assert activeFlows == LiveFlows(flows0, now, timeout);
      assert ExpiredAmong(flows0, visited, now, timeout) == ExpiredIds(flows0, now, timeout);
      if flows0.Keys == stats0.Keys {
        ExpiryKeepsKeysAligned(flows0, stats0, now, timeout);
      }
    }

    /** doPeriodicTask: statistics publishing every second (database output
        only), the expiry sweep every 60 s and a summary log every 300 s, each
        timer moving only when its task runs. */
    method DoPeriodicTask(now: int)
      modifies this`activeFlows, this`flowStats, this`retracted, this`lastStatsUpdate,
               this`lastCleanup, this`lastReport
      ensures lastStatsUpdate == (if now - old(lastStatsUpdate) >= 1 then now else old(lastStatsUpdate))
      ensures lastCleanup == (if now - old(lastCleanup) >= 60 then now else old(lastCleanup))
      ensures lastReport == (if now - old(lastReport) >= 300 then now else old(lastReport))
      ensures now - old(lastCleanup) >= 60 ==>
        activeFlows == LiveFlows(old(activeFlows), now, config.flowTimeoutSec)
        && flowStats == old(flowStats) - ExpiredIds(old(activeFlows), now, config.flowTimeoutSec)
        && retracted == old(retracted) + ExpiredIds(old(activeFlows), now, config.flowTimeoutSec)
      ensures now - old(lastCleanup) < 60 ==>
        activeFlows == old(activeFlows) && flowStats == old(flowStats) && retracted == old(retracted)
      ensures old(Valid()) ==> Valid()
    {
      if now - lastStatsUpdate >= 1 {
        lastStatsUpdate := now;
      }
      if now - lastCleanup >= 60 {
        CleanupExpiredFlows(now);
        lastCleanup := now;
      }
      if now - lastReport >= 300 {
        lastReport := now;
      }
    }

    /** processTransportConfig: only the "global" key and the SET operation act;
        the fields are applied in order. */
    method ProcessTransportConfig(key: string, op: string, values: seq<FieldValue>)
      modifies this`config
      ensures key == "global" && op == SET_COMMAND ==> config == ApplyTransportFields(old(config), values)
      ensures key != "global" || op != SET_COMMAND ==> config == old(config)
    {
      if key != "global" {
        return;
      }
      if op == SET_COMMAND {
        ghost var c0 := config;
        var i := 0;
        while i < |values|
          invariant 0 <= i <= |values|
          invariant config == ApplyTransportFields(c0, values[..i])
        {
          var fv := values[i];
          var field, value := fv.field, fv.value;
          if field == "default_flow_mode" {
            if value == "rud" {
              config := config.(defaultFlowMode := ReliableUnorderedDelivery);
            } else if value == "rod" {
              config := config.(defaultFlowMode := ReliableOrderedDelivery);
            } else if value == "uud" {
              config := config.(defaultFlowMode := UnreliableUnorderedDelivery);
            } else if value == "rudi" {
              config := config.(defaultFlowMode := ReliableUnorderedDeliveryIdempotent);
            }
          } else if field == "congestion_algorithm" {
            if value == "ue_cubic" {
              config := config.(congestionAlgorithm := UeCubic);
            } else if value == "ue_cubic_plus" {
              config := config.(congestionAlgorithm := UeCubicPlus);
            } else if value == "hybrid" {
              config := config.(congestionAlgorithm := Hybrid);
            } else if value == "receiver_based" {
              config := config.(congestionAlgorithm := ReceiverBased);
            }
          } else if field == "default_window_size" {
            var parsed := Stoi(value);
            if parsed.Some? {
              var w := ToU32(parsed.value);
              if w >= 1024 && w <= 1048576 {
                config := config.(defaultWindowSize := w);
              }
            }
          } else if field == "max_flows" {
            var parsed := Stoi(value);
            if parsed.Some? {
              var m := ToU32(parsed.value);
              if m >= 1000 && m <= 10000000 {
                config := config.(maxFlows := m);
              }
            }
          } else if field == "flow_timeout_sec" {
            var parsed := Stoi(value);
            if parsed.Some? {
              var t := ToU32(parsed.value);
              if t >= 10 && t <= 3600 {
                config := config.(flowTimeoutSec := t);
              }
            }
          }
          ApplyTransportFieldsSnoc(c0, values[..i], fv);
          assert values[..i + 1] == values[..i] + [fv];
          i := i + 1;
        }
        assert values[..|values|] == values;
      }
    }
  }

  // ---------------------------------------------------------------------------
  // Properties relating several operations
  // ---------------------------------------------------------------------------

  /** A flow idle for exactly the timeout survives the sweep; one idle a second
      longer is removed. */
  lemma SweepBoundary(flows: map<FlowId, FlowState>, id: FlowId, timeout: nat)
    requires id in flows
    ensures id in LiveFlows(flows, flows[id].lastActivity + timeout, timeout)
    ensures id !in LiveFlows(flows, flows[id].lastActivity + timeout + 1, timeout)
    ensures id in ExpiredIds(flows, flows[id].lastActivity + timeout + 1, timeout)
  {
  }

  /** The sweep is idempotent at a fixed time. */
  lemma SweepIdempotent(flows: map<FlowId, FlowState>, now: int, timeout: nat)
    ensures LiveFlows(LiveFlows(flows, now, timeout), now, timeout) == LiveFlows(flows, now, timeout)
    ensures ExpiredIds(LiveFlows(flows, now, timeout), now, timeout) == {}
  {
  }

  /** The RTT example of the design: 100 then 108 averages to 101. */
  lemma RttExample()
    ensures RttUpdate(RttUpdate(ZERO_STATS, 100), 108).avgRttUs == 101
    ensures RttUpdate(RttUpdate(ZERO_STATS, 100), 108).minRttUs == 100
    ensures RttUpdate(RttUpdate(ZERO_STATS, 100), 108).maxRttUs == 108
  {
  }
}
