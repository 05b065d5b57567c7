/** The congestion monitor of the transport daemon (UECongestionManager,
    sonic-ue-transportd/src/ue_congestion_manager.cpp): the threshold
    classifier, the per-interface event handler and its counters, the bounded
    event history, the state-to-weight mapping of the path table, the global
    configuration handler and the interval gating of the periodic tasks.
    The sampled queue depth (rand() % 100 in the source) and the steady clock
    are inputs; database writes are left out. */
module CongestionManager {
  import opened Common

  // ---------------------------------------------------------------------------
  // Data model
  // ---------------------------------------------------------------------------

  datatype CongestionState = Normal | Warning | Congested | Critical

  /** The tiers in ascending order of severity. */
  function Severity(s: CongestionState): nat {
    match s
    case Normal => 0
    case Warning => 1
    case Congested => 2
    case Critical => 3
  }

  datatype CongestionInfo = CongestionInfo(
    queueDepth: nat,
    thresholdWarning: nat,
    thresholdCongested: nat,
    thresholdCritical: nat,
    state: CongestionState,
    timestamp: nat)

  datatype CongestionStats = CongestionStats(
    congestionEvents: nat,
    ecnMarkedPackets: nat,
    droppedPackets: nat,
    pathRebalanceEvents: nat,
    avgQueueDepth: nat,
    maxQueueDepth: nat)

  /** A statistics entry created by `m_congestion_stats[interface]`. */
  const ZERO_CONGESTION_STATS: CongestionStats := CongestionStats(0, 0, 0, 0, 0, 0)

  datatype PathInfo = PathInfo(weight: nat, available: bool, congestionState: CongestionState)

  datatype CongestionAlgorithm = UeCubic | UeCubicPlus | Hybrid | ReceiverBased

  datatype CongestionConfig = CongestionConfig(
    algorithm: CongestionAlgorithm,
    ecnThresholdPercent: int,
    dropThresholdPercent: int,
    realTimeFeedback: bool,
    pathRebalancingEnabled: bool,
    adaptiveSprayingEnabled: bool)

  const DEFAULT_CONGESTION_CONFIG: CongestionConfig :=
    CongestionConfig(UeCubicPlus, 80, 95, true, true, true)

  const MAX_EVENTS: nat := 100
  const DEFAULT_DETECTION_INTERVAL_MS: nat := 100
  const REBALANCE_INTERVAL_MS: nat := 1000
  const STATS_INTERVAL_MS: nat := 5000

  // ---------------------------------------------------------------------------
  // The classifier
  // ---------------------------------------------------------------------------

  /** The tier of a queue depth, thresholds tested from the most severe down. */
  function Classify(depth: nat, warning: nat, congested: nat, critical: nat): (s: CongestionState)
    ensures s == Critical <==> depth >= critical
    ensures s == Congested <==> depth < critical && depth >= congested
    ensures s == Warning <==> depth < critical && depth < congested && depth >= warning
    ensures s == Normal <==> depth < critical && depth < congested && depth < warning
  {
    if depth >= critical then Critical
    else if depth >= congested then Congested
    else if depth >= warning then Warning
    else Normal
  }

  /** With thresholds 70/85/95: 85 and 94 are congested, 95 critical, 10 normal. */
  lemma ClassifyExamples()
    ensures Classify(85, 70, 85, 95) == Congested
    ensures Classify(94, 70, 85, 95) == Congested
    ensures Classify(95, 70, 85, 95) == Critical
    ensures Classify(10, 70, 85, 95) == Normal
    ensures Classify(70, 70, 85, 95) == Warning
  {
  }

  /** With ascending thresholds a deeper queue is never classified as less severe. */
  lemma ClassifyMonotone(d1: nat, d2: nat, warning: nat, congested: nat, critical: nat)
    requires warning <= congested <= critical
    requires d1 <= d2
    ensures Severity(Classify(d1, warning, congested, critical)) <= Severity(Classify(d2, warning, congested, critical))
  {
  }

  /** The state a sampled interface takes: new depth, new timestamp, new tier. */
  function Sample(info: CongestionInfo, depth: nat, now: nat): (r: CongestionInfo)
    ensures r.queueDepth == depth && r.timestamp == now
    ensures r.state == Classify(depth, info.thresholdWarning, info.thresholdCongested, info.thresholdCritical)
    ensures r.thresholdWarning == info.thresholdWarning && r.thresholdCongested == info.thresholdCongested
    ensures r.thresholdCritical == info.thresholdCritical
  {
    info.(queueDepth := depth, timestamp := now,
          state := Classify(depth, info.thresholdWarning, info.thresholdCongested, info.thresholdCritical))
  }

  // ---------------------------------------------------------------------------
  // Path weights (updatePathWeights)
  // ---------------------------------------------------------------------------

  /** The weight a path in a given state carries. */
  function WeightOf(s: CongestionState): (w: nat)
    ensures w <= 100
  {
    match s
    case Normal => 100
    case Warning => 75
    case Congested => 25
    case Critical => 0
  }

  /** One path after rebalancing: weight and availability from its state alone. */
  function Reweigh(p: PathInfo): (r: PathInfo)
    ensures r.congestionState == p.congestionState
    ensures r.available <==> p.congestionState != Critical
    ensures p.congestionState == Normal ==> r.weight == 100
    ensures p.congestionState == Warning ==> r.weight == 75
    ensures p.congestionState == Congested ==> r.weight == 25
    ensures p.congestionState == Critical ==> r.weight == 0
  {
    p.(weight := WeightOf(p.congestionState), available := p.congestionState != Critical)
  }

  /** The invariant rebalancing establishes on a path. */
  predicate Consistent(p: PathInfo) {
    p.weight == WeightOf(p.congestionState) && (p.available <==> p.congestionState != Critical)
  }

  function ReweighAll(paths: map<string, PathInfo>): (r: map<string, PathInfo>)
    ensures r.Keys == paths.Keys
    ensures forall k :: k in r ==> r[k] == Reweigh(paths[k]) && Consistent(r[k])
  {
    map k | k in paths :: Reweigh(paths[k])
  }

  /** Rebalancing depends only on each path's state and is idempotent. */
  lemma ReweighOnlyState(p: PathInfo, q: PathInfo)
    requires p.congestionState == q.congestionState
    ensures Reweigh(p) == Reweigh(q).(congestionState := p.congestionState)
    ensures Reweigh(p).weight == Reweigh(q).weight && Reweigh(p).available == Reweigh(q).available
  {
  }

  lemma ReweighAllIdempotent(paths: map<string, PathInfo>)
    ensures ReweighAll(ReweighAll(paths)) == ReweighAll(paths)
  {
  }

  /** A path that already satisfies the invariant is left as it is. */
  lemma ReweighFixesConsistent(p: PathInfo)
    ensures Consistent(p) <==> Reweigh(p) == p
  {
  }

  // ---------------------------------------------------------------------------
  // Event handling
  // ---------------------------------------------------------------------------

  /** The counters of one congestion event (handleCongestionEvent). */
  function EventStats(st: CongestionStats, state: CongestionState, rebalancing: bool): (r: CongestionStats)
    ensures r.congestionEvents == st.congestionEvents + 1
    ensures r.ecnMarkedPackets == st.ecnMarkedPackets + (if state == Congested then 100 else 0)
    ensures r.pathRebalanceEvents == st.pathRebalanceEvents + (if state == Congested && rebalancing then 1 else 0)
    ensures r.droppedPackets == st.droppedPackets + (if state == Critical then 10 else 0)
    ensures r.avgQueueDepth == st.avgQueueDepth && r.maxQueueDepth == st.maxQueueDepth
  {
    var st1 := st.(congestionEvents := st.congestionEvents + 1);
    match state
    case Warning => st1
    case Congested =>
      var st2 := st1.(ecnMarkedPackets := st1.ecnMarkedPackets + 100);
      if rebalancing then st2.(pathRebalanceEvents := st2.pathRebalanceEvents + 1) else st2
    case Critical => st1.(droppedPackets := st1.droppedPackets + 10)
    case Normal => st1
  }

  /** The last MAX_EVENTS records of a history. */
  function KeepLast(h: seq<CongestionInfo>): (r: seq<CongestionInfo>)
    ensures |r| == if |h| > MAX_EVENTS then MAX_EVENTS else |h|
    ensures r == h[|h| - |r|..]
  {
    if |h| > MAX_EVENTS then h[|h| - MAX_EVENTS..] else h
  }

  /** Appending one record to the bounded FIFO. */
  function PushEvent(h: seq<CongestionInfo>, e: CongestionInfo): (r: seq<CongestionInfo>)
    ensures |r| <= MAX_EVENTS && |r| > 0 && r[|r| - 1] == e
    ensures |h| < MAX_EVENTS ==> r == h + [e]
    ensures |h| >= MAX_EVENTS ==> |r| == MAX_EVENTS && r[..|r| - 1] == h[|h| - (MAX_EVENTS - 1)..]
  {
    KeepLast(h + [e])
  }

  /** Dropping the oldest records until at most MAX_EVENTS remain. */
  method TrimHistory(full: seq<CongestionInfo>) returns (history: seq<CongestionInfo>)
    ensures history == KeepLast(full)
  {
    var dropped := 0;
    while |full| - dropped > MAX_EVENTS
      invariant 0 <= dropped <= |full|
      invariant |full| - dropped >= (if |full| > MAX_EVENTS then MAX_EVENTS else |full|)
    {
      dropped := dropped + 1;
    }
    history := full[dropped..];
  }

  /** The state the monitor owns, as one value. */
  datatype Monitor = Monitor(
    interfaces: map<string, CongestionInfo>,
    stats: map<string, CongestionStats>,
    paths: map<string, PathInfo>,
    events: seq<CongestionInfo>)

  function StatsOf(m: Monitor, iface: string): CongestionStats {
    if iface in m.stats then m.stats[iface] else ZERO_CONGESTION_STATS
  }

  /** handleCongestionEvent for an interface whose record already holds the new state. */
  function HandleEvent(m: Monitor, iface: string, rebalancing: bool): (r: Monitor)
    requires iface in m.interfaces
    ensures r.interfaces == m.interfaces
    ensures r.stats == m.stats[iface := EventStats(StatsOf(m, iface), m.interfaces[iface].state, rebalancing)]
    ensures r.paths == if m.interfaces[iface].state == Congested && rebalancing then ReweighAll(m.paths) else m.paths
    ensures r.events == PushEvent(m.events, m.interfaces[iface])
  {
    var state := m.interfaces[iface].state;
    Monitor(m.interfaces,
            m.stats[iface := EventStats(StatsOf(m, iface), state, rebalancing)],
            if state == Congested && rebalancing then ReweighAll(m.paths) else m.paths,
            PushEvent(m.events, m.interfaces[iface]))
  }

  /** One iteration of detectCongestion: sample, reclassify, report a change. */
  function DetectOne(m: Monitor, iface: string, depth: nat, now: nat, rebalancing: bool): (r: Monitor)
    requires iface in m.interfaces
  {
    var info := Sample(m.interfaces[iface], depth, now);
    var m1 := m.(interfaces := m.interfaces[iface := info]);
    if info.state != m.interfaces[iface].state then HandleEvent(m1, iface, rebalancing) else m1
  }

  /** detectCongestion over the interfaces in the order the table yields them. */
  function DetectAll(m: Monitor, order: seq<string>, depths: map<string, nat>, now: nat, rebalancing: bool): (r: Monitor)
    requires forall k :: k in order ==> k in m.interfaces && k in depths
    ensures r.interfaces.Keys == m.interfaces.Keys
    decreases |order|
  {
    if order == [] then m
    else DetectAll(DetectOne(m, order[0], depths[order[0]], now, rebalancing), order[1..], depths, now, rebalancing)
  }

  lemma {:induction false} DetectAllSnoc(m: Monitor, order: seq<string>, iface: string, depths: map<string, nat>, now: nat, rebalancing: bool)
    requires forall k :: k in order ==> k in m.interfaces && k in depths
    requires iface in m.interfaces && iface in depths
    ensures DetectAll(m, order + [iface], depths, now, rebalancing)
         == DetectOne(DetectAll(m, order, depths, now, rebalancing), iface, depths[iface], now, rebalancing)
    decreases |order|
  {
    if order != [] {
      assert (order + [iface])[1..] == order[1..] + [iface];
      DetectAllSnoc(DetectOne(m, order[0], depths[order[0]], now, rebalancing), order[1..], iface, depths, now, rebalancing);
    }
  }

  lemma DetectAllStep(m: Monitor, order: seq<string>, i: nat, depths: map<string, nat>, now: nat, rebalancing: bool)
    requires forall k :: k in order ==> k in m.interfaces && k in depths
    requires i < |order|
    ensures DetectAll(m, order[..i + 1], depths, now, rebalancing)
         == DetectOne(DetectAll(m, order[..i], depths, now, rebalancing), order[i], depths[order[i]], now, rebalancing)
  {
    assert order[..i + 1] == order[..i] + [order[i]];
    DetectAllSnoc(m, order[..i], order[i], depths, now, rebalancing);
  }

  /** After a detection pass every visited interface holds its sampled depth and
      the tier its thresholds assign to it; the others are untouched. */
  lemma {:induction false} DetectAllClassifies(m: Monitor, order: seq<string>, depths: map<string, nat>, now: nat, rebalancing: bool)
    requires forall k :: k in order ==> k in m.interfaces && k in depths
    ensures var r := DetectAll(m, order, depths, now, rebalancing);
      forall k :: k in m.interfaces ==>
        if k in order then
          && r.interfaces[k].queueDepth == depths[k]
          && r.interfaces[k].state == Classify(depths[k], m.interfaces[k].thresholdWarning,
                                               m.interfaces[k].thresholdCongested, m.interfaces[k].thresholdCritical)
        else r.interfaces[k] == m.interfaces[k]
    decreases |order|
  {
    if order != [] {
      var m1 := DetectOne(m, order[0], depths[order[0]], now, rebalancing);
      DetectOneInterfaces(m, order[0], depths[order[0]], now, rebalancing);
      DetectAllClassifies(m1, order[1..], depths, now, rebalancing);
      forall k | k in m.interfaces
        ensures k in order[1..] || k == order[0] <==> k in order
      {
        if k in order && k != order[0] {
          var j :| 0 <= j < |order| && order[j] == k;
          assert order[1..][j - 1] == k;
        }
      }
    }
  }

  /** One iteration changes only the visited interface's record, to its sample. */
  lemma DetectOneInterfaces(m: Monitor, iface: string, depth: nat, now: nat, rebalancing: bool)
    requires iface in m.interfaces
    ensures DetectOne(m, iface, depth, now, rebalancing).interfaces == m.interfaces[iface := Sample(m.interfaces[iface], depth, now)]
  {
  }

  /** The history never holds more than 100 records. */
  lemma {:induction false} DetectAllBoundsHistory(m: Monitor, order: seq<string>, depths: map<string, nat>, now: nat, rebalancing: bool)
    requires forall k :: k in order ==> k in m.interfaces && k in depths
    requires |m.events| <= MAX_EVENTS
    ensures |DetectAll(m, order, depths, now, rebalancing).events| <= MAX_EVENTS
    decreases |order|
  {
    if order != [] {
      DetectAllBoundsHistory(DetectOne(m, order[0], depths[order[0]], now, rebalancing), order[1..], depths, now, rebalancing);
    }
  }

  /** An interface whose tier does not change produces no event and no counter change. */
  lemma DetectOneQuiet(m: Monitor, iface: string, depth: nat, now: nat, rebalancing: bool)
    requires iface in m.interfaces
    requires var i := m.interfaces[iface];
      Classify(depth, i.thresholdWarning, i.thresholdCongested, i.thresholdCritical) == i.state
    ensures var r := DetectOne(m, iface, depth, now, rebalancing);
      r.stats == m.stats && r.events == m.events && r.paths == m.paths
  {
  }

  /** An interface whose tier changes pushes one record carrying its new state. */
  lemma DetectOneReports(m: Monitor, iface: string, depth: nat, now: nat, rebalancing: bool)
    requires iface in m.interfaces
    requires var i := m.interfaces[iface];
      Classify(depth, i.thresholdWarning, i.thresholdCongested, i.thresholdCritical) != i.state
    ensures var r := DetectOne(m, iface, depth, now, rebalancing);
      && r.events == PushEvent(m.events, Sample(m.interfaces[iface], depth, now))
      && r.stats[iface].congestionEvents == StatsOf(m, iface).congestionEvents + 1
  {
  }

  // ---------------------------------------------------------------------------
  // processCongestionConfig
  // ---------------------------------------------------------------------------

  function ParseAlgorithm(v: string): Option<CongestionAlgorithm> {
    if v == "ue_cubic" then Some(UeCubic)
    else if v == "ue_cubic_plus" then Some(UeCubicPlus)
    else if v == "hybrid" then Some(Hybrid)
    else if v == "receiver_based" then Some(ReceiverBased)
    else None
  }

  /** One field of a "global" SET; None when std::stoi throws, which nothing
      in the handler catches. */
  function ApplyCongestionField(c: CongestionConfig, fv: FieldValue): (r: Option<CongestionConfig>)
    ensures r.None? <==> (fv.field == "ecn_threshold_percent" || fv.field == "drop_threshold_percent")
                          && Stoi(fv.value).None?
  {
    if fv.field == "algorithm" then
      Some(match ParseAlgorithm(fv.value) case Some(a) => c.(algorithm := a) case None => c)
    else if fv.field == "ecn_threshold_percent" then
      (match Stoi(fv.value) case Some(t) => Some(c.(ecnThresholdPercent := t)) case None => None)
    else if fv.field == "drop_threshold_percent" then
      (match Stoi(fv.value) case Some(t) => Some(c.(dropThresholdPercent := t)) case None => None)
    else if fv.field == "real_time_feedback" then Some(c.(realTimeFeedback := fv.value == "true"))
    else if fv.field == "path_rebalancing" then Some(c.(pathRebalancingEnabled := fv.value == "true"))
    else if fv.field == "adaptive_spraying" then Some(c.(adaptiveSprayingEnabled := fv.value == "true"))
    else Some(c)
  }

  /** The fields in order. The configuration reached when a field throws keeps
      the fields before it, and `threw` is set. */
  function ApplyCongestionFields(c: CongestionConfig, values: seq<FieldValue>): (r: (CongestionConfig, bool))
    decreases |values|
  {
    if values == [] then (c, false)
    else match ApplyCongestionField(c, values[0])
      case None => (c, true)
      case Some(c1) => ApplyCongestionFields(c1, values[1..])
  }

  lemma {:induction false} ApplyCongestionFieldsSnoc(c: CongestionConfig, values: seq<FieldValue>, fv: FieldValue)
    requires !ApplyCongestionFields(c, values).1
    ensures var (c1, _) := ApplyCongestionFields(c, values);
      ApplyCongestionFields(c, values + [fv]) ==
        match ApplyCongestionField(c1, fv) case None => (c1, true) case Some(c2) => (c2, false)
    decreases |values|
  {
    if values == [] {
      assert [fv][1..] == [];
    } else {
      assert (values + [fv])[1..] == values[1..] + [fv];
      var c1 := ApplyCongestionField(c, values[0]).value;
      ApplyCongestionFieldsSnoc(c1, values[1..], fv);
    }
  }

  /** Once a field has thrown, later fields are never reached. */
  lemma {:induction false} ApplyCongestionFieldsStops(c: CongestionConfig, values: seq<FieldValue>, rest: seq<FieldValue>)
    requires ApplyCongestionFields(c, values).1
    ensures ApplyCongestionFields(c, values + rest) == ApplyCongestionFields(c, values)
    decreases |values|
  {
    assert values != [];
    assert (values + rest)[0] == values[0];
    assert (values + rest)[1..] == values[1..] + rest;
    match ApplyCongestionField(c, values[0])
    case None =>
    case Some(c1) => ApplyCongestionFieldsStops(c1, values[1..], rest);
  }

  /** An unknown algorithm name leaves the algorithm as it was. */
  lemma UnknownAlgorithmIgnored(c: CongestionConfig, v: string)
    requires ParseAlgorithm(v).None?
    ensures ApplyCongestionFields(c, [FieldValue("algorithm", v)]) == (c, false)
  {
  }

  /** Thresholds are stored as std::stoi returns them, without a range check. */
  lemma ThresholdUnchecked(c: CongestionConfig, v: string)
    requires Stoi(v).Some?
    ensures ApplyCongestionFields(c, [FieldValue("ecn_threshold_percent", v)])
         == (c.(ecnThresholdPercent := Stoi(v).value), false)
  {
  }

  // ---------------------------------------------------------------------------
  // Interval gating
  // ---------------------------------------------------------------------------

  /** `now_ms - last` on uint64_t. */
  function ElapsedU64(now: u64, last: u64): (d: u64)
    ensures last <= now ==> d == now - last
  {
    (now - last) % 0x1_0000_0000_0000_0000
  }

  // ---------------------------------------------------------------------------
  // The monitor
  // ---------------------------------------------------------------------------

  class CongestionMonitor {
    var config: CongestionConfig
    var detectionIntervalMs: nat
    var lastCongestionCheck: u64
    var lastPathRebalance: u64
    var lastStatsUpdate: u64
    var interfaceCongestion: map<string, CongestionInfo>
    var congestionStats: map<string, CongestionStats>
    var pathInfo: map<string, PathInfo>
    var congestionEvents: seq<CongestionInfo>

    ghost function Snapshot(): Monitor
      reads this
    {
      Monitor(interfaceCongestion, congestionStats, pathInfo, congestionEvents)
    }

    /** The interface and path tables are filled by the interface configuration
        handler, which is not part of this model; they are given here. */
    constructor (interfaces: map<string, CongestionInfo>, paths: map<string, PathInfo>)
      ensures config == DEFAULT_CONGESTION_CONFIG && detectionIntervalMs == DEFAULT_DETECTION_INTERVAL_MS
      ensures lastCongestionCheck == 0 && lastPathRebalance == 0 && lastStatsUpdate == 0
      ensures Snapshot() == Monitor(interfaces, map[], paths, [])
    {
      config := DEFAULT_CONGESTION_CONFIG;
      detectionIntervalMs := DEFAULT_DETECTION_INTERVAL_MS;
      lastCongestionCheck, lastPathRebalance, lastStatsUpdate := 0, 0, 0;
      interfaceCongestion := interfaces;
      congestionStats := map[];
      pathInfo := paths;
      congestionEvents := [];
    }

    /** updatePathWeights: every path's weight and availability from its state. */
    method UpdatePathWeights()
      modifies this`pathInfo
      ensures pathInfo == ReweighAll(old(pathInfo))
    {
      var toVisit := pathInfo.Keys;
      ghost var paths0 := pathInfo;
      while toVisit != {}
        invariant toVisit <= paths0.Keys && pathInfo.Keys == paths0.Keys
        invariant forall k :: k in pathInfo ==> pathInfo[k] == if k in toVisit then paths0[k] else Reweigh(paths0[k])
        decreases toVisit
      {
        var k :| k in toVisit;
        var path := pathInfo[k];
        match path.congestionState {
          case Normal =>
            path := path.(weight := 100, available := true);
          case Warning =>
            path := path.(weight := 75, available := true);
          case Congested =>
            path := path.(weight := 25, available := true);
          case Critical =>
            path := path.(weight := 0, available := false);
        }
        pathInfo := pathInfo[k := path];
        toVisit := toVisit - {k};
      }
    }

    /** handleCongestionEvent: counters by state, immediate rebalancing on
        Congested when enabled, and the record pushed to the bounded history. */
    method HandleCongestionEvent(iface: string)
      requires iface in interfaceCongestion
      modifies this`congestionStats, this`pathInfo, this`congestionEvents
      ensures congestionStats == old(congestionStats)[iface := EventStats(StatsOf(old(Snapshot()), iface),
                                                        interfaceCongestion[iface].state, config.pathRebalancingEnabled)]
      ensures pathInfo == if interfaceCongestion[iface].state == Congested && config.pathRebalancingEnabled
                          then ReweighAll(old(pathInfo)) else old(pathInfo)
      ensures congestionEvents == PushEvent(old(congestionEvents), interfaceCongestion[iface])
    {
      var state := interfaceCongestion[iface].state;
      var stats := if iface in congestionStats then congestionStats[iface] else ZERO_CONGESTION_STATS;
      stats := stats.(congestionEvents := stats.congestionEvents + 1);
      match state {
        case Warning =>
        case Congested =>
          stats := stats.(ecnMarkedPackets := stats.ecnMarkedPackets + 100);
          if config.pathRebalancingEnabled {
            UpdatePathWeights();
            stats := stats.(pathRebalanceEvents := stats.pathRebalanceEvents + 1);
          }
        case Critical =>
          stats := stats.(droppedPackets := stats.droppedPackets + 10);
        case Normal =>
      }
      congestionStats := congestionStats[iface := stats];
      congestionEvents := TrimHistory(congestionEvents + [interfaceCongestion[iface]]);
    }

    /** The body of detectCongestion's loop for one interface: the sampled
        depth sets its tier, and a change of tier is handled as an event. */
    method DetectInterface(iface: string, depth: nat, now: nat)
      requires iface in interfaceCongestion
      modifies this`interfaceCongestion, this`congestionStats, this`pathInfo, this`congestionEvents
      ensures Snapshot() == DetectOne(old(Snapshot()), iface, depth, now, config.pathRebalancingEnabled)
    {
      var info := interfaceCongestion[iface];
      var oldState := info.state;
      if depth >= info.thresholdCritical {
        info := info.(state := Critical);
      } else if depth >= info.thresholdCongested {
        info := info.(state := Congested);
      } else if depth >= info.thresholdWarning {
        info := info.(state := Warning);
      } else {
        info := info.(state := Normal);
      }
      info := info.(queueDepth := depth, timestamp := now);
      interfaceCongestion := interfaceCongestion[iface := info];
      if info.state != oldState {
        HandleCongestionEvent(iface);
      }
    }

    /** detectCongestion: every interface, in the table's iteration order, is
        sampled at the given depth and reclassified; a change is reported. */
    method DetectCongestion(depths: map<string, nat>, order: seq<string>, now: nat)
      requires forall k :: k in order ==> k in interfaceCongestion && k in depths
      modifies this`interfaceCongestion, this`congestionStats, this`pathInfo, this`congestionEvents
      ensures Snapshot() == DetectAll(old(Snapshot()), order, depths, now, config.pathRebalancingEnabled)
    {
      ghost var m0 := Snapshot();
      var i := 0;
      while i < |order|
        invariant 0 <= i <= |order|
        invariant interfaceCongestion.Keys == m0.interfaces.Keys
        invariant Snapshot() == DetectAll(m0, order[..i], depths, now, config.pathRebalancingEnabled)
      {
        var iface := order[i];
        DetectInterface(iface, depths[iface], now);
        DetectAllStep(m0, order, i, depths, now, config.pathRebalancingEnabled);
        i := i + 1;
      }
      assert order[..|order|] == order;
    }

    /** processCongestionConfig: only the "global" key and SET act; fields are
        applied in order, and a threshold std::stoi cannot parse throws out of
        the handler with the earlier fields already applied. */
    method ProcessCongestionConfig(key: string, op: string, values: seq<FieldValue>) returns (threw: bool)
      modifies this`config
      ensures key == "global" && op == SET_COMMAND ==> (config, threw) == ApplyCongestionFields(old(config), values)
      ensures key != "global" || op != SET_COMMAND ==> config == old(config) && !threw
    {
      threw := false;
      if key != "global" {
        return;
      }
      if op == SET_COMMAND {
        ghost var c0 := config;
        var i := 0;
        while i < |values|
          invariant 0 <= i <= |values|
          invariant (config, false) == ApplyCongestionFields(c0, values[..i])
        {
          var field, value := values[i].field, values[i].value;
          ApplyCongestionFieldsSnoc(c0, values[..i], values[i]);
          assert values[..i + 1] == values[..i] + [values[i]];
          if field == "algorithm" {
            if value == "ue_cubic" {
              config := config.(algorithm := UeCubic);
            } else if value == "ue_cubic_plus" {
              config := config.(algorithm := UeCubicPlus);
            } else if value == "hybrid" {
              config := config.(algorithm := Hybrid);
            } else if value == "receiver_based" {
              config := config.(algorithm := ReceiverBased);
            }
          } else if field == "ecn_threshold_percent" {
            var parsed := Stoi(value);
            if parsed.None? {
              threw := true;
              assert values[..i + 1] + values[i + 1..] == values;
              ApplyCongestionFieldsStops(c0, values[..i + 1], values[i + 1..]);
              return;
            }
            config := config.(ecnThresholdPercent := parsed.value);
          } else if field == "drop_threshold_percent" {
            var parsed := Stoi(value);
            if parsed.None? {
              threw := true;
              assert values[..i + 1] + values[i + 1..] == values;
              ApplyCongestionFieldsStops(c0, values[..i + 1], values[i + 1..]);
              return;
            }
            config := config.(dropThresholdPercent := parsed.value);
          } else if field == "real_time_feedback" {
            config := config.(realTimeFeedback := value == "true");
          } else if field == "path_rebalancing" {
            config := config.(pathRebalancingEnabled := value == "true");
          } else if field == "adaptive_spraying" {
            config := config.(adaptiveSprayingEnabled := value == "true");
          }
          i := i + 1;
        }
        assert values[..|values|] == values;
      }
    }

    /** doPeriodicTask at steady-clock time nowMs: detection when the detection
        interval has elapsed, rebalancing when enabled and a second has elapsed,
        statistics (database output only) after five seconds; each timestamp
        moves only when its task runs. */
    method DoPeriodicTask(nowMs: u64, depths: map<string, nat>, order: seq<string>)
      requires forall k :: k in order ==> k in interfaceCongestion && k in depths
      modifies this`interfaceCongestion, this`congestionStats, this`pathInfo, this`congestionEvents,
               this`lastCongestionCheck, this`lastPathRebalance, this`lastStatsUpdate
      ensures var detect := ElapsedU64(nowMs, old(lastCongestionCheck)) >= detectionIntervalMs;
        && lastCongestionCheck == (if detect then nowMs else old(lastCongestionCheck))
        && interfaceCongestion == (if detect then DetectAll(old(Snapshot()), order, depths, nowMs, config.pathRebalancingEnabled).interfaces
                                   else old(interfaceCongestion))
      ensures var rebalance := config.pathRebalancingEnabled && ElapsedU64(nowMs, old(lastPathRebalance)) >= REBALANCE_INTERVAL_MS;
        && lastPathRebalance == (if rebalance then nowMs else old(lastPathRebalance))
        && (rebalance ==> forall k :: k in pathInfo ==> Consistent(pathInfo[k]))
      ensures lastStatsUpdate == (if ElapsedU64(nowMs, old(lastStatsUpdate)) >= STATS_INTERVAL_MS then nowMs else old(lastStatsUpdate))
      ensures var detected := if ElapsedU64(nowMs, old(lastCongestionCheck)) >= detectionIntervalMs
                              then DetectAll(old(Snapshot()), order, depths, nowMs, config.pathRebalancingEnabled)
                              else old(Snapshot());
        Snapshot() == if config.pathRebalancingEnabled && ElapsedU64(nowMs, old(lastPathRebalance)) >= REBALANCE_INTERVAL_MS
                      then detected.(paths := ReweighAll(detected.paths))
                      else detected
    {
      if ElapsedU64(nowMs, lastCongestionCheck) >= detectionIntervalMs {
        DetectCongestion(depths, order, nowMs);
        lastCongestionCheck := nowMs;
      }
      if config.pathRebalancingEnabled && ElapsedU64(nowMs, lastPathRebalance) >= REBALANCE_INTERVAL_MS {
        UpdatePathWeights();
        lastPathRebalance := nowMs;
      }
      if ElapsedU64(nowMs, lastStatsUpdate) >= STATS_INTERVAL_MS {
        lastStatsUpdate := nowMs;
      }
    }
  }
}
