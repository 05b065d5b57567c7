/** The packet-header-compression (PRI) manager of the link daemon
    (UEPRIManager, sonic-ue-linkd/src/ue_pri_manager.cpp and its header
    ue_pri_manager.h): the global configuration handler and the simulated
    statistics arithmetic. Database writes are left out; the interface table
    is filled by a handler whose body is not part of this model, so it is
    given to the constructor; the clock is an input. */
module PriManager {
  import opened Common

  datatype PriConfig = PriConfig(
    enabled: bool,
    ethernetCompression: bool,
    ipCompression: bool,
    compressionRatio: u32,
    minPacketSize: u32,
    maxPacketSize: u32)

  datatype PriInterfaceConfig = PriInterfaceConfig(
    enabled: bool,
    ethernetCompression: bool,
    ipCompression: bool,
    compressionRatio: u32,
    statsEnable: bool,
    compressionThreshold: u32)

  /** The uint64_t counters, unbounded here. */
  datatype PriStats = PriStats(
    packetsCompressed: nat,
    packetsUncompressed: nat,
    bytesSaved: nat,
    compressionRatioActual: nat,
    headerSizeReduction: nat,
    ethernetHeadersCompressed: nat,
    ipHeadersCompressed: nat,
    compressionFailures: nat,
    bandwidthImprovementBps: nat)

  /** A statistics entry created by `m_pri_stats[interface]`. */
  const ZERO_PRI_STATS: PriStats := PriStats(0, 0, 0, 0, 0, 0, 0, 0, 0)

  const STATS_INTERVAL_S: int := 5

  // ---------------------------------------------------------------------------
  // processPRIConfig
  // ---------------------------------------------------------------------------

  /** The local variables processPRIConfig fills from the fields. */
  datatype PriParse = PriParse(enabled: bool, ethernetCompression: bool, ipCompression: bool, compressionRatio: u32)

  const DEFAULT_PRI_PARSE: PriParse := PriParse(false, false, false, 25)

  /** One field; None when std::stoi throws on compression_ratio. The parsed
      int is stored into a uint32_t. */
  function ApplyPriField(p: PriParse, fv: FieldValue): (r: Option<PriParse>)
    ensures r.None? <==> fv.field == "compression_ratio" && Stoi(fv.value).None?
  {
    if fv.field == "pri_enable" then Some(p.(enabled := fv.value == "true"))
    else if fv.field == "ethernet_compression" then Some(p.(ethernetCompression := fv.value == "true"))
    else if fv.field == "ip_compression" then Some(p.(ipCompression := fv.value == "true"))
    else if fv.field == "compression_ratio" then
      match Stoi(fv.value)
      case None => None
      case Some(v) => Some(p.(compressionRatio := ToU32(v)))
    else Some(p)
  }

  /** The field loop; None when a field throws. */
  function ParsePriFields(p: PriParse, values: seq<FieldValue>): Option<PriParse>
    decreases |values|
  {
    if values == [] then Some(p)
    else match ApplyPriField(p, values[0])
      case None => None
      case Some(p1) => ParsePriFields(p1, values[1..])
  }

  lemma {:induction false} ParsePriFieldsSnoc(p: PriParse, values: seq<FieldValue>, fv: FieldValue)
    ensures ParsePriFields(p, values + [fv]) ==
      match ParsePriFields(p, values) case None => None case Some(q) => ApplyPriField(q, fv)
    decreases |values|
  {
    if values == [] {
      assert [fv][1..] == [];
    } else {
      assert (values + [fv])[0] == values[0];
      assert (values + [fv])[1..] == values[1..] + [fv];
      match ApplyPriField(p, values[0])
      case None =>
      case Some(p1) => ParsePriFieldsSnoc(p1, values[1..], fv);
    }
  }

  /** A later occurrence of a flag overrides every earlier one, and only the
      exact string "true" turns it on. */
  lemma LaterFlagOverrides(values: seq<FieldValue>, v: string)
    requires ParsePriFields(DEFAULT_PRI_PARSE, values).Some?
    ensures var r := ParsePriFields(DEFAULT_PRI_PARSE, values + [FieldValue("pri_enable", v)]);
      r.Some? && (r.value.enabled <==> v == "true")
    ensures var r := ParsePriFields(DEFAULT_PRI_PARSE, values + [FieldValue("ethernet_compression", v)]);
      r.Some? && (r.value.ethernetCompression <==> v == "true")
    ensures var r := ParsePriFields(DEFAULT_PRI_PARSE, values + [FieldValue("ip_compression", v)]);
      r.Some? && (r.value.ipCompression <==> v == "true")
  {
    ParsePriFieldsSnoc(DEFAULT_PRI_PARSE, values, FieldValue("pri_enable", v));
    ParsePriFieldsSnoc(DEFAULT_PRI_PARSE, values, FieldValue("ethernet_compression", v));
    ParsePriFieldsSnoc(DEFAULT_PRI_PARSE, values, FieldValue("ip_compression", v));
  }

  /** A compression ratio that std::stoi cannot read throws, wherever it is. */
  lemma BadRatioThrows(values: seq<FieldValue>, v: string, rest: seq<FieldValue>)
    requires Stoi(v).None?
    ensures ParsePriFields(DEFAULT_PRI_PARSE, values + [FieldValue("compression_ratio", v)] + rest).None?
  {
    ParsePriFieldsSnoc(DEFAULT_PRI_PARSE, values, FieldValue("compression_ratio", v));
    ParsePriFieldsNoneStays(DEFAULT_PRI_PARSE, values + [FieldValue("compression_ratio", v)], rest);
  }

  lemma {:induction false} ParsePriFieldsNoneStays(p: PriParse, values: seq<FieldValue>, rest: seq<FieldValue>)
    requires ParsePriFields(p, values).None?
    ensures ParsePriFields(p, values + rest).None?
    decreases |values|
  {
    assert values != [];
    assert (values + rest)[0] == values[0];
    assert (values + rest)[1..] == values[1..] + rest;
    match ApplyPriField(p, values[0])
    case None =>
    case Some(p1) => ParsePriFieldsNoneStays(p1, values[1..], rest);
  }

  /** What processPRIConfig does. */
  datatype PriOutcome = Ignored | Threw | EnableGlobal(eth: bool, ip: bool, ratio: u32) | DisableGlobal

  function PriDecision(key: string, op: string, values: seq<FieldValue>): (r: PriOutcome)
    ensures key != "global" || op != SET_COMMAND ==> r == Ignored
    ensures key == "global" && op == SET_COMMAND ==>
      match ParsePriFields(DEFAULT_PRI_PARSE, values)
      case None => r == Threw
      case Some(p) => r == if p.enabled then EnableGlobal(p.ethernetCompression, p.ipCompression, p.compressionRatio)
                           else DisableGlobal
  {
    if key != "global" || op != SET_COMMAND then Ignored
    else match ParsePriFields(DEFAULT_PRI_PARSE, values)
      case None => Threw
      case Some(p) => if p.enabled then EnableGlobal(p.ethernetCompression, p.ipCompression, p.compressionRatio)
                      else DisableGlobal
  }

  /** With no fields at all, PRI is disabled; with only pri_enable "true" it is
      enabled with both compressions off and ratio 25. */
  lemma PriDefaults()
    ensures PriDecision("global", SET_COMMAND, []) == DisableGlobal
    ensures PriDecision("global", SET_COMMAND, [FieldValue("pri_enable", "true")]) == EnableGlobal(false, false, 25)
  {
  }

  // ---------------------------------------------------------------------------
  // Statistics arithmetic
  // ---------------------------------------------------------------------------

  /** `compression_ratio * 42 / 100` on uint32_t: the product wraps modulo 2^32. */
  function SavedPerPacket(ratio: u32): (r: nat)
    ensures ratio * 42 < 0x1_0000_0000 ==> r == ratio * 42 / 100
  {
    ToU32(ratio * 42) / 100
  }

  lemma DivNonneg(x: int, d: int)
    requires x >= 0 && d > 0
    ensures x / d >= 0
  {
  }

  /** The reported ratio: bytes saved as a percentage of the header bytes of
      the compressed packets. */
  function ReportedRatio(saved: nat, packets: nat): nat
    requires packets > 0
  {
    var headerBytes := packets * 42;
    DivNonneg(saved * 100, headerBytes);
    saved * 100 / headerBytes
  }

  /** One simulated statistics update, as written: 1000 compressed and 50
      uncompressed packets, bytes saved grown by the cumulative compressed
      count times the per-packet saving, and the actual ratio recomputed. */
  function PriTick(st: PriStats, ratio: u32): (r: PriStats)
    ensures r.packetsCompressed == st.packetsCompressed + 1000 >= 1000
    ensures r.packetsUncompressed == st.packetsUncompressed + 50
    ensures r.bytesSaved == st.bytesSaved + r.packetsCompressed * SavedPerPacket(ratio)
    ensures r.compressionRatioActual == ReportedRatio(r.bytesSaved, r.packetsCompressed)
    ensures r.headerSizeReduction == st.headerSizeReduction && r.compressionFailures == st.compressionFailures
  {
    var pc := st.packetsCompressed + 1000;
    var saved := st.bytesSaved + pc * SavedPerPacket(ratio);
    st.(packetsCompressed := pc,
        packetsUncompressed := st.packetsUncompressed + 50,
        bytesSaved := saved,
        compressionRatioActual := ReportedRatio(saved, pc))
  }

  /** From a zeroed entry at ratio 25 (10 bytes saved per packet), the first update reports 23% and
      the second 35%: the reported ratio climbs with every update. */
  lemma PriTickRatioClimbs()
    ensures PriTick(PriStats(0, 0, 0, 0, 0, 0, 0, 0, 0), 25).compressionRatioActual == 23
    ensures PriTick(PriTick(PriStats(0, 0, 0, 0, 0, 0, 0, 0, 0), 25), 25).compressionRatioActual == 35
  {
  }

  /** The update as evidently intended: only the 1000 packets of this update
      add to the bytes saved. */
  function PriTickPerUpdate(st: PriStats, ratio: u32): (r: PriStats)
    ensures r.packetsCompressed == st.packetsCompressed + 1000
    ensures r.packetsUncompressed == st.packetsUncompressed + 50
    ensures r.bytesSaved == st.bytesSaved + 1000 * SavedPerPacket(ratio)
    ensures r.compressionRatioActual == ReportedRatio(r.bytesSaved, r.packetsCompressed)
  {
    var pc := st.packetsCompressed + 1000;
    var saved := st.bytesSaved + 1000 * SavedPerPacket(ratio);
    st.(packetsCompressed := pc,
        packetsUncompressed := st.packetsUncompressed + 50,
        bytesSaved := saved,
        compressionRatioActual := ReportedRatio(saved, pc))
  }

  function PriTicks(st: PriStats, ratio: u32, n: nat): PriStats
  {
    if n == 0 then st else PriTickPerUpdate(PriTicks(st, ratio, n - 1), ratio)
  }

  lemma MulAtLeast(k: int, d: int)
    requires k >= 1 && d > 0
    ensures k * d >= d
  {
    assert k * d == d + (k - 1) * d;
  }

  /** Euclidean division is determined by quotient and remainder. */
  lemma DivUnique(x: int, d: int, q: int, r: int)
    requires d > 0 && 0 <= r < d && x == q * d + r
    ensures x / d == q
  {
    var q2 := x / d;
    var r2 := x % d;
    assert x == q2 * d + r2;
    assert (q - q2) * d == r2 - r by {
      assert q * d - q2 * d == (q - q2) * d;
    }
    if q > q2 {
      MulAtLeast(q - q2, d);
    } else if q < q2 {
      MulAtLeast(q2 - q, d);
    }
  }

  lemma DivCancel(a: nat, b: nat, c: nat)
    requires b > 0 && c > 0
    ensures (a * c) / (b * c) == a / b
  {
    var q := a / b;
    var r := a % b;
    assert a == q * b + r;
    assert a * c == q * (b * c) + r * c;
    assert r * c < b * c;
    DivUnique(a * c, b * c, q, r * c);
  }

  /** With the intended update, after n updates from zero, 1000n packets
      were compressed and each saved the per-packet amount. */
  lemma {:induction false} PriTicksCount(ratio: u32, n: nat)
    ensures PriTicks(ZERO_PRI_STATS, ratio, n).packetsCompressed == 1000 * n
    ensures PriTicks(ZERO_PRI_STATS, ratio, n).bytesSaved == (1000 * n) * SavedPerPacket(ratio)
  {
    if n > 0 {
      PriTicksCount(ratio, n - 1);
      MulDistributes(1000 * (n - 1), 1000, SavedPerPacket(ratio));
    }
  }

  lemma MulDistributes(a: int, b: int, m: int)
    ensures a * m + b * m == (a + b) * m
  {
  }

  /** With the intended update the reported ratio stays the per-packet saving
      as a share of the 42-byte header, however many updates have run. */
  lemma PriTicksSteady(ratio: u32, n: nat)
    requires n > 0
    ensures PriTicks(ZERO_PRI_STATS, ratio, n).compressionRatioActual == SavedPerPacket(ratio) * 100 / 42
  {
    var st := PriTicks(ZERO_PRI_STATS, ratio, n);
    PriTicksCount(ratio, n);
    assert st.compressionRatioActual == ReportedRatio(st.bytesSaved, st.packetsCompressed);
    SharePerPacket(SavedPerPacket(ratio), 1000 * n);
  }

  /** pc packets saving s bytes each, over pc 42-byte headers, are s over 42. */
  lemma SharePerPacket(s: nat, pc: nat)
    requires pc > 0
    ensures ReportedRatio(pc * s, pc) == s * 100 / 42
  {
    DivCancel(s * 100, 42, pc);
    assert (pc * s) * 100 == (s * 100) * pc;
    assert pc * 42 == 42 * pc;
  }

  // ---------------------------------------------------------------------------
  // The manager
  // ---------------------------------------------------------------------------

  class PriManager {
    var globalConfig: PriConfig
    var interfaces: map<string, PriInterfaceConfig>
    var stats: map<string, PriStats>
    var lastStatsUpdate: int

    /** The constructor leaves the global configuration uninitialised, and
        the interface table is filled elsewhere: both are given. */
    constructor (initialConfig: PriConfig, initialInterfaces: map<string, PriInterfaceConfig>)
      ensures globalConfig == initialConfig && interfaces == initialInterfaces
      ensures stats == map[] && lastStatsUpdate == 0
    {
      globalConfig := initialConfig;
      interfaces := initialInterfaces;
      stats := map[];
      lastStatsUpdate := 0;
    }

    /** enableGlobalPRI: PRI on with exactly the given flags and ratio; the
        packet-size bounds are left as they were. */
    method EnableGlobalPri(eth: bool, ip: bool, ratio: u32)
      modifies this`globalConfig
      ensures globalConfig == old(globalConfig).(enabled := true, ethernetCompression := eth,
                                                 ipCompression := ip, compressionRatio := ratio)
    {
      globalConfig := globalConfig.(enabled := true);
      globalConfig := globalConfig.(ethernetCompression := eth);
      globalConfig := globalConfig.(ipCompression := ip);
      globalConfig := globalConfig.(compressionRatio := ratio);
    }

    /** processPRIConfig. The outcome says which branch ran. disableGlobalPRI's
        body is not part of this model, so nothing is promised about the state
        after that branch. An ignored message or a throw leaves the
        configuration untouched, since only locals were set. */
    method ProcessPriConfig(key: string, op: string, values: seq<FieldValue>) returns (outcome: PriOutcome)
      modifies this`globalConfig
      ensures outcome == PriDecision(key, op, values)
      ensures outcome.EnableGlobal? ==> globalConfig == old(globalConfig).(enabled := true,
                ethernetCompression := outcome.eth, ipCompression := outcome.ip, compressionRatio := outcome.ratio)
      ensures outcome.Ignored? || outcome.Threw? ==> globalConfig == old(globalConfig)
    {
      if key != "global" {
        return Ignored;
      }
      if op != SET_COMMAND {
        return Ignored;
      }
      var enabled, eth, ip, ratio := false, false, false, 25 as u32;
      var i := 0;
      while i < |values|
        invariant 0 <= i <= |values|
        invariant ParsePriFields(DEFAULT_PRI_PARSE, values[..i]) == Some(PriParse(enabled, eth, ip, ratio))
        invariant unchanged(this)
      {
        ParsePriFieldsSnoc(DEFAULT_PRI_PARSE, values[..i], values[i]);
        assert values[..i + 1] == values[..i] + [values[i]];
        var field, value := values[i].field, values[i].value;
        if field == "pri_enable" {
          enabled := value == "true";
        } else if field == "ethernet_compression" {
          eth := value == "true";
        } else if field == "ip_compression" {
          ip := value == "true";
        } else if field == "compression_ratio" {
          var parsed := Stoi(value);
          if parsed.None? {
            assert values[..i + 1] + values[i + 1..] == values;
            ParsePriFieldsNoneStays(DEFAULT_PRI_PARSE, values[..i + 1], values[i + 1..]);
            return Threw;
          }
          ratio := ToU32(parsed.value);
        }
        i := i + 1;
      }
      assert values[..|values|] == values;
      if enabled {
        EnableGlobalPri(eth, ip, ratio);
        outcome := EnableGlobal(eth, ip, ratio);
      } else {
        outcome := DisableGlobal;
      }
    }

    /** updateInterfacePRIStats for one interface, as written. */
    method UpdateInterfacePriStats(iface: string)
      modifies this`stats
      ensures stats == old(stats)[iface := PriTick(if iface in old(stats) then old(stats)[iface] else ZERO_PRI_STATS,
                                                   globalConfig.compressionRatio)]
    {
      var st := if iface in stats then stats[iface] else ZERO_PRI_STATS;
      ghost var st0 := st;
      st := st.(packetsCompressed := st.packetsCompressed + 1000);
      st := st.(packetsUncompressed := st.packetsUncompressed + 50);
      st := st.(bytesSaved := st.bytesSaved + st.packetsCompressed * (ToU32(globalConfig.compressionRatio * 42) / 100));
      st := st.(compressionRatioActual := ReportedRatio(st.bytesSaved, st.packetsCompressed));
      assert st == PriTick(st0, globalConfig.compressionRatio);
      stats := stats[iface := st];
    }

    /** updatePRIStatistics: exactly the enabled interfaces get an update. */
    method UpdatePriStatistics()
      modifies this`stats
      ensures stats.Keys == old(stats).Keys + set i | i in interfaces && interfaces[i].enabled
      ensures forall i :: i in stats ==>
        stats[i] == if i in interfaces && interfaces[i].enabled
                    then PriTick(if i in old(stats) then old(stats)[i] else ZERO_PRI_STATS, globalConfig.compressionRatio)
                    else old(stats)[i]
    {
      var toVisit := interfaces.Keys;
      ghost var s0 := stats;
      while toVisit != {}
        invariant toVisit <= interfaces.Keys
        invariant stats.Keys == s0.Keys + set i | i in interfaces && interfaces[i].enabled && i !in toVisit
        invariant forall i :: i in stats ==>
          stats[i] == if i in interfaces && interfaces[i].enabled && i !in toVisit
                      then PriTick(if i in s0 then s0[i] else ZERO_PRI_STATS, globalConfig.compressionRatio)
                      else s0[i]
        decreases toVisit
      {
        var i :| i in toVisit;
        if interfaces[i].enabled {
          UpdateInterfacePriStats(i);
        }
        toVisit := toVisit - {i};
      }
    }

    /** doPeriodicTask at wall-clock second `now`: statistics every 5 seconds. */
    method DoPeriodicTask(now: int)
      modifies this`stats, this`lastStatsUpdate
      ensures lastStatsUpdate == if now - old(lastStatsUpdate) >= STATS_INTERVAL_S then now else old(lastStatsUpdate)
      ensures now - old(lastStatsUpdate) < STATS_INTERVAL_S ==> stats == old(stats)
      ensures now - old(lastStatsUpdate) >= STATS_INTERVAL_S ==>
        && stats.Keys == old(stats).Keys + (set i | i in interfaces && interfaces[i].enabled)
        && forall i :: i in stats ==>
             stats[i] == if i in interfaces && interfaces[i].enabled
                         then PriTick(if i in old(stats) then old(stats)[i] else ZERO_PRI_STATS, globalConfig.compressionRatio)
                         else old(stats)[i]
    {
      if now - lastStatsUpdate >= STATS_INTERVAL_S {
        UpdatePriStatistics();
        lastStatsUpdate := now;
      }
    }
  }
}
