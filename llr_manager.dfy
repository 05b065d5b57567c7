/** The link-level-retry (LLR) manager of the link daemon (UELLRManager,
    sonic-ue-linkd/src/ue_llr_manager.cpp): validation of the global
    configuration, the per-interface configuration, enabling and disabling
    globally and per interface, and the counter updates of the statistics.
    Database writes, the SAI calls (commented out in the source) and the
    floating-point latency and success-rate figures are left out; the random
    per-tick increments and the clock are inputs. */
module LlrManager {
  import opened Common

  datatype LlrGlobalConfig = LlrGlobalConfig(
    enabled: bool,
    maxRetries: u32,
    timeoutMs: u32,
    windowSize: u32,
    selectiveRepeat: bool)

  const DEFAULT_LLR_GLOBAL: LlrGlobalConfig := LlrGlobalConfig(false, 3, 5, 256, true)

  datatype LlrInterfaceConfig = LlrInterfaceConfig(
    enabled: bool,
    maxRetries: u32,
    timeoutMs: u32,
    bufferSize: u32,
    statsEnable: bool)

  datatype LlrStats = LlrStats(
    retryCount: nat,
    successCount: nat,
    timeoutCount: nat,
    framesTransmitted: nat,
    framesRetransmitted: nat)

  /** `LLRStats stats = {}`. */
  const ZERO_LLR_STATS: LlrStats := LlrStats(0, 0, 0, 0, 0)

  const DEFAULT_MAX_RETRIES: u32 := 3
  const DEFAULT_TIMEOUT_MS: u32 := 5
  const DEFAULT_WINDOW_SIZE: u32 := 256
  const INTERFACE_BUFFER_SIZE: u32 := 1024
  const STATS_INTERVAL_S: int := 5

  // ---------------------------------------------------------------------------
  // Validation of the global configuration
  // ---------------------------------------------------------------------------

  /** The local variables processLLRConfig fills from the fields. */
  datatype LlrParse = LlrParse(
    enabled: bool,
    maxRetries: u32,
    timeoutMs: u32,
    windowSize: u32,
    selectiveRepeat: bool)

  const DEFAULT_LLR_PARSE: LlrParse := LlrParse(false, 3, 5, 256, true)

  /** C's `a & b` on non-negative integers, bit by bit from the least significant. */
  function BitAnd(a: nat, b: nat): (r: nat)
    ensures r <= a && r <= b
  {
    if a == 0 || b == 0 then 0
    else 2 * BitAnd(a / 2, b / 2) + (if a % 2 == 1 && b % 2 == 1 then 1 else 0)
  }

  lemma {:induction false} BitAndSelf(x: nat)
    ensures BitAnd(x, x) == x
  {
    if x > 0 {
      BitAndSelf(x / 2);
    }
  }

  /** The window test of processLLRConfig: `w != 0 && (w & (w - 1)) == 0`. */
  predicate PowerOfTwoTest(w: u32) {
    w != 0 && BitAnd(w, w - 1) == 0
  }

  /** The powers of two, defined by halving. */
  predicate IsPow2(w: nat) {
    w == 1 || (w > 1 && w % 2 == 0 && IsPow2(w / 2))
  }

  /** The bit trick accepts exactly the powers of two. */
  lemma {:induction false} PowerOfTwoTestSound(w: nat)
    requires w > 0 && BitAnd(w, w - 1) == 0
    ensures IsPow2(w)
  {
    if w > 1 {
      if w % 2 == 0 {
        assert (w - 1) / 2 == w / 2 - 1;
        PowerOfTwoTestSound(w / 2);
      } else {
        assert (w - 1) / 2 == w / 2;
        BitAndSelf(w / 2);
        assert false;
      }
    }
  }

  lemma {:induction false} PowerOfTwoTestComplete(w: nat)
    requires IsPow2(w)
    ensures BitAnd(w, w - 1) == 0
  {
    if w > 1 {
      PowerOfTwoTestComplete(w / 2);
      assert (w - 1) / 2 == w / 2 - 1;
    }
  }

  /** The two checks on a window size: a failed power-of-two test gives 256,
      and the value then kept outside [16, 1024] also gives 256. */
  function CheckWindow(w: u32): (r: u32)
    ensures r == w || r == DEFAULT_WINDOW_SIZE
  {
    var w1 := if !PowerOfTwoTest(w) then DEFAULT_WINDOW_SIZE else w;
    if w1 < 16 || w1 > 1024 then DEFAULT_WINDOW_SIZE else w1
  }

  /** The windows the check keeps are exactly the powers of two from 16 to 1024. */
  predicate IsLlrWindow(w: int) {
    w == 16 || w == 32 || w == 64 || w == 128 || w == 256 || w == 512 || w == 1024
  }

  lemma {:induction false} Pow2UpTo1024(w: nat)
    requires IsPow2(w) && w <= 1024
    ensures w == 1 || w == 2 || w == 4 || w == 8 || IsLlrWindow(w)
  {
    if w > 1 {
      Pow2UpTo1024(w / 2);
    }
  }

  lemma LlrWindowsArePow2(w: nat)
    requires IsLlrWindow(w)
    ensures IsPow2(w)
  {
    assert IsPow2(1) && IsPow2(2) && IsPow2(4) && IsPow2(8) && IsPow2(16);
    assert IsPow2(32) && IsPow2(64) && IsPow2(128) && IsPow2(256) && IsPow2(512) && IsPow2(1024);
  }

  /** The check keeps a value iff it is a power of two in [16, 1024] ... */
  lemma CheckWindowKeeps(w: u32)
    ensures CheckWindow(w) == w <==> IsLlrWindow(w)
  {
    if IsLlrWindow(w) {
      LlrWindowsArePow2(w);
      PowerOfTwoTestComplete(w);
    } else if PowerOfTwoTest(w) && 16 <= w <= 1024 {
      PowerOfTwoTestSound(w);
      Pow2UpTo1024(w);
    }
  }

  /** ... so what it returns is always one. */
  lemma CheckWindowIsLlrWindow(w: u32)
    ensures IsLlrWindow(CheckWindow(w))
  {
    CheckWindowKeeps(w);
  }

  /** One field of a SET on the "global" key. A value std::stoi cannot parse is
      caught, and the variable keeps what it held; a parsed value is stored in
      a uint32_t and then range-checked. */
  function ApplyLlrField(p: LlrParse, fv: FieldValue): (r: LlrParse)
  {
    if fv.field == "llr_enable" then p.(enabled := fv.value == "true")
    else if fv.field == "llr_max_retries" then
      match Stoi(fv.value)
      case None => p
      case Some(v) =>
        var u := ToU32(v);
        p.(maxRetries := if u < 1 || u > 10 then DEFAULT_MAX_RETRIES else u)
    else if fv.field == "llr_timeout_ms" then
      match Stoi(fv.value)
      case None => p
      case Some(v) =>
        var u := ToU32(v);
        p.(timeoutMs := if u < 1 || u > 100 then DEFAULT_TIMEOUT_MS else u)
    else if fv.field == "llr_window_size" then
      match Stoi(fv.value)
      case None => p
      case Some(v) => p.(windowSize := CheckWindow(ToU32(v)))
    else if fv.field == "llr_selective_repeat" then p.(selectiveRepeat := fv.value == "true")
    else p
  }

  function ParseLlrFields(p: LlrParse, values: seq<FieldValue>): LlrParse
    decreases |values|
  {
    if values == [] then p else ParseLlrFields(ApplyLlrField(p, values[0]), values[1..])
  }

  lemma {:induction false} ParseLlrFieldsSnoc(p: LlrParse, values: seq<FieldValue>, fv: FieldValue)
    ensures ParseLlrFields(p, values + [fv]) == ApplyLlrField(ParseLlrFields(p, values), fv)
    decreases |values|
  {
    if values == [] {
      assert [fv][1..] == [];
    } else {
      assert (values + [fv])[1..] == values[1..] + [fv];
      ParseLlrFieldsSnoc(ApplyLlrField(p, values[0]), values[1..], fv);
    }
  }

  /** The ranges processLLRConfig guarantees. */
  predicate InLlrRange(p: LlrParse) {
    1 <= p.maxRetries <= 10 && 1 <= p.timeoutMs <= 100 && IsLlrWindow(p.windowSize)
  }

  /** Whatever the fields, the parsed retries, timeout and window lie in range. */
  lemma {:induction false} ParseLlrFieldsInRange(p: LlrParse, values: seq<FieldValue>)
    requires InLlrRange(p)
    ensures InLlrRange(ParseLlrFields(p, values))
    decreases |values|
  {
    if values != [] {
      ApplyLlrFieldInRange(p, values[0]);
      ParseLlrFieldsInRange(ApplyLlrField(p, values[0]), values[1..]);
    }
  }

  /** One field keeps the retries, timeout and window in range. */
  lemma ApplyLlrFieldInRange(p: LlrParse, fv: FieldValue)
    requires InLlrRange(p)
    ensures InLlrRange(ApplyLlrField(p, fv))
  {
    var r := ApplyLlrField(p, fv);
    if fv.field == "llr_enable" || fv.field == "llr_selective_repeat" || Stoi(fv.value).None? {
      assert r.maxRetries == p.maxRetries && r.timeoutMs == p.timeoutMs && r.windowSize == p.windowSize;
    } else if fv.field == "llr_max_retries" {
      assert r.timeoutMs == p.timeoutMs && r.windowSize == p.windowSize;
    } else if fv.field == "llr_timeout_ms" {
      assert r.maxRetries == p.maxRetries && r.windowSize == p.windowSize;
    } else if fv.field == "llr_window_size" {
      CheckWindowIsLlrWindow(ToU32(Stoi(fv.value).value));
      assert r.maxRetries == p.maxRetries && r.timeoutMs == p.timeoutMs;
    } else {
      assert r == p;
    }
  }

  /** Out-of-range and negative retries fall back to the default 3; an
      unparsable value keeps the earlier one. */
  lemma RetriesExamples(p: LlrParse)
    ensures ApplyLlrField(p, FieldValue("llr_max_retries", "11")).maxRetries == 3
    ensures ApplyLlrField(p, FieldValue("llr_max_retries", "-1")).maxRetries == 3
    ensures ApplyLlrField(p, FieldValue("llr_max_retries", "7")).maxRetries == 7
    ensures ApplyLlrField(p, FieldValue("llr_max_retries", "x")) == p
  {
    assert Stoi("11") == Some(11) by { StoiOfNatToString(11); assert NatToString(11) == "11"; }
    assert Stoi("7") == Some(7) by { StoiOfNatToString(7); assert NatToString(7) == "7"; }
    assert Stoi("1") == Some(1) by { StoiOfNatToString(1); assert NatToString(1) == "1"; }
    assert "-1"[1..] == "1";
  }

  /** The global configuration a SET leaves: the parsed values when llr_enable
      is "true", otherwise only `enabled` cleared. */
  function GlobalAfterSet(g: LlrGlobalConfig, p: LlrParse): (r: LlrGlobalConfig)
    ensures p.enabled ==> r == LlrGlobalConfig(true, p.maxRetries, p.timeoutMs, p.windowSize, p.selectiveRepeat)
    ensures !p.enabled ==> r == g.(enabled := false)
  {
    if p.enabled then LlrGlobalConfig(true, p.maxRetries, p.timeoutMs, p.windowSize, p.selectiveRepeat)
    else g.(enabled := false)
  }

  // ---------------------------------------------------------------------------
  // Per-interface configuration
  // ---------------------------------------------------------------------------

  /** What processInterfaceConfig does on SET. */
  datatype InterfaceAction = NoAction | EnableInterface(config: LlrInterfaceConfig) | DisableInterface

  /** The SET decision: act only when llr_enable is present or ue_enable is
      "true"; enable, with the global retries and timeout, iff the last
      llr_enable is "true". */
  function InterfaceDecision(g: LlrGlobalConfig, values: seq<FieldValue>): (r: InterfaceAction)
    ensures r.EnableInterface? ==> r.config == LlrInterfaceConfig(true, g.maxRetries, g.timeoutMs, INTERFACE_BUFFER_SIZE, true)
  {
    var (enabled, found) := ScanInterfaceFields(values, false, false);
    if !found then NoAction
    else if enabled then EnableInterface(LlrInterfaceConfig(true, g.maxRetries, g.timeoutMs, INTERFACE_BUFFER_SIZE, true))
    else DisableInterface
  }

  /** The field loop of processInterfaceConfig: (config.enabled, found_llr_config). */
  function ScanInterfaceFields(values: seq<FieldValue>, enabled: bool, found: bool): (bool, bool)
    decreases |values|
  {
    if values == [] then (enabled, found)
    else
      var fv := values[0];
      if fv.field == "llr_enable" then ScanInterfaceFields(values[1..], fv.value == "true", true)
      else if fv.field == "ue_enable" && fv.value == "true" then ScanInterfaceFields(values[1..], enabled, true)
      else ScanInterfaceFields(values[1..], enabled, found)
  }

  /** The field loop of processInterfaceConfig, over a local copy of the
      configuration: the last llr_enable decides `enabled`, and `found` is set
      by any llr_enable or "true" ue_enable. */
  method ScanInterface(values: seq<FieldValue>) returns (enabled: bool, found: bool)
    ensures (enabled, found) == ScanInterfaceFields(values, false, false)
  {
    enabled, found := false, false;
    var i := 0;
    while i < |values|
      invariant 0 <= i <= |values|
      invariant ScanInterfaceFields(values, false, false) == ScanInterfaceFields(values[i..], enabled, found)
    {
      var fv := values[i];
      assert values[i..][1..] == values[i + 1..];
      if fv.field == "llr_enable" {
        enabled := fv.value == "true";
        found := true;
      } else if fv.field == "ue_enable" && fv.value == "true" {
        found := true;
      }
      i := i + 1;
    }
  }

  /** A field that makes processInterfaceConfig act: llr_enable, or a "true" ue_enable. */
  predicate Actionable(fv: FieldValue) {
    fv.field == "llr_enable" || (fv.field == "ue_enable" && fv.value == "true")
  }

  /** The scan finds a configuration iff it started found or some field is actionable. */
  lemma {:induction false} ScanFindsActionable(values: seq<FieldValue>, enabled: bool, found: bool)
    ensures ScanInterfaceFields(values, enabled, found).1
      <==> found || exists i :: 0 <= i < |values| && Actionable(values[i])
    decreases |values|
  {
    if values != [] {
      var fv := values[0];
      var e0 := if fv.field == "llr_enable" then fv.value == "true" else enabled;
      ScanFindsActionable(values[1..], e0, found || Actionable(fv));
      if exists i :: 0 <= i < |values| && Actionable(values[i]) {
        var i :| 0 <= i < |values| && Actionable(values[i]);
        if i > 0 {
          assert values[1..][i - 1] == values[i];
        }
      }
      if exists k :: 0 <= k < |values[1..]| && Actionable(values[1..][k]) {
        var k :| 0 <= k < |values[1..]| && Actionable(values[1..][k]);
        assert values[k + 1] == values[1..][k];
      }
    }
  }

  /** Without an llr_enable field the scan keeps the enabled flag it started with. */
  lemma {:induction false} ScanKeepsEnabled(values: seq<FieldValue>, enabled: bool, found: bool)
    requires forall i :: 0 <= i < |values| ==> values[i].field != "llr_enable"
    ensures ScanInterfaceFields(values, enabled, found).0 == enabled
    decreases |values|
  {
    if values != [] {
      assert forall k :: 0 <= k < |values[1..]| ==> values[1..][k] == values[k + 1];
      ScanKeepsEnabled(values[1..], enabled, found || Actionable(values[0]));
    }
  }

  /** The scan's enabled flag is that of the last llr_enable field. */
  lemma {:induction false} ScanFollowsLastLlrEnable(values: seq<FieldValue>, enabled: bool, found: bool, i: nat)
    requires i < |values| && values[i].field == "llr_enable"
    requires forall j :: i < j < |values| ==> values[j].field != "llr_enable"
    ensures ScanInterfaceFields(values, enabled, found).0 <==> values[i].value == "true"
    decreases |values|
  {
    var fv := values[0];
    var e0 := if fv.field == "llr_enable" then fv.value == "true" else enabled;
    var f0 := found || Actionable(fv);
    assert ScanInterfaceFields(values, enabled, found) == ScanInterfaceFields(values[1..], e0, f0);
    if i == 0 {
      assert forall k :: 0 <= k < |values[1..]| ==> values[1..][k] == values[k + 1];
      ScanKeepsEnabled(values[1..], e0, f0);
    } else {
      assert values[1..][i - 1] == values[i];
      assert forall j :: i - 1 < j < |values[1..]| ==> values[1..][j] == values[j + 1];
      ScanFollowsLastLlrEnable(values[1..], e0, f0, i - 1);
    }
  }

  // ---------------------------------------------------------------------------
  // The manager
  // ---------------------------------------------------------------------------

  /** The invariant the counter updates keep. */
  predicate StatsConsistent(s: LlrStats) {
    s.framesRetransmitted == s.retryCount && s.framesTransmitted == s.retryCount + s.successCount
  }

  /** One tick of simulated statistics with r new retries and s new successes. */
  function TickStats(st: LlrStats, r: nat, s: nat): (res: LlrStats)
    ensures res.retryCount == st.retryCount + r && res.successCount == st.successCount + s
    ensures res.timeoutCount == st.timeoutCount
    ensures StatsConsistent(st) ==> StatsConsistent(res)
  {
    st.(retryCount := st.retryCount + r,
        successCount := st.successCount + s,
        framesTransmitted := st.framesTransmitted + r + s,
        framesRetransmitted := st.framesRetransmitted + r)
  }

  /** From zero, any run of ticks leaves the frame counters equal to the sums of
      the increments. */
  function TickAll(st: LlrStats, ticks: seq<(nat, nat)>): LlrStats
    decreases |ticks|
  {
    if ticks == [] then st else TickAll(TickStats(st, ticks[0].0, ticks[0].1), ticks[1..])
  }

  function SumRetries(ticks: seq<(nat, nat)>): nat
    decreases |ticks|
  {
    if ticks == [] then 0 else ticks[0].0 + SumRetries(ticks[1..])
  }

  function SumSuccesses(ticks: seq<(nat, nat)>): nat
    decreases |ticks|
  {
    if ticks == [] then 0 else ticks[0].1 + SumSuccesses(ticks[1..])
  }

  lemma {:induction false} TickAllFromZero(st: LlrStats, ticks: seq<(nat, nat)>)
    requires StatsConsistent(st)
    ensures var r := TickAll(st, ticks);
      && StatsConsistent(r)
      && r.retryCount == st.retryCount + SumRetries(ticks)
      && r.successCount == st.successCount + SumSuccesses(ticks)
      && r.framesTransmitted == st.framesTransmitted + SumRetries(ticks) + SumSuccesses(ticks)
    decreases |ticks|
  {
    if ticks != [] {
      TickAllFromZero(TickStats(st, ticks[0].0, ticks[0].1), ticks[1..]);
    }
  }

  class LlrManager {
    var globalConfig: LlrGlobalConfig
    var interfaces: map<string, LlrInterfaceConfig>
    var saiObjects: map<string, u64>
    var stats: map<string, LlrStats>
    var lastStatsUpdate: int

    /** Every configured interface has a statistics entry and no other does;
        every configured interface is enabled with statistics on; every entry
        keeps the frame counters consistent. */
    ghost predicate Valid()
      reads this
    {
      && interfaces.Keys == stats.Keys
      && (forall i :: i in interfaces ==> interfaces[i].enabled && interfaces[i].statsEnable)
      && (forall i :: i in stats ==> StatsConsistent(stats[i]))
    }

    constructor ()
      ensures Valid()
      ensures globalConfig == DEFAULT_LLR_GLOBAL && interfaces == map[] && saiObjects == map[] && stats == map[]
      ensures lastStatsUpdate == 0
    {
      globalConfig := DEFAULT_LLR_GLOBAL;
      interfaces := map[];
      saiObjects := map[];
      stats := map[];
      lastStatsUpdate := 0;
    }

    /** enableGlobalLLR: the validated values are stored and LLR turned on. */
    method EnableGlobalLlr(maxRetries: u32, timeoutMs: u32, windowSize: u32, selectiveRepeat: bool)
      modifies this`globalConfig
      ensures globalConfig == LlrGlobalConfig(true, maxRetries, timeoutMs, windowSize, selectiveRepeat)
    {
      globalConfig := LlrGlobalConfig(true, maxRetries, timeoutMs, windowSize, selectiveRepeat);
    }

    /** disableGlobalLLR as evidently intended: LLR off and every interface's
        configuration, SAI object and statistics removed. The source erases
        from the map its loop iterates over, which C++ leaves undefined. */
    method DisableGlobalLlr()
      requires Valid()
      modifies this`globalConfig, this`interfaces, this`saiObjects, this`stats
      ensures Valid()
      ensures globalConfig == old(globalConfig).(enabled := false)
      ensures interfaces == map[] && saiObjects == map[] && stats == map[]
    {
      globalConfig := globalConfig.(enabled := false);
      while interfaces.Keys != {}
        invariant Valid() && globalConfig == old(globalConfig).(enabled := false)
        decreases |interfaces.Keys|
      {
        var i :| i in interfaces;
        DisableInterfaceLlr(i);
      }
      assert interfaces == map[] && stats == map[];
      saiObjects := map[];
    }

    /** enableInterfaceLLR: the configuration recorded and the statistics reset. */
    method EnableInterfaceLlr(iface: string, config: LlrInterfaceConfig)
      requires Valid() && config.enabled && config.statsEnable
      modifies this`interfaces, this`stats
      ensures Valid()
      ensures interfaces == old(interfaces)[iface := config]
      ensures stats == old(stats)[iface := ZERO_LLR_STATS]
    {
      interfaces := interfaces[iface := config];
      stats := stats[iface := ZERO_LLR_STATS];
    }

    /** disableInterfaceLLR: the interface leaves all three tables. */
    method DisableInterfaceLlr(iface: string)
      requires Valid()
      modifies this`interfaces, this`saiObjects, this`stats
      ensures Valid()
      ensures interfaces == old(interfaces) - {iface}
      ensures saiObjects == old(saiObjects) - {iface}
      ensures stats == old(stats) - {iface}
    {
      interfaces := interfaces - {iface};
      if iface in saiObjects {
        saiObjects := saiObjects - {iface};
      }
      stats := stats - {iface};
    }

    /** processLLRConfig: only the "global" key acts; SET parses the fields and
        enables with the validated values or disables; DEL disables. */
    method ProcessLlrConfig(key: string, op: string, values: seq<FieldValue>)
      requires Valid()
      modifies this`globalConfig, this`interfaces, this`saiObjects, this`stats
      ensures Valid()
      ensures key != "global" || (op != SET_COMMAND && op != DEL_COMMAND) ==>
        && globalConfig == old(globalConfig) && interfaces == old(interfaces)
        && saiObjects == old(saiObjects) && stats == old(stats)
      ensures key == "global" && op == SET_COMMAND ==>
        globalConfig == GlobalAfterSet(old(globalConfig), ParseLlrFields(DEFAULT_LLR_PARSE, values))
      ensures key == "global" && op == SET_COMMAND && ParseLlrFields(DEFAULT_LLR_PARSE, values).enabled ==>
        interfaces == old(interfaces) && saiObjects == old(saiObjects) && stats == old(stats)
      ensures key == "global" && (op == DEL_COMMAND || (op == SET_COMMAND && !ParseLlrFields(DEFAULT_LLR_PARSE, values).enabled)) ==>
        && globalConfig == old(globalConfig).(enabled := false)
        && interfaces == map[] && saiObjects == map[] && stats == map[]
    {
      if key != "global" {
        return;
      }
      if op == SET_COMMAND {
        var parsed := DEFAULT_LLR_PARSE;
        var i := 0;
        while i < |values|
          invariant 0 <= i <= |values|
          invariant parsed == ParseLlrFields(DEFAULT_LLR_PARSE, values[..i])
          invariant unchanged(this)
        {
          ParseLlrFieldsSnoc(DEFAULT_LLR_PARSE, values[..i], values[i]);
          assert values[..i + 1] == values[..i] + [values[i]];
          parsed := ApplyLlrField(parsed, values[i]);
          i := i + 1;
        }
        assert values[..|values|] == values;
        if parsed.enabled {
          EnableGlobalLlr(parsed.maxRetries, parsed.timeoutMs, parsed.windowSize, parsed.selectiveRepeat);
        } else {
          DisableGlobalLlr();
        }
      } else if op == DEL_COMMAND {
        DisableGlobalLlr();
      }
    }

    /** processInterfaceConfig for the interface named by the key. */
    method ProcessInterfaceConfig(iface: string, op: string, values: seq<FieldValue>)
      requires Valid()
      modifies this`interfaces, this`saiObjects, this`stats
      ensures Valid()
      ensures op == SET_COMMAND ==> match InterfaceDecision(globalConfig, values)
        case NoAction => interfaces == old(interfaces) && stats == old(stats) && saiObjects == old(saiObjects)
        case EnableInterface(c) => interfaces == old(interfaces)[iface := c] && stats == old(stats)[iface := ZERO_LLR_STATS]
                                   && saiObjects == old(saiObjects)
        case DisableInterface => interfaces == old(interfaces) - {iface} && stats == old(stats) - {iface}
                                 && saiObjects == old(saiObjects) - {iface}
      ensures op == DEL_COMMAND ==> interfaces == old(interfaces) - {iface} && stats == old(stats) - {iface}
                                    && saiObjects == old(saiObjects) - {iface}
      ensures op != SET_COMMAND && op != DEL_COMMAND ==>
        interfaces == old(interfaces) && stats == old(stats) && saiObjects == old(saiObjects)
    {
      if op == SET_COMMAND {
        var enabled, found := ScanInterface(values);
        var config := LlrInterfaceConfig(enabled, globalConfig.maxRetries, globalConfig.timeoutMs, INTERFACE_BUFFER_SIZE, true);
        if found {
          if config.enabled {
            EnableInterfaceLlr(iface, config);
          } else {
            DisableInterfaceLlr(iface);
          }
        }
      } else if op == DEL_COMMAND {
        DisableInterfaceLlr(iface);
      }
    }

    /** updateInterfaceLLRStats with `retries` new retries and `successes` new
        successes drawn by the simulation. */
    method UpdateInterfaceLlrStats(iface: string, retries: nat, successes: nat)
      requires Valid() && iface in interfaces
      modifies this`stats
      ensures Valid()
      ensures stats == old(stats)[iface := TickStats(old(stats)[iface], retries, successes)]
    {
      var st := stats[iface];
      st := st.(retryCount := st.retryCount + retries,
                successCount := st.successCount + successes,
                framesTransmitted := st.framesTransmitted + retries + successes,
                framesRetransmitted := st.framesRetransmitted + retries);
      assert st == TickStats(stats[iface], retries, successes);
      stats := stats[iface := st];
    }

    /** updateLLRStatistics: one tick for every enabled interface with statistics
        on, using that interface's increments. */
    method UpdateLlrStatistics(increments: map<string, (nat, nat)>)
      requires Valid() && interfaces.Keys <= increments.Keys
      modifies this`stats
      ensures Valid()
      ensures stats.Keys == old(stats).Keys
      ensures forall i :: i in stats ==>
        stats[i] == TickStats(old(stats)[i], increments[i].0, increments[i].1)
    {
      var toVisit := interfaces.Keys;
      ghost var s0 := stats;
      while toVisit != {}
        invariant Valid() && toVisit <= interfaces.Keys && stats.Keys == s0.Keys
        invariant forall i :: i in stats ==>
          stats[i] == if i in toVisit then s0[i] else TickStats(s0[i], increments[i].0, increments[i].1)
        decreases toVisit
      {
        var i :| i in toVisit;
        if interfaces[i].enabled && interfaces[i].statsEnable {
          UpdateInterfaceLlrStats(i, increments[i].0, increments[i].1);
        }
        toVisit := toVisit - {i};
      }
    }

    /** doPeriodicTask at wall-clock second `now`: statistics every 5 seconds. */
    method DoPeriodicTask(now: int, increments: map<string, (nat, nat)>)
      requires Valid() && interfaces.Keys <= increments.Keys
      modifies this`stats, this`lastStatsUpdate
      ensures Valid()
      ensures lastStatsUpdate == if now - old(lastStatsUpdate) >= STATS_INTERVAL_S then now else old(lastStatsUpdate)
      ensures now - old(lastStatsUpdate) < STATS_INTERVAL_S ==> stats == old(stats)
      ensures now - old(lastStatsUpdate) >= STATS_INTERVAL_S ==>
        && stats.Keys == old(stats).Keys
        && forall i :: i in stats ==> stats[i] == TickStats(old(stats)[i], increments[i].0, increments[i].1)
    {
      if now - lastStatsUpdate >= STATS_INTERVAL_S {
        UpdateLlrStatistics(increments);
        lastStatsUpdate := now;
      }
    }
  }
}
