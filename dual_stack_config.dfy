/** The dual-stack configuration manager (ue_dual_stack_config_mgr.py): the
    string-level validator of a configuration, the appliers' IP-version token
    parsing and the database writes they make, the ECMP group guard, the
    capability auto-detection and the two CLI entry builders.

    Configuration tables are string dictionaries; a table whose entries are
    visited in order (`.items()`) is a sequence of name/entry pairs. Database
    writes are returned as values rather than performed. Whether a prefix is a
    valid IPv4 or IPv6 network (Python's `ipaddress` module) is not part of
    this model: it is a predicate passed in. */
module DualStackConfig {
  import opened Common

  /** A configuration entry: field name to string value. */
  type Dict = map<string, string>

  /** `d.get(k, default)`. */
  function Get(d: Dict, k: string, default: string): string {
    if k in d then d[k] else default
  }

  /** `d.get(k) == "true"`: an absent field is None, which is not "true". */
  predicate IsTrue(d: Dict, k: string) {
    k in d && d[k] == "true"
  }

  /** Python's `str(b).lower()`. */
  function BoolStr(b: bool): string {
    if b then "true" else "false"
  }

  const DEFAULT_IP_VERSIONS: string := "4,6"

  /** `config.get("ip_versions", "4,6").split(",")`. */
  function VersionTokens(d: Dict): seq<string> {
    Split(Get(d, "ip_versions", DEFAULT_IP_VERSIONS), ',')
  }

  lemma DefaultVersionTokens()
    ensures Split(DEFAULT_IP_VERSIONS, ',') == ["4", "6"]
  {
    assert Join(["4", "6"], ',') == DEFAULT_IP_VERSIONS;
    SplitJoin(["4", "6"], ',');
  }

  // ---------------------------------------------------------------------------
  // validate_dual_stack_config
  // ---------------------------------------------------------------------------

  datatype Family = Ipv4 | Ipv6

  /** The validator's error messages, one constructor per message. */
  datatype ValidationError =
    | InvalidIpVersion(version: string)
    | MissingMaxPaths(iface: string, family: Family)
    | InvalidPrefix(family: Family, group: string)

  datatype EcmpTables = EcmpTables(ipv4Groups: Option<seq<(string, Dict)>>, ipv6Groups: Option<seq<(string, Dict)>>)

  /** The parts of a configuration the validator reads; None for an absent table. */
  datatype ConfigTables = ConfigTables(
    ueGlobal: Option<map<string, Dict>>,
    ueInterface: Option<seq<(string, Dict)>>,
    ueEcmp: Option<EcmpTables>)

  /** A global token is accepted when, stripped, it is "4" or "6". */
  predicate ValidVersionToken(t: string) {
    Strip(t) == "4" || Strip(t) == "6"
  }

  lemma ValidLiterals()
    ensures ValidVersionToken("4") && ValidVersionToken("6")
  {
    StripDigits();
  }

  /** The global check: one error per rejected token, in token order. */
  function GlobalErrors(tokens: seq<string>): (r: seq<ValidationError>)
    ensures |r| <= |tokens|
    ensures forall e :: e in r ==> e.InvalidIpVersion? && e.version in tokens && !ValidVersionToken(e.version)
    decreases |tokens|
  {
    if tokens == [] then []
    else
      var last := tokens[|tokens| - 1];
      GlobalErrors(tokens[..|tokens| - 1]) + (if ValidVersionToken(last) then [] else [InvalidIpVersion(last)])
  }

  lemma GlobalErrorsStep(tokens: seq<string>, i: nat)
    requires i < |tokens|
    ensures GlobalErrors(tokens[..i + 1])
      == GlobalErrors(tokens[..i]) + (if ValidVersionToken(tokens[i]) then [] else [InvalidIpVersion(tokens[i])])
  {
    assert tokens[..i + 1][..i] == tokens[..i];
  }

  /** Every rejected token is reported. */
  lemma {:induction false} GlobalErrorsComplete(tokens: seq<string>, i: nat)
    requires i < |tokens| && !ValidVersionToken(tokens[i])
    ensures InvalidIpVersion(tokens[i]) in GlobalErrors(tokens)
    decreases |tokens|
  {
    if i < |tokens| - 1 {
      GlobalErrorsComplete(tokens[..|tokens| - 1], i);
    }
  }

  lemma {:induction false} GlobalErrorsEmpty(tokens: seq<string>)
    ensures GlobalErrors(tokens) == [] <==> forall i :: 0 <= i < |tokens| ==> ValidVersionToken(tokens[i])
  {
    if forall i :: 0 <= i < |tokens| ==> ValidVersionToken(tokens[i]) {
      if tokens != [] {
        GlobalErrorsEmpty(tokens[..|tokens| - 1]);
      }
    } else {
      var i :| 0 <= i < |tokens| && !ValidVersionToken(tokens[i]);
      GlobalErrorsComplete(tokens, i);
    }
  }

  /** An interface is consistent when each version it lists, unstripped, has
      its max_paths field. */
  predicate InterfaceConsistent(cfg: Dict) {
    ("4" in VersionTokens(cfg) ==> "max_paths_v4" in cfg)
    && ("6" in VersionTokens(cfg) ==> "max_paths_v6" in cfg)
  }

  /** The check of one interface entry. */
  function IfaceErrors(name: string, cfg: Dict): (r: seq<ValidationError>)
    ensures |r| <= 2
    ensures forall e :: e in r ==> e.MissingMaxPaths? && e.iface == name
  {
    var tokens := VersionTokens(cfg);
    (if "4" in tokens && "max_paths_v4" !in cfg then [MissingMaxPaths(name, Ipv4)] else [])
    + (if "6" in tokens && "max_paths_v6" !in cfg then [MissingMaxPaths(name, Ipv6)] else [])
  }

  /** An interface gets the error for a version exactly when it lists that
      version without its max_paths field, and none when it is consistent. */
  lemma IfaceErrorsMeaning(name: string, cfg: Dict)
    ensures MissingMaxPaths(name, Ipv4) in IfaceErrors(name, cfg) <==> "4" in VersionTokens(cfg) && "max_paths_v4" !in cfg
    ensures MissingMaxPaths(name, Ipv6) in IfaceErrors(name, cfg) <==> "6" in VersionTokens(cfg) && "max_paths_v6" !in cfg
    ensures IfaceErrors(name, cfg) == [] <==> InterfaceConsistent(cfg)
  {
  }

  /** The interface check over the table, in table order. */
  function InterfaceErrors(ifaces: seq<(string, Dict)>): (r: seq<ValidationError>)
    ensures forall e :: e in r ==> e.MissingMaxPaths?
    decreases |ifaces|
  {
    if ifaces == [] then []
    else
      var last := ifaces[|ifaces| - 1];
      InterfaceErrors(ifaces[..|ifaces| - 1]) + IfaceErrors(last.0, last.1)
  }

  /** No interface error exactly when every interface is consistent. */
  lemma {:induction false} InterfaceErrorsEmpty(ifaces: seq<(string, Dict)>)
    ensures InterfaceErrors(ifaces) == [] <==> forall i :: 0 <= i < |ifaces| ==> InterfaceConsistent(ifaces[i].1)
    decreases |ifaces|
  {
    if ifaces != [] {
      var init := ifaces[..|ifaces| - 1];
      var last := ifaces[|ifaces| - 1];
      InterfaceErrorsEmpty(init);
      assert IfaceErrors(last.0, last.1) == [] <==> InterfaceConsistent(last.1) by {
        IfaceErrorsMeaning(last.0, last.1);
      }
      assert InterfaceErrors(ifaces) == InterfaceErrors(init) + IfaceErrors(last.0, last.1);
      assert forall i :: 0 <= i < |init| ==> init[i] == ifaces[i];
      assert (forall i :: 0 <= i < |ifaces| ==> InterfaceConsistent(ifaces[i].1))
        <==> (forall i :: 0 <= i < |init| ==> InterfaceConsistent(init[i].1)) && InterfaceConsistent(last.1);
    }
  }

  lemma InterfaceErrorsStep(ifaces: seq<(string, Dict)>, i: nat)
    requires i < |ifaces|
    ensures InterfaceErrors(ifaces[..i + 1]) == InterfaceErrors(ifaces[..i]) + IfaceErrors(ifaces[i].0, ifaces[i].1)
  {
    assert ifaces[..i + 1][..i] == ifaces[..i];
  }

  /** `group_config.get("prefix", "")`. */
  function Prefix(cfg: Dict): string {
    Get(cfg, "prefix", "")
  }

  /** The ECMP check of one family's groups: one error per invalid prefix. */
  function GroupErrors(family: Family, groups: seq<(string, Dict)>, valid: string -> bool): (r: seq<ValidationError>)
    ensures |r| <= |groups|
    ensures forall e :: e in r ==> e.InvalidPrefix? && e.family == family
    decreases |groups|
  {
    if groups == [] then []
    else
      var last := groups[|groups| - 1];
      GroupErrors(family, groups[..|groups| - 1], valid)
      + (if valid(Prefix(last.1)) then [] else [InvalidPrefix(family, last.0)])
  }

  /** No prefix error exactly when every group's prefix parses. */
  lemma {:induction false} GroupErrorsEmpty(family: Family, groups: seq<(string, Dict)>, valid: string -> bool)
    ensures GroupErrors(family, groups, valid) == [] <==> forall i :: 0 <= i < |groups| ==> valid(Prefix(groups[i].1))
    decreases |groups|
  {
    if groups != [] {
      var init := groups[..|groups| - 1];
      GroupErrorsEmpty(family, init, valid);
      assert forall i :: 0 <= i < |init| ==> init[i] == groups[i];
    }
  }

  function GlobalSection(config: ConfigTables): seq<ValidationError> {
    match config.ueGlobal
    case None => []
    case Some(t) => GlobalErrors(GlobalTokens(t))
  }

  function InterfaceSection(config: ConfigTables): seq<ValidationError> {
    match config.ueInterface
    case None => []
    case Some(ifaces) => InterfaceErrors(ifaces)
  }

  function OptGroupErrors(family: Family, groups: Option<seq<(string, Dict)>>, valid: string -> bool): seq<ValidationError> {
    match groups
    case None => []
    case Some(g) => GroupErrors(family, g, valid)
  }

  function EcmpSection(config: ConfigTables, valid4: string -> bool, valid6: string -> bool): seq<ValidationError> {
    match config.ueEcmp
    case None => []
    case Some(e) => OptGroupErrors(Ipv4, e.ipv4Groups, valid4) + OptGroupErrors(Ipv6, e.ipv6Groups, valid6)
  }

  /** The errors the validator returns: global, then interface, then ECMP. */
  function ValidationErrors(config: ConfigTables, valid4: string -> bool, valid6: string -> bool): seq<ValidationError> {
    GlobalSection(config) + InterfaceSection(config) + EcmpSection(config, valid4, valid6)
  }

  /** The global tokens the validator checks. */
  function GlobalTokens(t: map<string, Dict>): seq<string> {
    VersionTokens(if "global" in t then t["global"] else map[])
  }

  predicate GlobalValid(config: ConfigTables) {
    config.ueGlobal.Some? ==>
      var tokens := GlobalTokens(config.ueGlobal.value);
      forall i :: 0 <= i < |tokens| ==> ValidVersionToken(tokens[i])
  }

  predicate InterfacesValid(config: ConfigTables) {
    config.ueInterface.Some? ==>
      forall i :: 0 <= i < |config.ueInterface.value| ==> InterfaceConsistent(config.ueInterface.value[i].1)
  }

  predicate GroupsValid(groups: Option<seq<(string, Dict)>>, valid: string -> bool) {
    groups.Some? ==> forall i :: 0 <= i < |groups.value| ==> valid(Prefix(groups.value[i].1))
  }

  /** What it means for a configuration to pass, rule by rule. */
  predicate ConfigValid(config: ConfigTables, valid4: string -> bool, valid6: string -> bool) {
    && GlobalValid(config)
    && InterfacesValid(config)
    && (config.ueEcmp.Some? ==>
          GroupsValid(config.ueEcmp.value.ipv4Groups, valid4) && GroupsValid(config.ueEcmp.value.ipv6Groups, valid6))
  }

  lemma GlobalSectionEmpty(config: ConfigTables)
    ensures GlobalSection(config) == [] <==> GlobalValid(config)
  {
    if config.ueGlobal.Some? {
      GlobalErrorsEmpty(GlobalTokens(config.ueGlobal.value));
    }
  }

  lemma InterfaceSectionEmpty(config: ConfigTables)
    ensures InterfaceSection(config) == [] <==> InterfacesValid(config)
  {
    if config.ueInterface.Some? {
      InterfaceErrorsEmpty(config.ueInterface.value);
    }
  }

  lemma OptGroupErrorsEmpty(family: Family, groups: Option<seq<(string, Dict)>>, valid: string -> bool)
    ensures OptGroupErrors(family, groups, valid) == [] <==> GroupsValid(groups, valid)
  {
    if groups.Some? {
      GroupErrorsEmpty(family, groups.value, valid);
    }
  }

  /** The validator returns no error exactly when no rule fires. */
  lemma ValidationErrorsEmpty(config: ConfigTables, valid4: string -> bool, valid6: string -> bool)
    ensures ValidationErrors(config, valid4, valid6) == [] <==> ConfigValid(config, valid4, valid6)
  {
    GlobalSectionEmpty(config);
    InterfaceSectionEmpty(config);
    if config.ueEcmp.Some? {
      OptGroupErrorsEmpty(Ipv4, config.ueEcmp.value.ipv4Groups, valid4);
      OptGroupErrorsEmpty(Ipv6, config.ueEcmp.value.ipv6Groups, valid6);
    }
  }

  /** The section an error comes from, in the order the validator runs them. */
  function Rank(e: ValidationError): nat {
    match e
    case InvalidIpVersion(_) => 0
    case MissingMaxPaths(_, _) => 1
    case InvalidPrefix(Ipv4, _) => 2
    case InvalidPrefix(Ipv6, _) => 3
  }

  predicate Grouped(errs: seq<ValidationError>) {
    forall i, j :: 0 <= i < j < |errs| ==> Rank(errs[i]) <= Rank(errs[j])
  }

  /** Grouped errors of rank at most n followed by grouped errors of rank at
      least n are grouped. */
  lemma GroupedAppend(a: seq<ValidationError>, b: seq<ValidationError>, n: nat)
    requires Grouped(a) && Grouped(b)
    requires (forall e :: e in a ==> Rank(e) <= n) && (forall e :: e in b ==> Rank(e) >= n)
    ensures Grouped(a + b)
  {
    var ab := a + b;
    forall i, j | 0 <= i < j < |ab|
      ensures Rank(ab[i]) <= Rank(ab[j])
    {
      if j < |a| {
        assert ab[i] == a[i] && ab[j] == a[j];
      } else if i < |a| {
        assert ab[i] == a[i] && a[i] in a;
        assert ab[j] == b[j - |a|] && b[j - |a|] in b;
      } else {
        assert ab[i] == b[i - |a|] && ab[j] == b[j - |a|];
      }
    }
  }

  /** A sequence of errors that all have the same rank is grouped. */
  lemma SameRankGrouped(a: seq<ValidationError>, n: nat)
    requires forall e :: e in a ==> Rank(e) == n
    ensures Grouped(a)
  {
    forall i, j | 0 <= i < j < |a|
      ensures Rank(a[i]) <= Rank(a[j])
    {
      assert a[i] in a && a[j] in a;
    }
  }

  lemma EcmpSectionGrouped(config: ConfigTables, valid4: string -> bool, valid6: string -> bool)
    ensures Grouped(EcmpSection(config, valid4, valid6))
    ensures forall e :: e in EcmpSection(config, valid4, valid6) ==> Rank(e) >= 2
  {
    if config.ueEcmp.Some? {
      var e := config.ueEcmp.value;
      var e4 := OptGroupErrors(Ipv4, e.ipv4Groups, valid4);
      var e6 := OptGroupErrors(Ipv6, e.ipv6Groups, valid6);
      assert forall x :: x in e4 ==> Rank(x) == 2;
      assert forall x :: x in e6 ==> Rank(x) == 3;
      SameRankGrouped(e4, 2);
      SameRankGrouped(e6, 3);
      GroupedAppend(e4, e6, 2);
    }
  }

  /** Errors come out grouped: global ones first, then interface ones, then
      IPv4 prefixes, then IPv6 prefixes. */
  lemma ValidationErrorsOrdered(config: ConfigTables, valid4: string -> bool, valid6: string -> bool)
    ensures Grouped(ValidationErrors(config, valid4, valid6))
  {
    var g := GlobalSection(config);
    var f := InterfaceSection(config);
    var ecmp := EcmpSection(config, valid4, valid6);
    assert forall x :: x in g ==> Rank(x) == 0;
    assert forall x :: x in f ==> Rank(x) == 1;
    SameRankGrouped(g, 0);
    SameRankGrouped(f, 1);
    GroupedAppend(g, f, 0);
    EcmpSectionGrouped(config, valid4, valid6);
    assert forall x :: x in g + f ==> Rank(x) <= 1;
    GroupedAppend(g + f, ecmp, 2);
  }

  /** validate_dual_stack_config: the three checks in turn. */
  method ValidateDualStackConfig(config: ConfigTables, valid4: string -> bool, valid6: string -> bool)
    returns (errors: seq<ValidationError>)
    ensures errors == ValidationErrors(config, valid4, valid6)
    ensures errors == [] <==> ConfigValid(config, valid4, valid6)
  {
    errors := [];
    if config.ueGlobal.Some? {
      errors := CheckGlobalVersions(config.ueGlobal.value);
    }
    if config.ueInterface.Some? {
      var found := CheckInterfaces(config.ueInterface.value);
      errors := errors + found;
    }
    assert errors == GlobalSection(config) + InterfaceSection(config);
    if config.ueEcmp.Some? {
      var ecmp := config.ueEcmp.value;
      var e4: seq<ValidationError> := [];
      if ecmp.ipv4Groups.Some? {
        e4 := CheckGroups(Ipv4, ecmp.ipv4Groups.value, valid4);
      }
      assert e4 == OptGroupErrors(Ipv4, ecmp.ipv4Groups, valid4);
      var e6: seq<ValidationError> := [];
      if ecmp.ipv6Groups.Some? {
        e6 := CheckGroups(Ipv6, ecmp.ipv6Groups.value, valid6);
      }
      assert e6 == OptGroupErrors(Ipv6, ecmp.ipv6Groups, valid6);
      errors := errors + (e4 + e6);
    }
    ValidationErrorsEmpty(config, valid4, valid6);
  }

  /** The global loop of the validator: an error per token that, stripped, is
      neither "4" nor "6". */
  method CheckGlobalVersions(t: map<string, Dict>) returns (errors: seq<ValidationError>)
    ensures errors == GlobalErrors(GlobalTokens(t))
  {
    errors := [];
    var globalConfig := if "global" in t then t["global"] else map[];
    var ipVersions := Split(Get(globalConfig, "ip_versions", "4,6"), ',');
    var i := 0;
    while i < |ipVersions|
      invariant 0 <= i <= |ipVersions|
      invariant errors == GlobalErrors(ipVersions[..i])
    {
      var version := ipVersions[i];
      var stripped := Strip(version);
      var found: seq<ValidationError> := [];
      if stripped != "4" && stripped != "6" {
        found := [InvalidIpVersion(version)];
      }
      GlobalErrorsStep(ipVersions, i);
      errors := errors + found;
      i := i + 1;
    }
    assert ipVersions[..|ipVersions|] == ipVersions;
  }

  /** The interface loop of the validator. */
  method CheckInterfaces(ifaces: seq<(string, Dict)>) returns (errors: seq<ValidationError>)
    ensures errors == InterfaceErrors(ifaces)
  {
    errors := [];
    var i := 0;
    while i < |ifaces|
      invariant 0 <= i <= |ifaces|
      invariant errors == InterfaceErrors(ifaces[..i])
    {
      var (name, ifaceConfig) := ifaces[i];
      InterfaceErrorsStep(ifaces, i);
      var found := CheckInterface(name, ifaceConfig);
      errors := errors + found;
      i := i + 1;
    }
    assert ifaces[..|ifaces|] == ifaces;
  }

  /** The body of the interface loop: the errors for one entry. */
  method CheckInterface(name: string, ifaceConfig: Dict) returns (found: seq<ValidationError>)
    ensures found == IfaceErrors(name, ifaceConfig)
  {
    var ifaceVersions := Split(Get(ifaceConfig, "ip_versions", "4,6"), ',');
    found := [];
    if "4" in ifaceVersions && "max_paths_v4" !in ifaceConfig {
      found := found + [MissingMaxPaths(name, Ipv4)];
    }
    if "6" in ifaceVersions && "max_paths_v6" !in ifaceConfig {
      found := found + [MissingMaxPaths(name, Ipv6)];
    }
  }

  /** One ECMP loop of the validator: appends an error per group whose prefix
      the family's network parser rejects. */
  method CheckGroups(family: Family, groups: seq<(string, Dict)>, valid: string -> bool)
    returns (errors: seq<ValidationError>)
    ensures errors == GroupErrors(family, groups, valid)
  {
    errors := [];
    var i := 0;
    while i < |groups|
      invariant 0 <= i <= |groups|
      invariant errors == GroupErrors(family, groups[..i], valid)
    {
      var (name, groupConfig) := groups[i];
      assert groups[..i + 1][..i] == groups[..i];
      if !valid(Get(groupConfig, "prefix", "")) {
        errors := errors + [InvalidPrefix(family, name)];
      }
      i := i + 1;
    }
    assert groups[..|groups|] == groups;
  }

  // ---------------------------------------------------------------------------
  // The appliers
  // ---------------------------------------------------------------------------

  datatype Capabilities = Capabilities(ipv4: bool, ipv6: bool)

  const DUAL_STACK_CHANNEL: string := "UE_DUAL_STACK_CONFIG_CHANNEL"
  const SET_DUAL_STACK: string := "SET_DUAL_STACK"

  /** A database write: `hset(key, field, value)`, or the orchagent
      notification published on a channel for an interface, carrying the
      operation, the interface's configuration and its recorded capabilities. */
  datatype Write =
    | HSet(key: string, field: string, value: string)
    | Publish(channel: string, iface: string, operation: string, config: Dict, caps: Capabilities)

  /** apply_global_dual_stack_config. The version tokens are not stripped. */
  function ApplyGlobal(config: Dict): (r: seq<Write>)
    ensures !IsTrue(config, "enable") ==> r == [HSet("UE_GLOBAL_STATE", "enabled", "false")]
    ensures IsTrue(config, "enable") ==>
      && |r| == 6
      && r[0] == HSet("UE_GLOBAL_STATE", "enabled", "true")
      && r[1] == HSet("UE_GLOBAL_STATE", "ipv4_enabled", BoolStr("4" in VersionTokens(config)))
      && r[2] == HSet("UE_GLOBAL_STATE", "ipv6_enabled", BoolStr("6" in VersionTokens(config)))
      && r[3] == HSet("UE_TRANSPORT_MODE", "mode", Get(config, "transport_mode", "uet"))
      && r[4] == HSet("UE_DUAL_STACK", "mode", Get(config, "dual_stack_mode", "concurrent"))
      && r[5] == HSet("UE_CONGESTION_CONTROL", "algorithm", Get(config, "congestion_control", "hybrid"))
  {
    if IsTrue(config, "enable") then
      var ipVersions := VersionTokens(config);
      [HSet("UE_GLOBAL_STATE", "enabled", "true"),
       HSet("UE_GLOBAL_STATE", "ipv4_enabled", BoolStr("4" in ipVersions)),
       HSet("UE_GLOBAL_STATE", "ipv6_enabled", BoolStr("6" in ipVersions)),
       HSet("UE_TRANSPORT_MODE", "mode", Get(config, "transport_mode", "uet")),
       HSet("UE_DUAL_STACK", "mode", Get(config, "dual_stack_mode", "concurrent")),
       HSet("UE_CONGESTION_CONTROL", "algorithm", Get(config, "congestion_control", "hybrid"))]
    else
      [HSet("UE_GLOBAL_STATE", "enabled", "false")]
  }

  /** The validator strips global tokens and the applier does not: "4, 6"
      passes validation, yet IPv6 is then recorded as disabled. */
  lemma SpacedVersionsPassButDisableIpv6()
    ensures GlobalErrors(VersionTokens(map["ip_versions" := "4, 6"])) == []
    ensures HSet("UE_GLOBAL_STATE", "ipv6_enabled", "false") in ApplyGlobal(map["enable" := "true", "ip_versions" := "4, 6"])
  {
    SpacedTokens();
    assert Get(map["ip_versions" := "4, 6"], "ip_versions", DEFAULT_IP_VERSIONS) == "4, 6";
    var config := map["enable" := "true", "ip_versions" := "4, 6"];
    assert IsTrue(config, "enable");
    assert Get(config, "ip_versions", DEFAULT_IP_VERSIONS) == "4, 6";
    assert BoolStr("6" in VersionTokens(config)) == "false";
  }

  /** "4, 6" splits into "4" and " 6", both of which pass the global check
      and the second of which is not "6". */
  lemma SpacedTokens()
    ensures Split("4, 6", ',') == ["4", " 6"]
    ensures GlobalErrors(["4", " 6"]) == []
    ensures "6" !in ["4", " 6"]
  {
    var tokens := ["4", " 6"];
    assert Join(tokens, ',') == "4, 6";
    SplitJoin(tokens, ',');
    StripDigits();
    StripBlankSix();
    assert ValidVersionToken(tokens[0]) && ValidVersionToken(tokens[1]);
    GlobalErrorsEmpty(tokens);
    assert tokens[1] != "6";
  }

  function EcmpGroupKey(ipVersion: string, name: string): string {
    "UE_ECMP_GROUP:" + ipVersion + ":" + name
  }

  /** The parser _configure_ecmp_group tries: IPv4Network for "ipv4", IPv6Network otherwise. */
  predicate PrefixAccepted(ipVersion: string, prefix: string, valid4: string -> bool, valid6: string -> bool) {
    if ipVersion == "ipv4" then valid4(prefix) else valid6(prefix)
  }

  /** _configure_ecmp_group: nothing is written for a prefix the parser
      rejects; otherwise four fields under the group's key. */
  function ConfigureEcmpGroup(ipVersion: string, name: string, cfg: Dict, valid4: string -> bool, valid6: string -> bool)
    : (r: seq<Write>)
    ensures r == [] <==> !PrefixAccepted(ipVersion, Prefix(cfg), valid4, valid6)
    ensures r != [] ==>
      && |r| == 4
      && (forall k :: 0 <= k < |r| ==> r[k].HSet? && r[k].key == EcmpGroupKey(ipVersion, name))
      && r[0].field == "prefix" && r[0].value == Prefix(cfg)
      && r[1].field == "max_paths" && r[1].value == Get(cfg, "max_paths", "4")
      && r[2].field == "hash_algorithm" && r[2].value == Get(cfg, "hash_algorithm", "crc32")
      && r[3].field == "ip_version" && r[3].value == ipVersion
  {
    var key := EcmpGroupKey(ipVersion, name);
    var prefix := Get(cfg, "prefix", "");
    if !PrefixAccepted(ipVersion, prefix, valid4, valid6) then []
    else
      [HSet(key, "prefix", prefix),
       HSet(key, "max_paths", Get(cfg, "max_paths", "4")),
       HSet(key, "hash_algorithm", Get(cfg, "hash_algorithm", "crc32")),
       HSet(key, "ip_version", ipVersion)]
  }

  /** The loop of apply_ecmp_dual_stack_config over one family's groups. */
  function ConfigureEcmpGroups(ipVersion: string, groups: seq<(string, Dict)>, valid4: string -> bool, valid6: string -> bool)
    : seq<Write>
    decreases |groups|
  {
    if groups == [] then []
    else
      var last := groups[|groups| - 1];
      ConfigureEcmpGroups(ipVersion, groups[..|groups| - 1], valid4, valid6)
      + ConfigureEcmpGroup(ipVersion, last.0, last.1, valid4, valid6)
  }

  function FamilyName(f: Family): string {
    match f
    case Ipv4 => "ipv4"
    case Ipv6 => "ipv6"
  }

  /** The prefix parser the validator uses for a family. */
  function FamilyValid(f: Family, valid4: string -> bool, valid6: string -> bool): string -> bool {
    match f
    case Ipv4 => valid4
    case Ipv6 => valid6
  }

  /** Group names are the keys of a dictionary: no two groups share one. */
  predicate DistinctNames(groups: seq<(string, Dict)>) {
    forall i, j :: 0 <= i < j < |groups| ==> groups[i].0 != groups[j].0
  }

  /** The validator reports a group name exactly when some group of that name
      has a prefix the family's parser rejects. */
  lemma {:induction false} GroupErrorsName(family: Family, groups: seq<(string, Dict)>, valid: string -> bool, name: string)
    ensures InvalidPrefix(family, name) in GroupErrors(family, groups, valid)
      <==> exists j :: 0 <= j < |groups| && groups[j].0 == name && !valid(Prefix(groups[j].1))
    decreases |groups|
  {
    if groups != [] {
      var init := groups[..|groups| - 1];
      var last := groups[|groups| - 1];
      GroupErrorsName(family, init, valid, name);
      if exists j :: 0 <= j < |init| && init[j].0 == name && !valid(Prefix(init[j].1)) {
        var j :| 0 <= j < |init| && init[j].0 == name && !valid(Prefix(init[j].1));
        assert groups[j] == init[j];
      }
      if exists j :: 0 <= j < |groups| && groups[j].0 == name && !valid(Prefix(groups[j].1)) {
        var j :| 0 <= j < |groups| && groups[j].0 == name && !valid(Prefix(groups[j].1));
        if j < |init| {
          assert init[j] == groups[j];
        }
      }
    }
  }

  /** A write of the group loop is a write of one of its groups, and back. */
  lemma {:induction false} EcmpWriteOfGroup(ipVersion: string, groups: seq<(string, Dict)>, valid4: string -> bool, valid6: string -> bool, x: Write)
    ensures x in ConfigureEcmpGroups(ipVersion, groups, valid4, valid6)
      <==> exists i :: 0 <= i < |groups| && x in ConfigureEcmpGroup(ipVersion, groups[i].0, groups[i].1, valid4, valid6)
    decreases |groups|
  {
    if groups != [] {
      var init := groups[..|groups| - 1];
      var n := |groups| - 1;
      EcmpWriteOfGroup(ipVersion, init, valid4, valid6, x);
      if x in ConfigureEcmpGroups(ipVersion, groups, valid4, valid6) {
        if x in ConfigureEcmpGroups(ipVersion, init, valid4, valid6) {
          var i :| 0 <= i < |init| && x in ConfigureEcmpGroup(ipVersion, init[i].0, init[i].1, valid4, valid6);
          assert groups[i] == init[i];
        } else {
          assert x in ConfigureEcmpGroup(ipVersion, groups[n].0, groups[n].1, valid4, valid6);
        }
      } else {
        assert x !in ConfigureEcmpGroups(ipVersion, init, valid4, valid6);
        assert x !in ConfigureEcmpGroup(ipVersion, groups[n].0, groups[n].1, valid4, valid6);
        forall i | 0 <= i < n
          ensures x !in ConfigureEcmpGroup(ipVersion, groups[i].0, groups[i].1, valid4, valid6)
        {
          assert groups[i] == init[i];
        }
      }
    }
  }

  /** Four writes per group the validator does not report. */
  lemma {:induction false} EcmpWriteCount(f: Family, groups: seq<(string, Dict)>, valid4: string -> bool, valid6: string -> bool)
    ensures |ConfigureEcmpGroups(FamilyName(f), groups, valid4, valid6)|
         == 4 * (|groups| - |GroupErrors(f, groups, FamilyValid(f, valid4, valid6))|)
    decreases |groups|
  {
    if groups != [] {
      var last := groups[|groups| - 1];
      EcmpWriteCount(f, groups[..|groups| - 1], valid4, valid6);
      assert ConfigureEcmpGroup(FamilyName(f), last.0, last.1, valid4, valid6) == []
        <==> !FamilyValid(f, valid4, valid6)(Prefix(last.1));
    }
  }

  /** The applier and the validator agree on a family's groups: a group gets
      its four writes exactly when the validator does not report its name,
      the loop writes nothing but those, and four writes per such group. */
  lemma EcmpAppliedUnlessReported(f: Family, groups: seq<(string, Dict)>, valid4: string -> bool, valid6: string -> bool)
    requires DistinctNames(groups)
    ensures var errs := GroupErrors(f, groups, FamilyValid(f, valid4, valid6));
      forall i :: 0 <= i < |groups| ==>
        (ConfigureEcmpGroup(FamilyName(f), groups[i].0, groups[i].1, valid4, valid6) != []
         <==> InvalidPrefix(f, groups[i].0) !in errs)
    ensures var errs := GroupErrors(f, groups, FamilyValid(f, valid4, valid6));
      forall x :: x in ConfigureEcmpGroups(FamilyName(f), groups, valid4, valid6)
        <==> exists i :: 0 <= i < |groups| && InvalidPrefix(f, groups[i].0) !in errs
                         && x in ConfigureEcmpGroup(FamilyName(f), groups[i].0, groups[i].1, valid4, valid6)
    ensures |ConfigureEcmpGroups(FamilyName(f), groups, valid4, valid6)|
         == 4 * (|groups| - |GroupErrors(f, groups, FamilyValid(f, valid4, valid6))|)
  {
    var valid := FamilyValid(f, valid4, valid6);
    var errs := GroupErrors(f, groups, valid);
    forall i | 0 <= i < |groups|
      ensures ConfigureEcmpGroup(FamilyName(f), groups[i].0, groups[i].1, valid4, valid6) != []
              <==> InvalidPrefix(f, groups[i].0) !in errs
    {
      GroupErrorsName(f, groups, valid, groups[i].0);
    }
    forall x
      ensures x in ConfigureEcmpGroups(FamilyName(f), groups, valid4, valid6)
        <==> exists i :: 0 <= i < |groups| && InvalidPrefix(f, groups[i].0) !in errs
                         && x in ConfigureEcmpGroup(FamilyName(f), groups[i].0, groups[i].1, valid4, valid6)
    {
      EcmpWriteOfGroup(FamilyName(f), groups, valid4, valid6, x);
    }
    EcmpWriteCount(f, groups, valid4, valid6);
  }

  /** One family's loop of apply_ecmp_dual_stack_config, skipped when the
      table is absent. */
  function OptConfigureEcmpGroups(f: Family, groups: Option<seq<(string, Dict)>>, valid4: string -> bool, valid6: string -> bool)
    : seq<Write>
  {
    match groups
    case None => []
    case Some(g) => ConfigureEcmpGroups(FamilyName(f), g, valid4, valid6)
  }

  /** apply_ecmp_dual_stack_config: IPv4 groups first, then IPv6 groups. */
  function ApplyEcmp(tables: EcmpTables, valid4: string -> bool, valid6: string -> bool): (r: seq<Write>)
    ensures tables.ipv4Groups.None? && tables.ipv6Groups.None? ==> r == []
    ensures r == ConfigureEcmpGroups("ipv4", OptGroups(tables.ipv4Groups), valid4, valid6)
                 + ConfigureEcmpGroups("ipv6", OptGroups(tables.ipv6Groups), valid4, valid6)
  {
    OptConfigureEcmpGroups(Ipv4, tables.ipv4Groups, valid4, valid6)
    + OptConfigureEcmpGroups(Ipv6, tables.ipv6Groups, valid4, valid6)
  }

  function OptGroups(groups: Option<seq<(string, Dict)>>): seq<(string, Dict)> {
    match groups
    case None => []
    case Some(g) => g
  }

  function FamilyGroups(e: EcmpTables, f: Family): seq<(string, Dict)> {
    match f
    case Ipv4 => OptGroups(e.ipv4Groups)
    case Ipv6 => OptGroups(e.ipv6Groups)
  }

  /** The validator reports a prefix of a family only from that family's
      groups: global and interface errors are of other kinds, and the other
      family's errors carry the other family. */
  lemma ReportedPrefix(config: ConfigTables, f: Family, valid4: string -> bool, valid6: string -> bool, name: string)
    requires config.ueEcmp.Some?
    ensures InvalidPrefix(f, name) in ValidationErrors(config, valid4, valid6)
      <==> InvalidPrefix(f, name) in GroupErrors(f, FamilyGroups(config.ueEcmp.value, f), FamilyValid(f, valid4, valid6))
  {
    var e := config.ueEcmp.value;
    var g := GlobalSection(config);
    var i := InterfaceSection(config);
    var e4 := OptGroupErrors(Ipv4, e.ipv4Groups, valid4);
    var e6 := OptGroupErrors(Ipv6, e.ipv6Groups, valid6);
    assert ValidationErrors(config, valid4, valid6) == g + i + (e4 + e6);
    assert forall x :: x in g ==> Rank(x) == 0;
    assert forall x :: x in i ==> Rank(x) == 1;
    assert forall x :: x in e4 ==> x.family == Ipv4;
    assert forall x :: x in e6 ==> x.family == Ipv6;
    assert Rank(InvalidPrefix(f, name)) >= 2;
  }

  /** apply_ecmp_dual_stack_config and validate_dual_stack_config agree on
      the ECMP table: the IPv4 groups' writes come first, then the IPv6
      groups'; and a write of either part belongs to a group of that family
      whose name the full validator does not report. */
  lemma ApplyEcmpUnlessReported(config: ConfigTables, valid4: string -> bool, valid6: string -> bool)
    requires config.ueEcmp.Some?
    requires DistinctNames(FamilyGroups(config.ueEcmp.value, Ipv4))
    requires DistinctNames(FamilyGroups(config.ueEcmp.value, Ipv6))
    ensures var e := config.ueEcmp.value;
      ApplyEcmp(e, valid4, valid6)
        == ConfigureEcmpGroups("ipv4", FamilyGroups(e, Ipv4), valid4, valid6)
           + ConfigureEcmpGroups("ipv6", FamilyGroups(e, Ipv6), valid4, valid6)
    ensures var e := config.ueEcmp.value;
      forall f: Family, x :: x in ConfigureEcmpGroups(FamilyName(f), FamilyGroups(e, f), valid4, valid6)
        <==> exists i :: 0 <= i < |FamilyGroups(e, f)|
               && InvalidPrefix(f, FamilyGroups(e, f)[i].0) !in ValidationErrors(config, valid4, valid6)
               && x in ConfigureEcmpGroup(FamilyName(f), FamilyGroups(e, f)[i].0, FamilyGroups(e, f)[i].1, valid4, valid6)
  {
    var e := config.ueEcmp.value;
    forall f: Family, x
      ensures x in ConfigureEcmpGroups(FamilyName(f), FamilyGroups(e, f), valid4, valid6)
        <==> exists i :: 0 <= i < |FamilyGroups(e, f)|
               && InvalidPrefix(f, FamilyGroups(e, f)[i].0) !in ValidationErrors(config, valid4, valid6)
               && x in ConfigureEcmpGroup(FamilyName(f), FamilyGroups(e, f)[i].0, FamilyGroups(e, f)[i].1, valid4, valid6)
    {
      var gs := FamilyGroups(e, f);
      EcmpAppliedUnlessReported(f, gs, valid4, valid6);
      forall i | 0 <= i < |gs| {
        ReportedPrefix(config, f, valid4, valid6, gs[i].0);
      }
    }
  }

  /** The interface key's IPv6 test in auto_detect_ip_capabilities. */
  predicate IsIpv6KeyOf(iface: string, key: string) {
    StartsWith(key, iface + "|") && ':' in key
  }

  lemma Ipv6KeyExamples()
    ensures IsIpv6KeyOf("Ethernet0", "Ethernet0|fe80::1/64")
    ensures !IsIpv6KeyOf("Ethernet0", "Ethernet0|10.0.0.1/24")
    ensures !IsIpv6KeyOf("Ethernet0", "Ethernet01|fe80::1/64")
  {
    assert ("Ethernet0|fe80::1/64")[..10] == "Ethernet0|";
    assert ("Ethernet0|fe80::1/64")[14] == ':';
    assert ("Ethernet01|fe80::1/64")[9] == '1';
    assert ("Ethernet0|10.0.0.1/24")[..10] == "Ethernet0|";
    assert forall k :: 0 <= k < |"Ethernet0|10.0.0.1/24"| ==> ("Ethernet0|10.0.0.1/24")[k] != ':';
  }

  /** The capabilities apply_interface_dual_stack_config records: the
      unstripped tokens "4" and "6". */
  function InterfaceCaps(config: Dict): Capabilities {
    Capabilities("4" in VersionTokens(config), "6" in VersionTokens(config))
  }

  /** The writes apply_interface_dual_stack_config makes for an enabled
      interface, in order, ending with the orchagent notification. */
  function InterfaceWrites(iface: string, config: Dict): seq<Write> {
    var caps := InterfaceCaps(config);
    var key := "UE_INTERFACE_CONFIG:" + iface;
    FlagWrites(key, caps) + MaxPathWrites(key, caps, config) + TailWrites(key, iface, caps, config)
  }

  function FlagWrites(key: string, caps: Capabilities): seq<Write> {
    [HSet(key, "enabled", "true"),
     HSet(key, "ipv4_enabled", BoolStr(caps.ipv4)),
     HSet(key, "ipv6_enabled", BoolStr(caps.ipv6))]
  }

  function MaxPathWrites(key: string, caps: Capabilities, config: Dict): seq<Write> {
    (if caps.ipv4 then [HSet(key, "max_paths_v4", Get(config, "max_paths_v4", "4"))] else [])
    + (if caps.ipv6 then [HSet(key, "max_paths_v6", Get(config, "max_paths_v6", "4"))] else [])
  }

  function TailWrites(key: string, iface: string, caps: Capabilities, config: Dict): seq<Write> {
    [HSet(key, "load_balance_mode", Get(config, "load_balance_mode", "ecmp")),
     HSet(key, "prefer_version", Get(config, "prefer_version", "4")),
     Publish(DUAL_STACK_CHANNEL, iface, SET_DUAL_STACK, config, caps)]
  }

  /** Every write goes to the interface's key, and the notification carries
      the recorded capabilities and comes last. */
  lemma InterfaceWritesShape(iface: string, config: Dict)
    ensures var writes := InterfaceWrites(iface, config);
      && 6 <= |writes| <= 8
      && writes[|writes| - 1] == Publish(DUAL_STACK_CHANNEL, iface, SET_DUAL_STACK, config, InterfaceCaps(config))
      && forall w :: w in writes && w.HSet? ==> w.key == "UE_INTERFACE_CONFIG:" + iface
  {
  }

  /** The values that writes set for a field, in write order. */
  function FieldValues(writes: seq<Write>, field: string): seq<string> {
    if writes == [] then []
    else (if writes[0].HSet? && writes[0].field == field then [writes[0].value] else []) + FieldValues(writes[1..], field)
  }

  lemma {:induction false} FieldValuesAppend(a: seq<Write>, b: seq<Write>, field: string)
    ensures FieldValues(a + b, field) == FieldValues(a, field) + FieldValues(b, field)
  {
    if a == [] {
      assert a + b == b;
    } else {
      assert (a + b)[0] == a[0] && (a + b)[1..] == a[1..] + b;
      FieldValuesAppend(a[1..], b, field);
    }
  }

  /** Writes none of which sets the field give it no value. */
  lemma {:induction false} FieldValuesNone(writes: seq<Write>, field: string)
    requires forall i :: 0 <= i < |writes| ==> !writes[i].HSet? || writes[i].field != field
    ensures FieldValues(writes, field) == []
  {
    if writes != [] {
      FieldValuesNone(writes[1..], field);
    }
  }

  lemma FieldValuesSingle(w: Write, field: string)
    ensures FieldValues([w], field) == if w.HSet? && w.field == field then [w.value] else []
  {
    assert [w][1..] == [];
  }

  lemma FlagsAndTailSetNoMaxPaths(key: string, iface: string, caps: Capabilities, config: Dict)
    ensures FieldValues(FlagWrites(key, caps), "max_paths_v4") == []
    ensures FieldValues(FlagWrites(key, caps), "max_paths_v6") == []
    ensures FieldValues(TailWrites(key, iface, caps, config), "max_paths_v4") == []
    ensures FieldValues(TailWrites(key, iface, caps, config), "max_paths_v6") == []
  {
    FieldNamesDistinct();
    FieldValuesNone(FlagWrites(key, caps), "max_paths_v4");
    FieldValuesNone(FlagWrites(key, caps), "max_paths_v6");
    FieldValuesNone(TailWrites(key, iface, caps, config), "max_paths_v4");
    FieldValuesNone(TailWrites(key, iface, caps, config), "max_paths_v6");
  }

  lemma MaxPathWritesValues(key: string, caps: Capabilities, config: Dict)
    ensures FieldValues(MaxPathWrites(key, caps, config), "max_paths_v4")
      == (if caps.ipv4 then [Get(config, "max_paths_v4", "4")] else [])
    ensures FieldValues(MaxPathWrites(key, caps, config), "max_paths_v6")
      == (if caps.ipv6 then [Get(config, "max_paths_v6", "4")] else [])
  {
    var w4 := HSet(key, "max_paths_v4", Get(config, "max_paths_v4", "4"));
    var w6 := HSet(key, "max_paths_v6", Get(config, "max_paths_v6", "4"));
    var m4 := if caps.ipv4 then [w4] else [];
    var m6 := if caps.ipv6 then [w6] else [];
    assert "max_paths_v4" != "max_paths_v6" by {
      FieldNamesDistinct();
    }
    FieldValuesSingle(w4, "max_paths_v4");
    FieldValuesSingle(w4, "max_paths_v6");
    FieldValuesSingle(w6, "max_paths_v4");
    FieldValuesSingle(w6, "max_paths_v6");
    FieldValuesAppend(m4, m6, "max_paths_v4");
    FieldValuesAppend(m4, m6, "max_paths_v6");
  }

  /** The max_paths fields of the writes for given capabilities. */
  lemma MaxPathsWritten(key: string, iface: string, caps: Capabilities, config: Dict)
    ensures var writes := FlagWrites(key, caps) + MaxPathWrites(key, caps, config) + TailWrites(key, iface, caps, config);
      && FieldValues(writes, "max_paths_v4") == (if caps.ipv4 then [Get(config, "max_paths_v4", "4")] else [])
      && FieldValues(writes, "max_paths_v6") == (if caps.ipv6 then [Get(config, "max_paths_v6", "4")] else [])
  {
    var f := FlagWrites(key, caps);
    var m := MaxPathWrites(key, caps, config);
    var t := TailWrites(key, iface, caps, config);
    FlagsAndTailSetNoMaxPaths(key, iface, caps, config);
    MaxPathWritesValues(key, caps, config);
    FieldValuesAppend(f, m, "max_paths_v4");
    FieldValuesAppend(f, m, "max_paths_v6");
    FieldValuesAppend(f + m, t, "max_paths_v4");
    FieldValuesAppend(f + m, t, "max_paths_v6");
  }

  /** An enabled interface gets one max_paths write per enabled version, with
      the configured value or "4", and none for a disabled version. */
  lemma InterfaceWritesMaxPaths(iface: string, config: Dict)
    ensures FieldValues(InterfaceWrites(iface, config), "max_paths_v4")
      == if InterfaceCaps(config).ipv4 then [Get(config, "max_paths_v4", "4")] else []
    ensures FieldValues(InterfaceWrites(iface, config), "max_paths_v6")
      == if InterfaceCaps(config).ipv6 then [Get(config, "max_paths_v6", "4")] else []
  {
    MaxPathsWritten("UE_INTERFACE_CONFIG:" + iface, iface, InterfaceCaps(config), config);
  }

  /** The field names of one entry that share a length differ. */
  lemma FieldNamesDistinct()
    ensures "packet_spraying" != "dual_stack_mode"
    ensures "max_paths_v4" != "max_paths_v6"
    ensures "max_paths_v4" != "ipv4_enabled" && "max_paths_v4" != "ipv6_enabled"
    ensures "max_paths_v6" != "ipv4_enabled" && "max_paths_v6" != "ipv6_enabled"
  {
    assert "packet_spraying"[0] != "dual_stack_mode"[0];
    assert "max_paths_v4"[11] != "max_paths_v6"[11];
    assert "max_paths_v4"[0] != "ipv4_enabled"[0];
    assert "max_paths_v4"[0] != "ipv6_enabled"[0];
    assert "max_paths_v6"[0] != "ipv4_enabled"[0];
    assert "max_paths_v6"[0] != "ipv6_enabled"[0];
  }

  class DualStackConfigManager {
    /** interface_capabilities: the IP versions each enabled interface supports. */
    var interfaceCapabilities: map<string, Capabilities>

    constructor ()
      ensures interfaceCapabilities == map[]
    {
      interfaceCapabilities := map[];
    }

    /** apply_interface_dual_stack_config: nothing unless ue_enable is
        "true"; otherwise the capabilities parsed from the tokens are recorded
        and the interface's writes are made. */
    method ApplyInterfaceDualStackConfig(iface: string, config: Dict) returns (writes: seq<Write>)
      modifies this`interfaceCapabilities
      ensures !IsTrue(config, "ue_enable") ==> writes == [] && interfaceCapabilities == old(interfaceCapabilities)
      ensures IsTrue(config, "ue_enable") ==>
        && interfaceCapabilities == old(interfaceCapabilities)[iface := InterfaceCaps(config)]
        && writes == InterfaceWrites(iface, config)
    {
      writes := [];
      if !IsTrue(config, "ue_enable") {
        return;
      }
      var caps := InterfaceCaps(config);
      interfaceCapabilities := interfaceCapabilities[iface := caps];
      var key := "UE_INTERFACE_CONFIG:" + iface;
      writes := writes + [HSet(key, "enabled", "true")];
      writes := writes + [HSet(key, "ipv4_enabled", BoolStr(caps.ipv4))];
      writes := writes + [HSet(key, "ipv6_enabled", BoolStr(caps.ipv6))];
      assert writes == FlagWrites(key, caps);
      ghost var flags := writes;
      if caps.ipv4 {
        writes := writes + [HSet(key, "max_paths_v4", Get(config, "max_paths_v4", "4"))];
      }
      if caps.ipv6 {
        writes := writes + [HSet(key, "max_paths_v6", Get(config, "max_paths_v6", "4"))];
      }
      assert writes == flags + MaxPathWrites(key, caps, config);
      ghost var upToTail := writes;
      writes := writes + [HSet(key, "load_balance_mode", Get(config, "load_balance_mode", "ecmp"))];
      writes := writes + [HSet(key, "prefer_version", Get(config, "prefer_version", "4"))];
      writes := writes + [Publish(DUAL_STACK_CHANNEL, iface, SET_DUAL_STACK, config, interfaceCapabilities[iface])];
      assert writes == upToTail + TailWrites(key, iface, caps, config);
    }

    /** auto_detect_ip_capabilities. `entry` is what get_entry returns for the
        interface and `keys` what get_keys returns for the INTERFACE table. */
    method AutoDetectIpCapabilities(iface: string, entry: Dict, keys: seq<string>) returns (caps: Capabilities)
      ensures caps.ipv4 <==> entry != map[]
      ensures caps.ipv6 <==> exists i :: 0 <= i < |keys| && IsIpv6KeyOf(iface, keys[i])
    {
      caps := Capabilities(false, false);
      if entry != map[] {
        caps := caps.(ipv4 := true);
      }
      var i := 0;
      while i < |keys|
        invariant 0 <= i <= |keys|
        invariant caps.ipv4 <==> entry != map[]
        invariant !caps.ipv6 && forall j :: 0 <= j < i ==> !IsIpv6KeyOf(iface, keys[j])
      {
        var key := keys[i];
        if StartsWith(key, iface + "|") && ':' in key {
          caps := caps.(ipv6 := true);
          break;
        }
        i := i + 1;
      }
    }
  }

  // ---------------------------------------------------------------------------
  // The CLI builders
  // ---------------------------------------------------------------------------

  /** The version list both builders produce, before joining. */
  function CliVersions(ipv4: bool, ipv6: bool): (r: seq<string>)
    ensures r != [] && forall k :: 0 <= k < |r| ==> r[k] == "4" || r[k] == "6"
    ensures "4" in r <==> ipv4 || !ipv6
    ensures "6" in r <==> ipv6 || !ipv4
  {
    if ipv4 || ipv6 then (if ipv4 then ["4"] else []) + (if ipv6 then ["6"] else [])
    else ["4", "6"]
  }

  /** Joined with ",", the list splits back into itself and every token passes
      the global check. */
  lemma CliVersionsRoundTrip(ipv4: bool, ipv6: bool)
    ensures Split(Join(CliVersions(ipv4, ipv6), ','), ',') == CliVersions(ipv4, ipv6)
    ensures GlobalErrors(CliVersions(ipv4, ipv6)) == []
  {
    var vs := CliVersions(ipv4, ipv6);
    SplitJoin(vs, ',');
    ValidLiterals();
    forall k | 0 <= k < |vs|
      ensures ValidVersionToken(vs[k])
    {
      assert vs[k] == "4" || vs[k] == "6";
    }
    GlobalErrorsEmpty(vs);
  }

  /** cli_ue_dual_stack_global: the UE_GLOBAL entry it sets. */
  function CliGlobalEntry(enable: bool, ipv4: bool, ipv6: bool, mode: string, congestionControl: string): Dict {
    map[
      "enable" := BoolStr(enable),
      "transport_mode" := mode,
      "congestion_control" := congestionControl,
      "packet_spraying" := BoolStr(enable),
      "ip_versions" := Join(CliVersions(ipv4, ipv6), ','),
      "dual_stack_mode" := "concurrent"]
  }

  /** The global entry has the six fields, with the arguments' values. */
  lemma CliGlobalEntryFields(enable: bool, ipv4: bool, ipv6: bool, mode: string, congestionControl: string)
    ensures var entry := CliGlobalEntry(enable, ipv4, ipv6, mode, congestionControl);
      && entry.Keys == {"enable", "transport_mode", "congestion_control", "packet_spraying", "ip_versions", "dual_stack_mode"}
      && entry["enable"] == BoolStr(enable) && entry["packet_spraying"] == BoolStr(enable)
      && entry["transport_mode"] == mode && entry["congestion_control"] == congestionControl
      && entry["dual_stack_mode"] == "concurrent"
  {
    FieldNamesDistinct();
  }

  /** The global entry's versions are the CLI's list, and pass validation. */
  lemma CliGlobalEntryVersions(enable: bool, ipv4: bool, ipv6: bool, mode: string, congestionControl: string)
    ensures VersionTokens(CliGlobalEntry(enable, ipv4, ipv6, mode, congestionControl)) == CliVersions(ipv4, ipv6)
    ensures GlobalErrors(VersionTokens(CliGlobalEntry(enable, ipv4, ipv6, mode, congestionControl))) == []
  {
    var entry := CliGlobalEntry(enable, ipv4, ipv6, mode, congestionControl);
    assert Get(entry, "ip_versions", DEFAULT_IP_VERSIONS) == Join(CliVersions(ipv4, ipv6), ',');
    CliVersionsRoundTrip(ipv4, ipv6);
  }

  /** Applied, an enabling global entry records IPv4 unless only IPv6 was
      asked for, and IPv6 unless only IPv4 was. */
  lemma CliGlobalEntryApplied(ipv4: bool, ipv6: bool, mode: string, congestionControl: string)
    ensures var writes := ApplyGlobal(CliGlobalEntry(true, ipv4, ipv6, mode, congestionControl));
      && HSet("UE_GLOBAL_STATE", "ipv4_enabled", BoolStr(ipv4 || !ipv6)) in writes
      && HSet("UE_GLOBAL_STATE", "ipv6_enabled", BoolStr(ipv6 || !ipv4)) in writes
  {
    var entry := CliGlobalEntry(true, ipv4, ipv6, mode, congestionControl);
    assert IsTrue(entry, "enable");
    CliGlobalEntryVersions(true, ipv4, ipv6, mode, congestionControl);
  }

  /** cli_ue_dual_stack_interface: the UE_INTERFACE entry it sets. A max_paths
      field is added only for a version asked for explicitly. */
  function CliInterfaceEntry(enable: bool, ipv4: bool, ipv6: bool,
                             maxPathsV4: string, maxPathsV6: string, preferVersion: string): Dict {
    var entry := map[
      "ue_enable" := BoolStr(enable),
      "ip_versions" := Join(CliVersions(ipv4, ipv6), ','),
      "load_balance_mode" := "entropy_spray",
      "prefer_version" := preferVersion];
    var withV4 := if ipv4 then entry["max_paths_v4" := maxPathsV4] else entry;
    if ipv6 then withV4["max_paths_v6" := maxPathsV6] else withV4
  }

  /** The interface entry's fields, including a max_paths field exactly for
      each version asked for. */
  lemma CliInterfaceEntryFields(enable: bool, ipv4: bool, ipv6: bool,
                                maxPathsV4: string, maxPathsV6: string, preferVersion: string)
    ensures var entry := CliInterfaceEntry(enable, ipv4, ipv6, maxPathsV4, maxPathsV6, preferVersion);
      && entry.Keys == {"ue_enable", "ip_versions", "load_balance_mode", "prefer_version"}
                       + (if ipv4 then {"max_paths_v4"} else {}) + (if ipv6 then {"max_paths_v6"} else {})
      && entry["ue_enable"] == BoolStr(enable) && entry["load_balance_mode"] == "entropy_spray"
      && entry["prefer_version"] == preferVersion
      && (ipv4 ==> entry["max_paths_v4"] == maxPathsV4)
      && (ipv6 ==> entry["max_paths_v6"] == maxPathsV6)
  {
    FieldNamesDistinct();
  }

  /** The interface entry's versions are the CLI's list. */
  lemma CliInterfaceEntryVersions(enable: bool, ipv4: bool, ipv6: bool,
                                  maxPathsV4: string, maxPathsV6: string, preferVersion: string)
    ensures VersionTokens(CliInterfaceEntry(enable, ipv4, ipv6, maxPathsV4, maxPathsV6, preferVersion)) == CliVersions(ipv4, ipv6)
  {
    var entry := CliInterfaceEntry(enable, ipv4, ipv6, maxPathsV4, maxPathsV6, preferVersion);
    assert Get(entry, "ip_versions", DEFAULT_IP_VERSIONS) == Join(CliVersions(ipv4, ipv6), ',') by {
      FieldNamesDistinct();
    }
    CliVersionsRoundTrip(ipv4, ipv6);
  }

  /** With a version asked for, the interface entry passes validation; with
      neither, both versions are listed without max_paths fields, so it fails
      twice. */
  lemma CliInterfaceEntryChecked(iface: string, enable: bool, ipv4: bool, ipv6: bool,
                                 maxPathsV4: string, maxPathsV6: string, preferVersion: string)
    ensures IfaceErrors(iface, CliInterfaceEntry(enable, ipv4, ipv6, maxPathsV4, maxPathsV6, preferVersion))
      == if ipv4 || ipv6 then [] else [MissingMaxPaths(iface, Ipv4), MissingMaxPaths(iface, Ipv6)]
  {
    var entry := CliInterfaceEntry(enable, ipv4, ipv6, maxPathsV4, maxPathsV6, preferVersion);
    assert ("max_paths_v4" in entry <==> ipv4) && ("max_paths_v6" in entry <==> ipv6) by {
      CliInterfaceEntryFields(enable, ipv4, ipv6, maxPathsV4, maxPathsV6, preferVersion);
    }
    CliInterfaceEntryVersions(enable, ipv4, ipv6, maxPathsV4, maxPathsV6, preferVersion);
  }
}
