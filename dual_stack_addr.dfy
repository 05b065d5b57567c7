/** The IP-version-agnostic address helpers, the dual-stack connection pool,
    the write path's get-or-create fallback, the multipath initialisation and
    the endpoint's address-format dispatch of the dual-stack RDMA provider
    (ue_transport_v4v6.h). An address is the 16-byte union ue_ip_addr_t; for
    IPv4 its first four bytes are the address and the other twelve padding. */
module DualStackAddr {
  import opened Common
  import WireHeaders

  const ADDR_SIZE: nat := 16

  /** Linux address families. */
  const AF_UNSPEC: int := 0
  const AF_INET: int := 2
  const AF_INET6: int := 10

  /** sizeof(struct sockaddr_in) and sizeof(struct sockaddr_in6). */
  const SOCKADDR_IN_SIZE: int := 16
  const SOCKADDR_IN6_SIZE: int := 28

  const ENOMEM: int := 12
  const FI_ENOMEM: int := 12
  const FI_EINVAL: int := 22

  /** libfabric address formats. */
  const FI_SOCKADDR: int := 1
  const FI_SOCKADDR_IN: int := 2
  const FI_SOCKADDR_IN6: int := 3

  predicate IsAddr(a: seq<byte>) {
    |a| == ADDR_SIZE
  }

  function Zeros(n: nat): (z: seq<byte>)
    ensures |z| == n && forall i :: 0 <= i < n ==> z[i] == 0
  {
    if n == 0 then [] else Zeros(n - 1) + [0]
  }

  // ---------------------------------------------------------------------------
  // ue_addr_family, ue_addr_len, ue_addr_copy, ue_addr_compare
  // ---------------------------------------------------------------------------

  /** ue_addr_family: version 4 is AF_INET, every other value AF_INET6. */
  function AddrFamily(ipVersion: byte): (f: int)
    ensures f == AF_INET <==> ipVersion == 4
    ensures f == AF_INET || f == AF_INET6
  {
    if ipVersion == 4 then AF_INET else AF_INET6
  }

  /** ue_addr_len: 4 bytes for version 4, 16 for every other value. */
  function AddrLen(ipVersion: byte): (n: nat)
    ensures n == 4 <==> ipVersion == 4
    ensures n == 4 || n == ADDR_SIZE
  {
    if ipVersion == 4 then 4 else 16
  }

  /** The bytes ue_addr_copy leaves in the destination. */
  function CopiedAddr(src: seq<byte>, ipVersion: byte): (r: seq<byte>)
    requires IsAddr(src)
    ensures IsAddr(r)
    ensures ipVersion == 4 ==> r[..4] == src[..4] && forall i :: 4 <= i < ADDR_SIZE ==> r[i] == 0
    ensures ipVersion != 4 ==> r == src
  {
    if ipVersion == 4 then src[..4] + Zeros(12) else src
  }

  /** memcmp over equal-length byte strings: the difference of the first
      differing bytes, taken as unsigned char, or 0. */
  function MemCmp(a: seq<byte>, b: seq<byte>): (r: int)
    requires |a| == |b|
    ensures r == 0 <==> a == b
    ensures -255 <= r <= 255
  {
    if a == [] then 0
    else if a[0] != b[0] then a[0] - b[0]
    else
      assert a[1..] != b[1..] ==> a != b;
      assert a[1..] == b[1..] ==> a == [a[0]] + a[1..] == [b[0]] + b[1..] == b;
      MemCmp(a[1..], b[1..])
  }

  /** memcmp's order is antisymmetric. */
  lemma {:induction false} MemCmpAntisymmetric(a: seq<byte>, b: seq<byte>)
    requires |a| == |b|
    ensures MemCmp(b, a) == -MemCmp(a, b)
  {
    if a != [] && a[0] == b[0] {
      MemCmpAntisymmetric(a[1..], b[1..]);
    }
  }

  /** ue_addr_compare: for IPv4 0 when the four address bytes agree and 1
      otherwise, the padding ignored; for every other version memcmp. */
  function AddrCompare(a: seq<byte>, b: seq<byte>, ipVersion: byte): (r: int)
    requires IsAddr(a) && IsAddr(b)
    ensures ipVersion == 4 ==> (r == 0 <==> a[..4] == b[..4]) && (r == 0 || r == 1)
    ensures ipVersion != 4 ==> (r == 0 <==> a == b)
  {
    if ipVersion == 4 then (if a[..4] == b[..4] then 0 else 1) else MemCmp(a, b)
  }

  /** A copied address compares equal to its source, under the same version. */
  lemma CopyComparesEqual(src: seq<byte>, ipVersion: byte)
    requires IsAddr(src)
    ensures AddrCompare(CopiedAddr(src, ipVersion), src, ipVersion) == 0
  {
  }

  /** Copying twice is copying once. */
  lemma CopyIdempotent(src: seq<byte>, ipVersion: byte)
    requires IsAddr(src)
    ensures CopiedAddr(CopiedAddr(src, ipVersion), ipVersion) == CopiedAddr(src, ipVersion)
  {
    if ipVersion == 4 {
      assert CopiedAddr(src, 4)[..4] == src[..4];
    }
  }

  /** ue_addr_copy into a destination union, which may be the source itself. */
  method AddrCopy(dst: array<byte>, src: array<byte>, ipVersion: byte)
    requires dst.Length == ADDR_SIZE && src.Length == ADDR_SIZE
    modifies dst
    ensures dst[..] == CopiedAddr(old(src[..]), ipVersion)
  {
    ghost var s0 := src[..];
    if ipVersion == 4 {
      var address := src[..4];
      var i := 0;
      while i < 4
        invariant 0 <= i <= 4
        invariant forall j :: 0 <= j < i ==> dst[j] == s0[j]
        invariant forall j :: 4 <= j < ADDR_SIZE ==> dst[j] == old(dst[j])
      {
        dst[i] := address[i];
        i := i + 1;
      }
      while i < ADDR_SIZE
        invariant 4 <= i <= ADDR_SIZE
        invariant forall j :: 0 <= j < 4 ==> dst[j] == s0[j]
        invariant forall j :: 4 <= j < i ==> dst[j] == 0
      {
        dst[i] := 0;
        i := i + 1;
      }
      assert dst[..] == s0[..4] + Zeros(12);
    } else {
      var bytes := src[..];
      var i := 0;
      while i < ADDR_SIZE
        invariant 0 <= i <= ADDR_SIZE
        invariant forall j :: 0 <= j < i ==> dst[j] == s0[j]
      {
        dst[i] := bytes[i];
        i := i + 1;
      }
      assert dst[..] == s0;
    }
  }

  // ---------------------------------------------------------------------------
  // ue_sockaddr_to_addr and ue_addr_to_sockaddr
  // ---------------------------------------------------------------------------

  /** The part of a socket address the conversions read and write: the family,
      the port as stored (network byte order) and the address bytes (4 for
      AF_INET, 16 for AF_INET6). The zeroed storage is family AF_UNSPEC. */
  datatype SockAddr = SockAddr(family: int, portBytes: seq<byte>, addr: seq<byte>)

  const ZEROED_STORAGE: SockAddr := SockAddr(AF_UNSPEC, [0, 0], [])

  /** The port a socket address carries, read back with ntohs. */
  function SockPort(sa: SockAddr): Option<u16> {
    if |sa.portBytes| == 2 then Some(WireHeaders.FromBE16(sa.portBytes)) else None
  }

  /** What ue_sockaddr_to_addr leaves behind: the return code, the address
      union and the version written through the out-pointers. */
  datatype ToAddrResult = ToAddrResult(rc: int, addr: seq<byte>, ipVersion: byte)

  /** ue_sockaddr_to_addr: AF_INET and AF_INET6 are read, every other family
      returns -1 and leaves the address and the version as they were. */
  function SockaddrToAddr(sa: SockAddr, addr: seq<byte>, ipVersion: byte): (r: ToAddrResult)
    requires IsAddr(addr)
    requires sa.family == AF_INET ==> |sa.addr| == 4
    requires sa.family == AF_INET6 ==> |sa.addr| == ADDR_SIZE
    ensures IsAddr(r.addr)
    ensures r.rc == 0 <==> sa.family == AF_INET || sa.family == AF_INET6
    ensures r.rc != 0 ==> r.rc == -1 && r.addr == addr && r.ipVersion == ipVersion
    ensures sa.family == AF_INET ==> r.ipVersion == 4 && r.addr[..4] == sa.addr
                                     && forall i :: 4 <= i < ADDR_SIZE ==> r.addr[i] == 0
    ensures sa.family == AF_INET6 ==> r.ipVersion == 6 && r.addr == sa.addr
  {
    if sa.family == AF_INET then ToAddrResult(0, sa.addr + Zeros(12), 4)
    else if sa.family == AF_INET6 then ToAddrResult(0, sa.addr, 6)
    else ToAddrResult(-1, addr, ipVersion)
  }

  /** ue_addr_to_sockaddr: the storage is zeroed, then versions 4 and 6 write
      family, address and htons(port) and return the structure's size; every
      other version returns -1 with the storage left zeroed. */
  function AddrToSockaddr(addr: seq<byte>, ipVersion: byte, port: u16): (r: (int, SockAddr))
    requires IsAddr(addr)
    ensures ipVersion == 4 ==> r.0 == SOCKADDR_IN_SIZE && r.1.family == AF_INET && r.1.addr == addr[..4]
    ensures ipVersion == 6 ==> r.0 == SOCKADDR_IN6_SIZE && r.1.family == AF_INET6 && r.1.addr == addr
    ensures ipVersion == 4 || ipVersion == 6 ==> SockPort(r.1) == Some(port)
    ensures ipVersion != 4 && ipVersion != 6 ==> r == (-1, ZEROED_STORAGE)
  {
    WireHeaders.BE16RoundTrip(port);
    if ipVersion == 4 then (SOCKADDR_IN_SIZE, SockAddr(AF_INET, WireHeaders.BE16(port), addr[..4]))
    else if ipVersion == 6 then (SOCKADDR_IN6_SIZE, SockAddr(AF_INET6, WireHeaders.BE16(port), addr))
    else (-1, ZEROED_STORAGE)
  }

  /** Converting to a socket address and back restores the version, the port
      and the address: all 16 bytes for IPv6, the four address bytes (with the
      padding zeroed, as ue_addr_copy leaves it) for IPv4. */
  lemma SockaddrRoundTrip(addr: seq<byte>, ipVersion: byte, port: u16, scratch: seq<byte>, scratchVersion: byte)
    requires IsAddr(addr) && IsAddr(scratch)
    requires ipVersion == 4 || ipVersion == 6
    ensures var (rc, sa) := AddrToSockaddr(addr, ipVersion, port);
      var back := SockaddrToAddr(sa, scratch, scratchVersion);
      && rc > 0 && back.rc == 0
      && back.ipVersion == ipVersion
      && back.addr == CopiedAddr(addr, ipVersion)
      && AddrCompare(back.addr, addr, ipVersion) == 0
      && SockPort(sa) == Some(port)
  {
    var (rc, sa) := AddrToSockaddr(addr, ipVersion, port);
    var back := SockaddrToAddr(sa, scratch, scratchVersion);
    if ipVersion == 4 {
      assert back.addr == addr[..4] + Zeros(12);
    }
  }

  /** And a socket address of either family survives the trip the other way. */
  lemma AddrRoundTrip(sa: SockAddr, scratch: seq<byte>, scratchVersion: byte)
    requires IsAddr(scratch)
    requires (sa.family == AF_INET && |sa.addr| == 4) || (sa.family == AF_INET6 && |sa.addr| == ADDR_SIZE)
    requires SockPort(sa).Some?
    ensures var back := SockaddrToAddr(sa, scratch, scratchVersion);
      var (rc, sa2) := AddrToSockaddr(back.addr, back.ipVersion, SockPort(sa).value);
      rc > 0 && sa2.family == sa.family && sa2.addr == sa.addr && SockPort(sa2) == SockPort(sa)
  {
    var back := SockaddrToAddr(sa, scratch, scratchVersion);
    if sa.family == AF_INET {
      assert back.addr[..4] == sa.addr;
    }
  }

  // ---------------------------------------------------------------------------
  // The dual-stack connection pool (ue_get_ephemeral_conn_v2)
  // ---------------------------------------------------------------------------

  /** A pooled connection: only last_activity changes once it is in the pool. */
  class Connection {
    const ipVersion: byte
    const remotePort: u16
    const remoteAddr: seq<byte>
    var lastActivity: int

    constructor (ipVersion: byte, remotePort: u16, remoteAddr: seq<byte>, lastActivity: int)
      ensures this.ipVersion == ipVersion && this.remotePort == remotePort
      ensures this.remoteAddr == remoteAddr && this.lastActivity == lastActivity
    {
      this.ipVersion := ipVersion;
      this.remotePort := remotePort;
      this.remoteAddr := remoteAddr;
      this.lastActivity := lastActivity;
    }
  }

  /** The value of a pooled connection at one moment. */
  datatype ConnEntry = ConnEntry(ipVersion: byte, remotePort: u16, remoteAddr: seq<byte>, lastActivity: int)

  /** Every entry holds a full-size address, as the pool's entries do. */
  predicate AllAddrs(entries: seq<ConnEntry>) {
    forall i :: 0 <= i < |entries| ==> IsAddr(entries[i].remoteAddr)
  }

  /** The lookup's test: same version and port, an address that compares equal
      under that version, and time_before(now, last_activity + timeout). */
  predicate Matches(e: ConnEntry, addr: seq<byte>, port: u16, ipVersion: byte, now: int, timeout: nat)
    requires IsAddr(addr) && IsAddr(e.remoteAddr)
  {
    && e.ipVersion == ipVersion
    && e.remotePort == port
    && AddrCompare(e.remoteAddr, addr, ipVersion) == 0
    && now < e.lastActivity + timeout
  }

  /** The index of the first matching entry in list order. */
  function FirstMatch(entries: seq<ConnEntry>, addr: seq<byte>, port: u16, ipVersion: byte, now: int, timeout: nat): (r: Option<nat>)
    requires IsAddr(addr) && AllAddrs(entries)
    ensures r.Some? ==> r.value < |entries| && Matches(entries[r.value], addr, port, ipVersion, now, timeout)
    ensures r.Some? ==> forall j :: 0 <= j < r.value ==> !Matches(entries[j], addr, port, ipVersion, now, timeout)
    ensures r.None? ==> forall j :: 0 <= j < |entries| ==> !Matches(entries[j], addr, port, ipVersion, now, timeout)
  {
    if entries == [] then None
    else if Matches(entries[0], addr, port, ipVersion, now, timeout) then Some(0)
    else match FirstMatch(entries[1..], addr, port, ipVersion, now, timeout)
      case None => None
      case Some(i) => Some(i + 1)
  }

  /** The pool after a hit on entry i at time now. */
  function Touch(entries: seq<ConnEntry>, i: nat, now: int): (r: seq<ConnEntry>)
    requires i < |entries|
    ensures |r| == |entries| && r[i].lastActivity == now
    ensures forall j :: 0 <= j < |entries| && j != i ==> r[j] == entries[j]
  {
    entries[i := entries[i].(lastActivity := now)]
  }

  /** A second lookup of the same key, no earlier in time and still within the
      timeout of the first, returns the same entry. */
  lemma RepeatLookupSameEntry(entries: seq<ConnEntry>, addr: seq<byte>, port: u16, ipVersion: byte,
                              t1: int, t2: int, timeout: nat)
    requires IsAddr(addr) && AllAddrs(entries)
    requires FirstMatch(entries, addr, port, ipVersion, t1, timeout).Some?
    requires t1 <= t2 < t1 + timeout
    ensures var i := FirstMatch(entries, addr, port, ipVersion, t1, timeout).value;
      FirstMatch(Touch(entries, i, t1), addr, port, ipVersion, t2, timeout) == Some(i)
  {
    var i := FirstMatch(entries, addr, port, ipVersion, t1, timeout).value;
    var touched := Touch(entries, i, t1);
    assert Matches(touched[i], addr, port, ipVersion, t2, timeout);
    assert forall j :: 0 <= j < i ==> !Matches(touched[j], addr, port, ipVersion, t2, timeout) by {
      forall j | 0 <= j < i
        ensures !Matches(touched[j], addr, port, ipVersion, t2, timeout)
      {
        assert touched[j] == entries[j];
        assert !Matches(entries[j], addr, port, ipVersion, t1, timeout);
      }
    }
    FirstMatchIsLeast(touched, addr, port, ipVersion, t2, timeout, i);
  }

  /** The first match is the least matching index. */
  lemma {:induction false} FirstMatchIsLeast(entries: seq<ConnEntry>, addr: seq<byte>, port: u16, ipVersion: byte,
                                             now: int, timeout: nat, i: nat)
    requires IsAddr(addr) && AllAddrs(entries)
    requires i < |entries| && Matches(entries[i], addr, port, ipVersion, now, timeout)
    requires forall j :: 0 <= j < i ==> !Matches(entries[j], addr, port, ipVersion, now, timeout)
    ensures FirstMatch(entries, addr, port, ipVersion, now, timeout) == Some(i)
  {
    if i > 0 {
      FirstMatchIsLeast(entries[1..], addr, port, ipVersion, now, timeout, i - 1);
    }
  }

  /** An expired entry is never returned, whatever it holds. */
  lemma ExpiredNeverReturned(entries: seq<ConnEntry>, addr: seq<byte>, port: u16, ipVersion: byte,
                             now: int, timeout: nat, j: nat)
    requires IsAddr(addr) && AllAddrs(entries)
    requires j < |entries| && now >= entries[j].lastActivity + timeout
    ensures FirstMatch(entries, addr, port, ipVersion, now, timeout) != Some(j)
  {
  }

  /** The connection pool of an endpoint. `timeout` is UE_CONN_TIMEOUT and
      `maxConns` UE_MAX_CONNECTIONS, whose values are not part of this model. */
  class ConnPool {
    var activeConns: seq<Connection>
    const maxConns: nat
    const timeout: nat

    /** A list_head threads each connection at most once, and every pooled
        connection holds a full-size address. */
    ghost predicate Valid()
      reads this
    {
      && (forall i, j :: 0 <= i < j < |activeConns| ==> activeConns[i] != activeConns[j])
      && (forall c :: c in activeConns ==> IsAddr(c.remoteAddr))
    }

    ghost function Entries(): (r: seq<ConnEntry>)
      reads this, set c | c in activeConns
      ensures |r| == |activeConns|
    {
      seq(|activeConns|, i reads this, set c | c in activeConns requires 0 <= i < |activeConns| =>
        ConnEntry(activeConns[i].ipVersion, activeConns[i].remotePort, activeConns[i].remoteAddr, activeConns[i].lastActivity))
    }

    /** INIT_LIST_HEAD: an empty pool. */
    constructor (maxConns: nat, timeout: nat)
      ensures activeConns == [] && this.maxConns == maxConns && this.timeout == timeout && Valid()
    {
      activeConns := [];
      this.maxConns := maxConns;
      this.timeout := timeout;
    }

    /** ue_get_ephemeral_conn_v2: the first live matching entry, refreshed to
        now; on a miss NULL, and the pool as it was. */
    method GetEphemeralConnV2(remoteAddr: seq<byte>, remotePort: u16, ipVersion: byte, now: int)
      returns (conn: Connection?)
      requires Valid() && IsAddr(remoteAddr)
      modifies set c | c in activeConns
      ensures activeConns == old(activeConns)
      ensures match FirstMatch(old(Entries()), remoteAddr, remotePort, ipVersion, now, timeout)
        case None => conn == null && Entries() == old(Entries())
        case Some(i) => conn == activeConns[i] && Entries() == Touch(old(Entries()), i, now)
    {
      var i := 0;
      while i < |activeConns|
        invariant 0 <= i <= |activeConns|
        invariant forall j :: 0 <= j < i ==> !Matches(Entries()[j], remoteAddr, remotePort, ipVersion, now, timeout)
      {
        var c := activeConns[i];
        if c.ipVersion == ipVersion && c.remotePort == remotePort
           && AddrCompare(c.remoteAddr, remoteAddr, ipVersion) == 0 && now < c.lastActivity + timeout {
          assert Matches(Entries()[i], remoteAddr, remotePort, ipVersion, now, timeout);
          FirstMatchIsLeast(Entries(), remoteAddr, remotePort, ipVersion, now, timeout, i);
          ghost var before := Entries();
          c.lastActivity := now;
          assert forall j :: 0 <= j < |activeConns| && j != i ==> activeConns[j] != c;
          assert Entries() == Touch(before, i, now);
          return c;
        }
        i := i + 1;
      }
      conn := null;
    }
  }

  /** ue_rdma_write_immediate_v2: a pooled connection when one matches,
      otherwise the temporary connection ue_create_temp_connection_v2 returns
      (`created`, null when it fails), and -ENOMEM when there is none. The post
      itself is not part of this model: its result is `postRc`. */
  method WriteImmediateV2(pool: ConnPool, remoteAddr: seq<byte>, remotePort: u16, ipVersion: byte, now: int,
                          created: Connection?, postRc: int)
    returns (rc: int, used: Connection?)
    requires pool.Valid() && IsAddr(remoteAddr)
    modifies set c | c in pool.activeConns
    ensures pool.activeConns == old(pool.activeConns)
    ensures match FirstMatch(old(pool.Entries()), remoteAddr, remotePort, ipVersion, now, pool.timeout)
      case Some(i) => used == pool.activeConns[i] && rc == postRc
                      && pool.Entries() == Touch(old(pool.Entries()), i, now)
      case None => pool.Entries() == old(pool.Entries())
                   && used == created
                   && (created == null ==> rc == -ENOMEM)
                   && (created != null ==> rc == postRc)
    ensures used == null ==> rc == -ENOMEM
  {
    used := pool.GetEphemeralConnV2(remoteAddr, remotePort, ipVersion, now);
    if used == null {
      used := created;
      if used == null {
        return -ENOMEM, null;
      }
    }
    rc := postRc;
  }

  // ---------------------------------------------------------------------------
  // ue_setup_multipath_v2
  // ---------------------------------------------------------------------------

  datatype PathStat = PathStat(nextHop: seq<byte>, weight: u16, packetsSent: u32, congestionLevel: u32, rtt: u32)

  /** The multipath state of an endpoint; `pathStats` is the fixed array of
      UE_MAX_PATHS entries, whose value is not part of this model. */
  class Multipath {
    var numPaths: byte
    var entropySeed: u32
    var ipVersion: byte
    const pathStats: array<PathStat>

    constructor (maxPaths: nat)
      ensures pathStats.Length == maxPaths && fresh(pathStats)
      ensures numPaths == 0 && entropySeed == 0 && ipVersion == 0
    {
      numPaths, entropySeed, ipVersion := 0, 0, 0;
      pathStats := new PathStat[maxPaths](_ => PathStat(Zeros(ADDR_SIZE), 0, 0, 0, 0));
    }

    /** ue_setup_multipath_v2. The ECMP/WCMP path query and rand() are not part
        of this model: their results are `queriedPaths` (stored into the uint8_t
        num_paths) and `seed`. Exactly the first num_paths entries get zero
        packets, congestion level and RTT; next hop and weight are kept. The
        source does not check num_paths against UE_MAX_PATHS, so the query must
        not report more paths than the array holds. */
    method SetupMultipathV2(ipVersion: byte, queriedPaths: int, seed: u32) returns (rc: int)
      requires queriedPaths % 0x100 <= pathStats.Length
      modifies this`numPaths, this`entropySeed, this`ipVersion, pathStats
      ensures rc == 0
      ensures this.ipVersion == ipVersion && numPaths == queriedPaths % 0x100 && entropySeed == seed
      ensures forall i :: 0 <= i < pathStats.Length ==>
        pathStats[i] == if i < numPaths
                        then old(pathStats[i]).(packetsSent := 0, congestionLevel := 0, rtt := 0)
                        else old(pathStats[i])
    {
      this.ipVersion := ipVersion;
      numPaths := queriedPaths % 0x100;
      entropySeed := seed;
      var i := 0;
      while i < numPaths as int
        invariant 0 <= i <= numPaths as int <= pathStats.Length
        invariant this.ipVersion == ipVersion && numPaths == queriedPaths % 0x100 && entropySeed == seed
        invariant forall j :: 0 <= j < pathStats.Length ==>
          pathStats[j] == if j < i
                          then old(pathStats[j]).(packetsSent := 0, congestionLevel := 0, rtt := 0)
                          else old(pathStats[j])
      {
        pathStats[i] := pathStats[i].(packetsSent := 0, congestionLevel := 0, rtt := 0);
        i := i + 1;
      }
      rc := 0;
    }
  }

  // ---------------------------------------------------------------------------
  // ue_endpoint_create_v2
  // ---------------------------------------------------------------------------

  datatype IpSupport = Ipv4Only | Ipv6Only | Ipv4AndIpv6

  /** The IP versions an endpoint of a given address format carries; None is
      the -FI_EINVAL case. */
  function SupportedVersions(addrFormat: int): (r: Option<IpSupport>)
    ensures r == Some(Ipv4Only) <==> addrFormat == FI_SOCKADDR_IN
    ensures r == Some(Ipv6Only) <==> addrFormat == FI_SOCKADDR_IN6
    ensures r == Some(Ipv4AndIpv6) <==> addrFormat == FI_SOCKADDR
  {
    if addrFormat == FI_SOCKADDR_IN then Some(Ipv4Only)
    else if addrFormat == FI_SOCKADDR_IN6 then Some(Ipv6Only)
    else if addrFormat == FI_SOCKADDR then Some(Ipv4AndIpv6)
    else None
  }

  predicate Supports(s: IpSupport, ipVersion: byte) {
    match s
    case Ipv4Only => ipVersion == 4
    case Ipv6Only => ipVersion == 6
    case Ipv4AndIpv6 => ipVersion == 4 || ipVersion == 6
  }

  /** The generic socket-address format serves both versions; each specific
      format serves exactly its own. */
  lemma SupportedVersionsCover(addrFormat: int, ipVersion: byte)
    requires SupportedVersions(addrFormat).Some?
    ensures Supports(SupportedVersions(addrFormat).value, ipVersion) <==>
      (ipVersion == 4 && addrFormat != FI_SOCKADDR_IN6) || (ipVersion == 6 && addrFormat != FI_SOCKADDR_IN)
  {
  }

  class Endpoint {
    const supportedIpVersions: IpSupport
    const connPool: ConnPool

    constructor (supported: IpSupport, maxConns: nat, timeout: nat)
      ensures supportedIpVersions == supported && fresh(connPool)
      ensures connPool.activeConns == [] && connPool.maxConns == maxConns && connPool.Valid()
    {
      supportedIpVersions := supported;
      connPool := new ConnPool(maxConns, timeout);
    }
  }

  /** ue_endpoint_create_v2: -FI_ENOMEM when calloc fails (`allocOk` false),
      -FI_EINVAL for an address format other than the three socket formats,
      otherwise an endpoint with an empty connection pool. The fabric operation
      tables it installs are not part of this model. */
  method EndpointCreateV2(addrFormat: int, allocOk: bool, maxConns: nat, timeout: nat) returns (rc: int, ep: Endpoint?)
    ensures !allocOk ==> rc == -FI_ENOMEM && ep == null
    ensures allocOk && SupportedVersions(addrFormat).None? ==> rc == -FI_EINVAL && ep == null
    ensures allocOk && SupportedVersions(addrFormat).Some? ==>
      && rc == 0 && ep != null && fresh(ep)
      && ep.supportedIpVersions == SupportedVersions(addrFormat).value
      && ep.connPool.activeConns == [] && ep.connPool.maxConns == maxConns
  {
    if !allocOk {
      return -FI_ENOMEM, null;
    }
    var supported: IpSupport;
    if addrFormat == FI_SOCKADDR_IN {
      supported := Ipv4Only;
    } else if addrFormat == FI_SOCKADDR_IN6 {
      supported := Ipv6Only;
    } else if addrFormat == FI_SOCKADDR {
      supported := Ipv4AndIpv6;
    } else {
      return -FI_EINVAL, null;
    }
    ep := new Endpoint(supported, maxConns, timeout);
    rc := 0;
  }
}
