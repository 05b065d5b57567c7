/** The ephemeral connection pool of the connectionless RDMA path (ue_rdma.c):
    a pool lookup keyed by the 64-bit remote address that skips expired
    entries and refreshes the one it returns, and the write path's
    get-or-create fallback. The clock (jiffies), ue_create_temp_connection and
    ue_post_rdma_write are not part of this model: the time is a parameter,
    creation is a parameter that may be null, and the post is a parameter
    giving its result. */
module RdmaPool {
  import opened Common

  const ENOMEM: int := 12

  class RdmaConnection {
    const remoteAddr: u64
    var lastActivity: int

    constructor (remoteAddr: u64, lastActivity: int)
      ensures this.remoteAddr == remoteAddr && this.lastActivity == lastActivity
    {
      this.remoteAddr := remoteAddr;
      this.lastActivity := lastActivity;
    }
  }

  /** A pooled connection's key and timestamp at one moment. */
  datatype PoolEntry = PoolEntry(remoteAddr: u64, lastActivity: int)

  /** The same address and time_before(now, last_activity + timeout). */
  predicate Live(e: PoolEntry, addr: u64, now: int, timeout: nat) {
    e.remoteAddr == addr && now < e.lastActivity + timeout
  }

  /** The index of the first live entry for the address, in list order. */
  function Lookup(entries: seq<PoolEntry>, addr: u64, now: int, timeout: nat): (r: Option<nat>)
    ensures r.Some? ==> r.value < |entries| && Live(entries[r.value], addr, now, timeout)
    ensures r.Some? ==> forall j :: 0 <= j < r.value ==> !Live(entries[j], addr, now, timeout)
    ensures r.None? ==> forall j :: 0 <= j < |entries| ==> !Live(entries[j], addr, now, timeout)
  {
    if entries == [] then None
    else if Live(entries[0], addr, now, timeout) then Some(0)
    else match Lookup(entries[1..], addr, now, timeout)
      case None => None
      case Some(i) => Some(i + 1)
  }

  lemma {:induction false} LookupIsLeast(entries: seq<PoolEntry>, addr: u64, now: int, timeout: nat, i: nat)
    requires i < |entries| && Live(entries[i], addr, now, timeout)
    requires forall j :: 0 <= j < i ==> !Live(entries[j], addr, now, timeout)
    ensures Lookup(entries, addr, now, timeout) == Some(i)
  {
    if i > 0 {
      LookupIsLeast(entries[1..], addr, now, timeout, i - 1);
    }
  }

  /** The pool after a hit on entry i at time now. */
  function Refresh(entries: seq<PoolEntry>, i: nat, now: int): (r: seq<PoolEntry>)
    requires i < |entries|
    ensures |r| == |entries| && r[i] == PoolEntry(entries[i].remoteAddr, now)
    ensures forall j :: 0 <= j < |entries| && j != i ==> r[j] == entries[j]
  {
    entries[i := entries[i].(lastActivity := now)]
  }

  /** Two lookups of the same address, the second no earlier and within the
      timeout of the first, return the same entry. */
  lemma RepeatLookupSameEntry(entries: seq<PoolEntry>, addr: u64, t1: int, t2: int, timeout: nat)
    requires Lookup(entries, addr, t1, timeout).Some?
    requires t1 <= t2 < t1 + timeout
    ensures var i := Lookup(entries, addr, t1, timeout).value;
      Lookup(Refresh(entries, i, t1), addr, t2, timeout) == Some(i)
  {
    var i := Lookup(entries, addr, t1, timeout).value;
    var refreshed := Refresh(entries, i, t1);
    forall j | 0 <= j < i
      ensures !Live(refreshed[j], addr, t2, timeout)
    {
      assert refreshed[j] == entries[j];
      assert !Live(entries[j], addr, t1, timeout);
    }
    LookupIsLeast(refreshed, addr, t2, timeout, i);
  }

  /** An entry past its timeout is never returned, though it stays in the pool. */
  lemma ExpiredSkipped(entries: seq<PoolEntry>, addr: u64, now: int, timeout: nat, j: nat)
    requires j < |entries| && now >= entries[j].lastActivity + timeout
    ensures Lookup(entries, addr, now, timeout) != Some(j)
  {
  }

  /** The connection pool of an endpoint; `timeout` is UE_CONN_TIMEOUT, whose
      value is not part of this model. */
  class ConnPool {
    var activeConns: seq<RdmaConnection>
    const timeout: nat

    /** A list_head threads each connection at most once. */
    ghost predicate Valid()
      reads this
    {
      forall i, j :: 0 <= i < j < |activeConns| ==> activeConns[i] != activeConns[j]
    }

    ghost function Entries(): (r: seq<PoolEntry>)
      reads this, set c | c in activeConns
      ensures |r| == |activeConns|
    {
      seq(|activeConns|, i reads this, set c | c in activeConns requires 0 <= i < |activeConns| =>
        PoolEntry(activeConns[i].remoteAddr, activeConns[i].lastActivity))
    }

    constructor (timeout: nat)
      ensures activeConns == [] && this.timeout == timeout && Valid()
    {
      activeConns := [];
      this.timeout := timeout;
    }

    /** ue_get_ephemeral_conn: the first live entry for the address, with its
        last_activity set to now; NULL and an unchanged pool on a miss. */
    method GetEphemeralConn(remoteAddr: u64, now: int) returns (conn: RdmaConnection?)
      requires Valid()
      modifies set c | c in activeConns
      ensures activeConns == old(activeConns)
      ensures match Lookup(old(Entries()), remoteAddr, now, timeout)
        case None => conn == null && Entries() == old(Entries())
        case Some(i) => conn == activeConns[i] && Entries() == Refresh(old(Entries()), i, now)
    {
      var i := 0;
      while i < |activeConns|
        invariant 0 <= i <= |activeConns|
        invariant forall j :: 0 <= j < i ==> !Live(Entries()[j], remoteAddr, now, timeout)
      {
        var c := activeConns[i];
        if c.remoteAddr == remoteAddr && now < c.lastActivity + timeout {
          LookupIsLeast(Entries(), remoteAddr, now, timeout, i);
          ghost var before := Entries();
          c.lastActivity := now;
          assert forall j :: 0 <= j < |activeConns| && j != i ==> activeConns[j] != c;
          assert Entries() == Refresh(before, i, now);
          return c;
        }
        i := i + 1;
      }
      conn := null;
    }
  }

  // ---------------------------------------------------------------------------
  // ue_rdma_write_immediate
  // ---------------------------------------------------------------------------

  /** The connection a write is posted on: a pooled entry, the newly created
      temporary connection, or NULL when creation failed. */
  datatype Target = Pooled(index: nat) | Created | NullConn

  /** What the write path does: post on a target, or fail with an error code. */
  datatype WriteStep = Post(target: Target) | Fail(rc: int)

  /** ue_rdma_write_immediate as written: on a miss the temporary connection is
      created, and the post goes ahead whether or not creation succeeded. */
  function WritePlan(entries: seq<PoolEntry>, addr: u64, now: int, timeout: nat, createOk: bool): (r: WriteStep)
    ensures r.Post?
    ensures Lookup(entries, addr, now, timeout).Some? ==> r == Post(Pooled(Lookup(entries, addr, now, timeout).value))
    ensures Lookup(entries, addr, now, timeout).None? ==> r == Post(if createOk then Created else NullConn)
  {
    match Lookup(entries, addr, now, timeout)
    case Some(i) => Post(Pooled(i))
    case None => Post(if createOk then Created else NullConn)
  }

  /** With an empty pool and a failed creation the write is posted on NULL. */
  lemma WriteAsWrittenPostsNull(addr: u64, now: int, timeout: nat)
    ensures WritePlan([], addr, now, timeout, false) == Post(NullConn)
  {
  }

  /** The write path as evidently intended (and as ue_rdma_write_immediate_v2
      does it): a failed creation returns -ENOMEM instead of posting. */
  function CheckedWritePlan(entries: seq<PoolEntry>, addr: u64, now: int, timeout: nat, createOk: bool): (r: WriteStep)
    ensures r != Post(NullConn)
    ensures r == Fail(-ENOMEM) <==> Lookup(entries, addr, now, timeout).None? && !createOk
    ensures r.Post? ==> r == WritePlan(entries, addr, now, timeout, createOk)
  {
    match Lookup(entries, addr, now, timeout)
    case Some(i) => Post(Pooled(i))
    case None => if createOk then Post(Created) else Fail(-ENOMEM)
  }

  /** The checked write differs from the written one exactly where the latter
      posts on NULL. */
  lemma CheckedDiffersOnlyOnNull(entries: seq<PoolEntry>, addr: u64, now: int, timeout: nat, createOk: bool)
    ensures CheckedWritePlan(entries, addr, now, timeout, createOk) != WritePlan(entries, addr, now, timeout, createOk)
            <==> WritePlan(entries, addr, now, timeout, createOk) == Post(NullConn)
  {
  }

  /** ue_rdma_write_immediate as written. `created` is what
      ue_create_temp_connection returns (null on failure), `postRc` what
      ue_post_rdma_write returns; `target` is the connection handed to the
      post, which is null when the pool missed and creation failed. */
  method WriteImmediate(pool: ConnPool, remoteAddr: u64, now: int, created: RdmaConnection?, postRc: int)
    returns (rc: int, target: RdmaConnection?)
    requires pool.Valid()
    modifies set c | c in pool.activeConns
    ensures pool.activeConns == old(pool.activeConns)
    ensures rc == postRc
    ensures match WritePlan(old(pool.Entries()), remoteAddr, now, pool.timeout, created != null)
      case Post(Pooled(i)) => target == pool.activeConns[i] && pool.Entries() == Refresh(old(pool.Entries()), i, now)
      case Post(Created) => target == created && pool.Entries() == old(pool.Entries())
      case Post(NullConn) => target == null && pool.Entries() == old(pool.Entries())
      case Fail(_) => false
  {
    target := pool.GetEphemeralConn(remoteAddr, now);
    if target == null {
      target := created;
    }
    rc := postRc;
  }

  /** The corrected write path: -ENOMEM, with nothing posted, when the pool
      missed and creation failed; otherwise the post on a non-null target. */
  method WriteImmediateChecked(pool: ConnPool, remoteAddr: u64, now: int, created: RdmaConnection?, postRc: int)
    returns (rc: int, target: RdmaConnection?)
    requires pool.Valid()
    modifies set c | c in pool.activeConns
    ensures pool.activeConns == old(pool.activeConns)
    ensures match CheckedWritePlan(old(pool.Entries()), remoteAddr, now, pool.timeout, created != null)
      case Post(Pooled(i)) => target == pool.activeConns[i] && rc == postRc
                              && pool.Entries() == Refresh(old(pool.Entries()), i, now)
      case Post(Created) => target == created && rc == postRc && pool.Entries() == old(pool.Entries())
      case Post(NullConn) => false
      case Fail(code) => target == null && rc == code && pool.Entries() == old(pool.Entries())
  {
    target := pool.GetEphemeralConn(remoteAddr, now);
    if target == null {
      target := created;
      if target == null {
        return -ENOMEM, null;
      }
    }
    rc := postRc;
  }
}
