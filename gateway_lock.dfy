/**
 * The CR gateway lock (`trio_cr_gw_lock_acquire`, `trio_cr_gw_lock_release`):
 * a hardware flag in `TRIO_CR_GW_LOCK`, taken by polling until bit 31 reads
 * clear and then writing bit 31, and given back by writing zero.
 */
module GatewayLock {
  import opened Bus
  import opened Registers
  import opened Capability
  import opened Polling

  /** One read of the gateway lock register. */
  function LockProbe(env: Env): Probe {
    (h: seq<Op>) => CapRead(env, h, TRIO_CR_GW_LOCK)
  }

  /** `trio_cr_gw_lock_acquire`: wait until the lock reads free, then claim it. */
  function GwAcquire(c: Ctx, t: seq<Op>): Status {
    var p := PollAfter(LockProbe(c.env), TRIO_CR_GW_LOCK_ACQUIRED, c.k.lockRetryCnt, t, 0);
    if p.rc != 0 then p
    else CapWrite(c.env, p.trace, TRIO_CR_GW_LOCK, TRIO_CR_GW_LOCK_ACQUIRED)
  }

  /** `trio_cr_gw_lock_release`: write the release pattern. */
  function GwRelease(c: Ctx, t: seq<Op>): Status {
    CapWrite(c.env, t, TRIO_CR_GW_LOCK, TRIO_CR_GW_LOCK_RELEASE)
  }

  /**
   * An acquire that stops at lock read `j`: the `j` reads before it all saw
   * bit 31 set; a failed read `j` returns its error; if `j` is the
   * `(LOCK_RETRY_CNT + 1)`-th read the acquire times out whatever it saw;
   * otherwise read `j` saw bit 31 clear and the acquire ends with exactly one
   * capability write of `0x80000000` to the lock register, whose result it returns.
   */
  predicate AcquireStopsAt(c: Ctx, t: seq<Op>, j: nat) {
    var probe := LockProbe(c.env);
    var cnt := c.k.lockRetryCnt;
    j <= cnt &&
    (forall i :: 0 <= i < j ==> SetAt(probe, TRIO_CR_GW_LOCK_ACQUIRED, t, i)) &&
    var r := probe(Chain(probe, t, j));
    GwAcquire(c, t) ==
      (if r.rc != 0 then Status(r.trace, r.rc)
       else if j == cnt then Status(r.trace, -ETIMEDOUT)
       else CapWrite(c.env, r.trace, TRIO_CR_GW_LOCK, TRIO_CR_GW_LOCK_ACQUIRED)) &&
    (r.rc == 0 && j < cnt ==> !Masked(r.value, TRIO_CR_GW_LOCK_ACQUIRED))
  }

  /** Every acquire, on every bus, reads the lock at most `LOCK_RETRY_CNT + 1` times and ends as `AcquireStopsAt` says. */
  lemma GwAcquireOutcome(c: Ctx, t: seq<Op>)
    ensures exists j: nat :: AcquireStopsAt(c, t, j)
  {
    var probe := LockProbe(c.env);
    PollAfterOutcome(probe, TRIO_CR_GW_LOCK_ACQUIRED, c.k.lockRetryCnt, t, 0);
    var j: nat :| AfterStopsAt(probe, TRIO_CR_GW_LOCK_ACQUIRED, c.k.lockRetryCnt, t, 0, j);
    assert AcquireStopsAt(c, t, j);
  }

  /** A lock that never reads free: the acquire reads it `LOCK_RETRY_CNT + 1` times, never claims it, and times out. */
  lemma GwAcquireHeldForever(c: Ctx, t: seq<Op>)
    requires forall i :: 0 <= i <= c.k.lockRetryCnt ==> SetAt(LockProbe(c.env), TRIO_CR_GW_LOCK_ACQUIRED, t, i)
    ensures GwAcquire(c, t) == Status(Chain(LockProbe(c.env), t, c.k.lockRetryCnt + 1), -ETIMEDOUT)
  {
    PollAfterNeverClears(LockProbe(c.env), TRIO_CR_GW_LOCK_ACQUIRED, c.k.lockRetryCnt, t);
  }

  /** Every lock read issues at least its select write. */
  lemma LockProbeIssues(env: Env)
    ensures Issues(LockProbe(env))
  {
    forall h: seq<Op>
      ensures h < LockProbe(env)(h).trace
    {
      assert LockProbe(env)(h) == CapRead(env, h, TRIO_CR_GW_LOCK);
    }
  }

  /** An acquire always issues at least one transaction. */
  lemma GwAcquireExtends(c: Ctx, t: seq<Op>)
    ensures t < GwAcquire(c, t).trace
  {
    LockProbeIssues(c.env);
    PollAfterExtends(LockProbe(c.env), TRIO_CR_GW_LOCK_ACQUIRED, c.k.lockRetryCnt, t, 0);
  }

  /** `trio_cr_gw_lock_acquire` over the bus. */
  method TrioCrGwLockAcquire(dev: PciDev, k: Consts) returns (rc: int)
    modifies dev
    ensures var s := GwAcquire(Ctx(dev.env, dev.deviceId, k), old(dev.trace));
      dev.trace == s.trace && rc == s.rc
  {
    ghost var probe := LockProbe(dev.env);
    ghost var t0 := dev.trace;
    var retry: nat := 0;
    while true
      invariant retry <= k.lockRetryCnt
      invariant PollAfter(probe, TRIO_CR_GW_LOCK_ACQUIRED, k.lockRetryCnt, t0, 0)
             == PollAfter(probe, TRIO_CR_GW_LOCK_ACQUIRED, k.lockRetryCnt, dev.trace, retry)
      decreases k.lockRetryCnt - retry
    {
      var readValue: bv32;
      rc, readValue := PciCapRead(dev, TRIO_CR_GW_LOCK);
      if rc != 0 {
        return;
      }
      retry := retry + 1;
      if retry > k.lockRetryCnt {
        rc := -ETIMEDOUT;
        return;
      }
      if readValue & TRIO_CR_GW_LOCK_ACQUIRED == 0 {
        break;
      }
    }
    rc := PciCapWrite(dev, TRIO_CR_GW_LOCK, TRIO_CR_GW_LOCK_ACQUIRED);
    if rc != 0 {
      return;
    }
    rc := 0;
  }

  /** `trio_cr_gw_lock_release` over the bus. */
  method TrioCrGwLockRelease(dev: PciDev, k: Consts) returns (rc: int)
    modifies dev
    ensures var s := GwRelease(Ctx(dev.env, dev.deviceId, k), old(dev.trace));
      dev.trace == s.trace && rc == s.rc
  {
    rc := PciCapWrite(dev, TRIO_CR_GW_LOCK, TRIO_CR_GW_LOCK_RELEASE);
  }
}
