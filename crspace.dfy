/**
 * The CR-space 4-byte accessor (`crspace_rsh_gw_read`, `crspace_rsh_gw_write`).
 * BlueField-2 reaches the rshim through a direct window in CR space;
 * BlueField-1 goes through the TRIO CR gateway, under the gateway lock, with
 * the payload in network byte order.
 */
module CrSpace {
  import opened Bus
  import opened Registers
  import opened Words
  import opened Capability
  import opened GatewayLock

  /** `(addr & 0xffff) + CRSPACE_RSH_CHANNEL1_BASE`: the BlueField-2 window address. */
  function Window(addr: bv32): (w: bv32)
    ensures CRSPACE_RSH_CHANNEL1_BASE <= w < CRSPACE_RSH_CHANNEL1_BASE + 0x1_0000
    ensures w & 0xffff == addr & 0xffff
  {
    (addr & 0xffff) + CRSPACE_RSH_CHANNEL1_BASE
  }

  /** `RSH_CHANNEL_BASE(RSHIM_CHANNEL)`: where the rshim channel starts in the gateway's address space. */
  function RshimBase(k: Consts): bv32 {
    k.channelBase(k.rshimChannel)
  }

  /** `addr` moved into the channel starting at `base`. */
  function InChannel(base: bv32, addr: bv32): bv32 {
    addr + base
  }

  /** `addr` moved into the channel at `base`, unless its low 16 bits name the boot FIFO at `fifo`. */
  function InChannelExceptFifo(base: bv32, fifo: bv32, addr: bv32): bv32 {
    if addr & 0xffff != fifo then addr + base else addr
  }

  /** The gateway address of a read: always moved into the rshim channel. */
  function GwReadAddr(k: Consts, addr: bv32): bv32 {
    InChannel(RshimBase(k), addr)
  }

  /** The gateway address of a write: moved into the rshim channel unless it is the boot FIFO. */
  function GwWriteAddr(k: Consts, addr: bv32): bv32 {
    InChannelExceptFifo(RshimBase(k), k.bootFifoData, addr)
  }

  /** The gateway transactions of a read of `a` after the lock is held, when none fails. */
  function GatewayReadOps(a: bv32): seq<Op> {
    CapWriteOps(TRIO_CR_GW_ADDR_LOWER, a) + (CapWriteOps(TRIO_CR_GW_CTL, TRIO_CR_GW_READ_4BYTE) +
    (CapWriteOps(TRIO_CR_GW_LOCK, TRIO_CR_GW_TRIGGER) + (CapReadOps(TRIO_CR_GW_DATA_LOWER) +
    CapWriteOps(TRIO_CR_GW_LOCK, TRIO_CR_GW_LOCK_RELEASE))))
  }

  /** The gateway transactions of a write of `v` to `a` after the lock is held, when none fails. */
  function GatewayWriteOps(a: bv32, v: bv32): seq<Op> {
    CapWriteOps(TRIO_CR_GW_DATA_LOWER, Swap32(v)) + (CapWriteOps(TRIO_CR_GW_ADDR_LOWER, a) +
    (CapWriteOps(TRIO_CR_GW_CTL, TRIO_CR_GW_WRITE_4BYTE) + (CapWriteOps(TRIO_CR_GW_LOCK, TRIO_CR_GW_TRIGGER) +
    CapWriteOps(TRIO_CR_GW_LOCK, TRIO_CR_GW_LOCK_RELEASE))))
  }

  /** The read half of `crspace_rsh_gw_read` on BlueField-1, run with the gateway lock held. */
  function GatewayRead(env: Env, t: seq<Op>, a: bv32): Reading<bv32> {
    var s1 := CapWrite(env, t, TRIO_CR_GW_ADDR_LOWER, a);
    if s1.rc != 0 then Reading(s1.trace, s1.rc, 0)
    else
      var s2 := CapWrite(env, s1.trace, TRIO_CR_GW_CTL, TRIO_CR_GW_READ_4BYTE);
      if s2.rc != 0 then Reading(s2.trace, s2.rc, 0)
      else
        var s3 := CapWrite(env, s2.trace, TRIO_CR_GW_LOCK, TRIO_CR_GW_TRIGGER);
        if s3.rc != 0 then Reading(s3.trace, s3.rc, 0)
        else
          var d := CapRead(env, s3.trace, TRIO_CR_GW_DATA_LOWER);
          if d.rc != 0 then Reading(d.trace, d.rc, 0)
          else
            var rel := CapWrite(env, d.trace, TRIO_CR_GW_LOCK, TRIO_CR_GW_LOCK_RELEASE);
            Reading(rel.trace, rel.rc, Swap32(d.value))
  }

  /** The write half of `crspace_rsh_gw_write` on BlueField-1, run with the gateway lock held. */
  function GatewayWrite(env: Env, t: seq<Op>, a: bv32, value: bv32): Status {
    var s1 := CapWrite(env, t, TRIO_CR_GW_DATA_LOWER, Swap32(value));
    if s1.rc != 0 then s1
    else
      var s2 := CapWrite(env, s1.trace, TRIO_CR_GW_ADDR_LOWER, a);
      if s2.rc != 0 then s2
      else
        var s3 := CapWrite(env, s2.trace, TRIO_CR_GW_CTL, TRIO_CR_GW_WRITE_4BYTE);
        if s3.rc != 0 then s3
        else
          var s4 := CapWrite(env, s3.trace, TRIO_CR_GW_LOCK, TRIO_CR_GW_TRIGGER);
          if s4.rc != 0 then s4
          else CapWrite(env, s4.trace, TRIO_CR_GW_LOCK, TRIO_CR_GW_LOCK_RELEASE)
  }

  /** `crspace_rsh_gw_read`. */
  function CrRead(c: Ctx, t: seq<Op>, addr: bv32): Reading<bv32> {
    if c.rev == BlueField2 then CapRead(c.env, t, Window(addr))
    else
      var acq := GwAcquire(c, t);
      if acq.rc != 0 then Reading(acq.trace, acq.rc, 0)
      else GatewayRead(c.env, acq.trace, GwReadAddr(c.k, addr))
  }

  /** `crspace_rsh_gw_write`. */
  function CrWrite(c: Ctx, t: seq<Op>, addr: bv32, value: bv32): Status {
    if c.rev == BlueField2 then CapWrite(c.env, t, Window(addr), value)
    else
      var acq := GwAcquire(c, t);
      if acq.rc != 0 then acq
      else GatewayWrite(c.env, acq.trace, GwWriteAddr(c.k, addr), value)
  }

  /** Every configuration write issued after `t` up to and including the end of `u` succeeded. */
  ghost predicate WritesOk(env: Env, t: seq<Op>, u: seq<Op>) {
    t <= u && forall n | |t| < n <= |u| :: u[n - 1].CfgWrite? ==> env(u[..n]).rc >= 0
  }

  /**
   * A sequence started at `t` that ended on `u` with code `rc` stopped at its
   * first failure: all its writes succeeded when `rc` is 0, and otherwise all
   * succeeded except the last transaction, which is a write.
   */
  ghost predicate FailFast(env: Env, t: seq<Op>, u: seq<Op>, rc: int) {
    (rc == 0 ==> WritesOk(env, t, u)) &&
    (rc != 0 ==> t < u && u[|u| - 1].CfgWrite? && WritesOk(env, t, u[..|u| - 1]))
  }

  /** One transaction that is a read or a write that succeeded is clean. */
  lemma WritesOkOne(env: Env, t: seq<Op>, op: Op)
    requires op.CfgWrite? ==> env(t + [op]).rc >= 0
    ensures WritesOk(env, t, t + [op])
  {
    var u := t + [op];
    assert u[..|u|] == u;
  }

  /** Clean writes up to `u` followed by clean writes up to `w` are clean up to `w`. */
  lemma WritesOkTrans(env: Env, t: seq<Op>, u: seq<Op>, w: seq<Op>)
    requires WritesOk(env, t, u) && WritesOk(env, u, w)
    ensures WritesOk(env, t, w)
  {
    forall n | |t| < n <= |w|
      ensures w[n - 1].CfgWrite? ==> env(w[..n]).rc >= 0
    {
      if n <= |u| {
        assert w[..n] == u[..n];
        assert w[n - 1] == u[n - 1];
      }
    }
  }

  /** A step that fails fast after clean writes leaves the whole run failing fast. */
  lemma FailFastAfter(env: Env, t: seq<Op>, u: seq<Op>, w: seq<Op>, rc: int)
    requires WritesOk(env, t, u) && FailFast(env, u, w, rc)
    ensures FailFast(env, t, w, rc)
  {
    if rc == 0 {
      WritesOkTrans(env, t, u, w);
    } else {
      WritesOkTrans(env, t, u, w[..|w| - 1]);
    }
  }

  /**
   * A capability write ends on a prefix of its two transactions; when it
   * fails, the last transaction issued is the one that failed and its code
   * is returned; when it succeeds, both were issued.
   */
  lemma CapWriteShape(env: Env, t: seq<Op>, offset: bv32, value: bv32)
    ensures var r := CapWrite(env, t, offset, value);
      t < r.trace <= t + CapWriteOps(offset, value) &&
      (r.rc == 0 ==> r.trace == t + CapWriteOps(offset, value)) &&
      (r.rc != 0 ==> r.rc < 0 && r.rc == env(r.trace).rc)
  {
  }

  /** A capability write stops at its first failed write. */
  lemma CapWriteFailFast(env: Env, t: seq<Op>, offset: bv32, value: bv32)
    ensures var r := CapWrite(env, t, offset, value);
      FailFast(env, t, r.trace, r.rc)
  {
    var t1 := t + [CfgWrite(MELLANOX_DATA, value)];
    var t2 := t1 + [CfgWrite(MELLANOX_ADDR, offset)];
    assert t1[..|t|] == t;
    if env(t1).rc >= 0 {
      WritesOkOne(env, t, CfgWrite(MELLANOX_DATA, value));
      assert t2[..|t1|] == t1;
      if env(t2).rc >= 0 {
        WritesOkOne(env, t1, CfgWrite(MELLANOX_ADDR, offset));
        WritesOkTrans(env, t, t1, t2);
      }
    }
  }

  /** The same for a capability read. */
  lemma CapReadShape(env: Env, t: seq<Op>, offset: bv32)
    ensures var r := CapRead(env, t, offset);
      t < r.trace <= t + CapReadOps(offset) &&
      (r.rc == 0 ==> r.trace == t + CapReadOps(offset) && r.value == env(r.trace).word) &&
      (r.rc != 0 ==> r.rc < 0 && r.rc == env(r.trace).rc)
  {
  }

  /** A capability read stops at its failed select. */
  lemma CapReadFailFast(env: Env, t: seq<Op>, offset: bv32)
    ensures var r := CapRead(env, t, offset);
      FailFast(env, t, r.trace, r.rc)
  {
    var t1 := t + [CfgWrite(MELLANOX_ADDR, ReadSelect(offset))];
    var t2 := t1 + [CfgRead(MELLANOX_DATA)];
    assert t1[..|t|] == t;
    if env(t1).rc >= 0 {
      WritesOkOne(env, t, CfgWrite(MELLANOX_ADDR, ReadSelect(offset)));
      WritesOkOne(env, t1, CfgRead(MELLANOX_DATA));
      WritesOkTrans(env, t, t1, t2);
    }
  }

  /**
   * A transaction sequence that stopped within its next step stays within
   * the whole remaining sequence.
   */
  lemma StepPrefix(x: seq<Op>, prev: seq<Op>, ops: seq<Op>, rest: seq<Op>)
    requires x <= prev + ops
    ensures x <= prev + (ops + rest)
    ensures prev + ops + rest == prev + (ops + rest)
  {
  }

  /**
   * BlueField-2 read: exactly one capability read at the window address,
   * with no gateway-lock traffic, and the word is returned as read.
   */
  lemma CrReadDirect(c: Ctx, t: seq<Op>, addr: bv32)
    requires c.rev == BlueField2
    ensures var r := CrRead(c, t, addr);
      var sel := t + [CfgWrite(MELLANOX_ADDR, ReadSelect(Window(addr)))];
      (c.env(sel).rc < 0 ==> r.trace == sel && r.rc == c.env(sel).rc) &&
      (c.env(sel).rc >= 0 ==>
         r.trace == sel + [CfgRead(MELLANOX_DATA)] && r.rc == 0 && r.value == c.env(r.trace).word)
  {
  }

  /**
   * BlueField-2 write: exactly one capability write of the unswapped value at
   * the window address, with no gateway-lock traffic.
   */
  lemma CrWriteDirect(c: Ctx, t: seq<Op>, addr: bv32, value: bv32)
    requires c.rev == BlueField2
    ensures var r := CrWrite(c, t, addr, value);
      var staged := t + [CfgWrite(MELLANOX_DATA, value)];
      (c.env(staged).rc < 0 ==> r == Status(staged, c.env(staged).rc)) &&
      (c.env(staged).rc >= 0 ==>
         r.trace == t + CapWriteOps(Window(addr), value) &&
         r.rc == (if c.env(r.trace).rc < 0 then c.env(r.trace).rc else 0))
  {
  }

  /** The gateway read stops at its first failed write. */
  lemma GatewayReadFailFast(env: Env, t: seq<Op>, a: bv32)
    ensures var r := GatewayRead(env, t, a);
      FailFast(env, t, r.trace, r.rc)
  {
    var s1 := CapWrite(env, t, TRIO_CR_GW_ADDR_LOWER, a);
    CapWriteFailFast(env, t, TRIO_CR_GW_ADDR_LOWER, a);
    if s1.rc == 0 {
      var s2 := CapWrite(env, s1.trace, TRIO_CR_GW_CTL, TRIO_CR_GW_READ_4BYTE);
      CapWriteFailFast(env, s1.trace, TRIO_CR_GW_CTL, TRIO_CR_GW_READ_4BYTE);
      FailFastAfter(env, t, s1.trace, s2.trace, s2.rc);
      if s2.rc == 0 {
        var s3 := CapWrite(env, s2.trace, TRIO_CR_GW_LOCK, TRIO_CR_GW_TRIGGER);
        CapWriteFailFast(env, s2.trace, TRIO_CR_GW_LOCK, TRIO_CR_GW_TRIGGER);
        FailFastAfter(env, t, s2.trace, s3.trace, s3.rc);
        if s3.rc == 0 {
          var d := CapRead(env, s3.trace, TRIO_CR_GW_DATA_LOWER);
          CapReadFailFast(env, s3.trace, TRIO_CR_GW_DATA_LOWER);
          FailFastAfter(env, t, s3.trace, d.trace, d.rc);
          if d.rc == 0 {
            var rel := CapWrite(env, d.trace, TRIO_CR_GW_LOCK, TRIO_CR_GW_LOCK_RELEASE);
            CapWriteFailFast(env, d.trace, TRIO_CR_GW_LOCK, TRIO_CR_GW_LOCK_RELEASE);
            FailFastAfter(env, t, d.trace, rel.trace, rel.rc);
          }
        }
      }
    }
  }

  /** The gateway write stops at its first failed write. */
  lemma GatewayWriteFailFast(env: Env, t: seq<Op>, a: bv32, value: bv32)
    ensures var r := GatewayWrite(env, t, a, value);
      FailFast(env, t, r.trace, r.rc)
  {
    var s1 := CapWrite(env, t, TRIO_CR_GW_DATA_LOWER, Swap32(value));
    CapWriteFailFast(env, t, TRIO_CR_GW_DATA_LOWER, Swap32(value));
    if s1.rc == 0 {
      var s2 := CapWrite(env, s1.trace, TRIO_CR_GW_ADDR_LOWER, a);
      CapWriteFailFast(env, s1.trace, TRIO_CR_GW_ADDR_LOWER, a);
      FailFastAfter(env, t, s1.trace, s2.trace, s2.rc);
      if s2.rc == 0 {
        var s3 := CapWrite(env, s2.trace, TRIO_CR_GW_CTL, TRIO_CR_GW_WRITE_4BYTE);
        CapWriteFailFast(env, s2.trace, TRIO_CR_GW_CTL, TRIO_CR_GW_WRITE_4BYTE);
        FailFastAfter(env, t, s2.trace, s3.trace, s3.rc);
        if s3.rc == 0 {
          var s4 := CapWrite(env, s3.trace, TRIO_CR_GW_LOCK, TRIO_CR_GW_TRIGGER);
          CapWriteFailFast(env, s3.trace, TRIO_CR_GW_LOCK, TRIO_CR_GW_TRIGGER);
          FailFastAfter(env, t, s3.trace, s4.trace, s4.rc);
          if s4.rc == 0 {
            var s5 := CapWrite(env, s4.trace, TRIO_CR_GW_LOCK, TRIO_CR_GW_LOCK_RELEASE);
            CapWriteFailFast(env, s4.trace, TRIO_CR_GW_LOCK, TRIO_CR_GW_LOCK_RELEASE);
            FailFastAfter(env, t, s4.trace, s5.trace, s5.rc);
          }
        }
      }
    }
  }

  /**
   * The gateway read with the lock held issues a prefix of: address, control
   * `0x6`, trigger `0xe0000000`, read of the data register, release.  A
   * success issues all of them and returns the byte-swapped data word; a
   * failure stops at the transaction that failed and returns its code, so a
   * failure before the release leaves the gateway lock held.
   */
  lemma GatewayReadShape(env: Env, t: seq<Op>, a: bv32)
    ensures var r := GatewayRead(env, t, a);
      var full := t + GatewayReadOps(a);
      t < r.trace <= full &&
      (r.rc == 0 ==> r.trace == full && r.value == Swap32(env(full[..|full| - 2]).word)) &&
      (r.rc != 0 ==> r.rc < 0 && r.rc == env(r.trace).rc) &&
      FailFast(env, t, r.trace, r.rc)
  {
    GatewayReadFailFast(env, t, a);
    var o2 := CapWriteOps(TRIO_CR_GW_CTL, TRIO_CR_GW_READ_4BYTE);
    var o3 := CapWriteOps(TRIO_CR_GW_LOCK, TRIO_CR_GW_TRIGGER);
    var o4 := CapReadOps(TRIO_CR_GW_DATA_LOWER);
    var o5 := CapWriteOps(TRIO_CR_GW_LOCK, TRIO_CR_GW_LOCK_RELEASE);
    var s1 := CapWrite(env, t, TRIO_CR_GW_ADDR_LOWER, a);
    CapWriteShape(env, t, TRIO_CR_GW_ADDR_LOWER, a);
    StepPrefix(s1.trace, t, CapWriteOps(TRIO_CR_GW_ADDR_LOWER, a), o2 + (o3 + (o4 + o5)));
    if s1.rc == 0 {
      var s2 := CapWrite(env, s1.trace, TRIO_CR_GW_CTL, TRIO_CR_GW_READ_4BYTE);
      CapWriteShape(env, s1.trace, TRIO_CR_GW_CTL, TRIO_CR_GW_READ_4BYTE);
      StepPrefix(s2.trace, s1.trace, o2, o3 + (o4 + o5));
      if s2.rc == 0 {
        var s3 := CapWrite(env, s2.trace, TRIO_CR_GW_LOCK, TRIO_CR_GW_TRIGGER);
        CapWriteShape(env, s2.trace, TRIO_CR_GW_LOCK, TRIO_CR_GW_TRIGGER);
        StepPrefix(s3.trace, s2.trace, o3, o4 + o5);
        if s3.rc == 0 {
          var d := CapRead(env, s3.trace, TRIO_CR_GW_DATA_LOWER);
          CapReadShape(env, s3.trace, TRIO_CR_GW_DATA_LOWER);
          StepPrefix(d.trace, s3.trace, o4, o5);
          if d.rc == 0 {
            CapWriteShape(env, d.trace, TRIO_CR_GW_LOCK, TRIO_CR_GW_LOCK_RELEASE);
            var full := t + GatewayReadOps(a);
            assert d.trace == full[..|full| - 2];
          }
        }
      }
    }
  }

  /**
   * The gateway write with the lock held issues a prefix of: data
   * (byte-swapped), address, control `0x2`, trigger, release.  A success
   * issues all of them; a failure stops at the transaction that failed and
   * returns its code, leaving the lock held if that was before the release.
   */
  lemma GatewayWriteShape(env: Env, t: seq<Op>, a: bv32, value: bv32)
    ensures var r := GatewayWrite(env, t, a, value);
      var full := t + GatewayWriteOps(a, value);
      t < r.trace <= full &&
      (r.rc == 0 ==> r.trace == full) &&
      (r.rc != 0 ==> r.rc < 0 && r.rc == env(r.trace).rc) &&
      FailFast(env, t, r.trace, r.rc)
  {
    GatewayWriteFailFast(env, t, a, value);
    var o2 := CapWriteOps(TRIO_CR_GW_ADDR_LOWER, a);
    var o3 := CapWriteOps(TRIO_CR_GW_CTL, TRIO_CR_GW_WRITE_4BYTE);
    var o4 := CapWriteOps(TRIO_CR_GW_LOCK, TRIO_CR_GW_TRIGGER);
    var o5 := CapWriteOps(TRIO_CR_GW_LOCK, TRIO_CR_GW_LOCK_RELEASE);
    var s1 := CapWrite(env, t, TRIO_CR_GW_DATA_LOWER, Swap32(value));
    CapWriteShape(env, t, TRIO_CR_GW_DATA_LOWER, Swap32(value));
    StepPrefix(s1.trace, t, CapWriteOps(TRIO_CR_GW_DATA_LOWER, Swap32(value)), o2 + (o3 + (o4 + o5)));
    if s1.rc == 0 {
      var s2 := CapWrite(env, s1.trace, TRIO_CR_GW_ADDR_LOWER, a);
      CapWriteShape(env, s1.trace, TRIO_CR_GW_ADDR_LOWER, a);
      StepPrefix(s2.trace, s1.trace, o2, o3 + (o4 + o5));
      if s2.rc == 0 {
        var s3 := CapWrite(env, s2.trace, TRIO_CR_GW_CTL, TRIO_CR_GW_WRITE_4BYTE);
        CapWriteShape(env, s2.trace, TRIO_CR_GW_CTL, TRIO_CR_GW_WRITE_4BYTE);
        StepPrefix(s3.trace, s2.trace, o3, o4 + o5);
        if s3.rc == 0 {
          var s4 := CapWrite(env, s3.trace, TRIO_CR_GW_LOCK, TRIO_CR_GW_TRIGGER);
          CapWriteShape(env, s3.trace, TRIO_CR_GW_LOCK, TRIO_CR_GW_TRIGGER);
          StepPrefix(s4.trace, s3.trace, o4, o5);
          if s4.rc == 0 {
            CapWriteShape(env, s4.trace, TRIO_CR_GW_LOCK, TRIO_CR_GW_LOCK_RELEASE);
          }
        }
      }
    }
  }

  /**
   * BlueField-1 read: a failed lock acquire is returned with no gateway
   * traffic; otherwise the gateway read runs on the address moved into the
   * rshim channel, as `GatewayReadShape` describes.
   */
  lemma CrReadGateway(c: Ctx, t: seq<Op>, addr: bv32)
    requires c.rev == BlueField1
    ensures var acq := GwAcquire(c, t);
      var r := CrRead(c, t, addr);
      var full := acq.trace + GatewayReadOps(GwReadAddr(c.k, addr));
      (acq.rc != 0 ==> r.trace == acq.trace && r.rc == acq.rc) &&
      (acq.rc == 0 ==>
         acq.trace < r.trace <= full &&
         (r.rc == 0 ==> r.trace == full && r.value == Swap32(c.env(full[..|full| - 2]).word)) &&
         (r.rc != 0 ==> r.rc < 0 && r.rc == c.env(r.trace).rc) &&
         FailFast(c.env, acq.trace, r.trace, r.rc))
  {
    var acq := GwAcquire(c, t);
    if acq.rc == 0 {
      GatewayReadShape(c.env, acq.trace, GwReadAddr(c.k, addr));
    }
  }

  /**
   * BlueField-1 write: a failed lock acquire is returned with no gateway
   * traffic; otherwise the gateway write runs on the address moved into the
   * rshim channel unless its low 16 bits name the boot FIFO.
   */
  lemma CrWriteGateway(c: Ctx, t: seq<Op>, addr: bv32, value: bv32)
    requires c.rev == BlueField1
    ensures var acq := GwAcquire(c, t);
      var r := CrWrite(c, t, addr, value);
      var full := acq.trace + GatewayWriteOps(GwWriteAddr(c.k, addr), value);
      (acq.rc != 0 ==> r == acq) &&
      (acq.rc == 0 ==>
         acq.trace < r.trace <= full &&
         (r.rc == 0 ==> r.trace == full) &&
         (r.rc != 0 ==> r.rc < 0 && r.rc == c.env(r.trace).rc) &&
         FailFast(c.env, acq.trace, r.trace, r.rc))
  {
    var acq := GwAcquire(c, t);
    if acq.rc == 0 {
      GatewayWriteShape(c.env, acq.trace, GwWriteAddr(c.k, addr), value);
    }
  }

  /** Every 4-byte read issues at least one transaction. */
  lemma CrReadExtends(c: Ctx, t: seq<Op>, addr: bv32)
    ensures t < CrRead(c, t, addr).trace
  {
    if c.rev == BlueField2 {
      CapReadShape(c.env, t, Window(addr));
    } else {
      GwAcquireExtends(c, t);
      var acq := GwAcquire(c, t);
      if acq.rc == 0 {
        GatewayReadShape(c.env, acq.trace, GwReadAddr(c.k, addr));
      }
    }
  }

  /** Every 4-byte write issues at least one transaction. */
  lemma CrWriteExtends(c: Ctx, t: seq<Op>, addr: bv32, value: bv32)
    ensures t < CrWrite(c, t, addr, value).trace
  {
    if c.rev == BlueField2 {
      CapWriteShape(c.env, t, Window(addr), value);
    } else {
      GwAcquireExtends(c, t);
      var acq := GwAcquire(c, t);
      if acq.rc == 0 {
        GatewayWriteShape(c.env, acq.trace, GwWriteAddr(c.k, addr), value);
      }
    }
  }

  /** `crspace_rsh_gw_read` over the bus. */
  method CrspaceRshGwRead(dev: PciDev, k: Consts, addr: bv32) returns (rc: int, result: bv32)
    modifies dev
    ensures var r := CrRead(Ctx(dev.env, dev.deviceId, k), old(dev.trace), addr);
      dev.trace == r.trace && rc == r.rc && result == r.value
  {
    if dev.deviceId == BlueField2 {
      rc, result := PciCapRead(dev, Window(addr));
      return;
    }
    var a := GwReadAddr(k, addr);
    result := 0;
    rc := TrioCrGwLockAcquire(dev, k);
    if rc != 0 {
      return;
    }
    rc := PciCapWrite(dev, TRIO_CR_GW_ADDR_LOWER, a);
    if rc != 0 {
      return;
    }
    rc := PciCapWrite(dev, TRIO_CR_GW_CTL, TRIO_CR_GW_READ_4BYTE);
    if rc != 0 {
      return;
    }
    rc := PciCapWrite(dev, TRIO_CR_GW_LOCK, TRIO_CR_GW_TRIGGER);
    if rc != 0 {
      return;
    }
    rc, result := PciCapRead(dev, TRIO_CR_GW_DATA_LOWER);
    if rc != 0 {
      result := 0;
      return;
    }
    result := Swap32(result);
    rc := TrioCrGwLockRelease(dev, k);
    if rc != 0 {
      return;
    }
    rc := 0;
  }

  /** `crspace_rsh_gw_write` over the bus. */
  method CrspaceRshGwWrite(dev: PciDev, k: Consts, addr: bv32, value: bv32) returns (rc: int)
    modifies dev
    ensures var r := CrWrite(Ctx(dev.env, dev.deviceId, k), old(dev.trace), addr, value);
      dev.trace == r.trace && rc == r.rc
  {
    if dev.deviceId == BlueField2 {
      rc := PciCapWrite(dev, Window(addr), value);
      return;
    }
    var a := GwWriteAddr(k, addr);
    rc := TrioCrGwLockAcquire(dev, k);
    if rc != 0 {
      return;
    }
    rc := PciCapWrite(dev, TRIO_CR_GW_DATA_LOWER, Swap32(value));
    if rc != 0 {
      return;
    }
    rc := PciCapWrite(dev, TRIO_CR_GW_ADDR_LOWER, a);
    if rc != 0 {
      return;
    }
    rc := PciCapWrite(dev, TRIO_CR_GW_CTL, TRIO_CR_GW_WRITE_4BYTE);
    if rc != 0 {
      return;
    }
    rc := PciCapWrite(dev, TRIO_CR_GW_LOCK, TRIO_CR_GW_TRIGGER);
    if rc != 0 {
      return;
    }
    rc := TrioCrGwLockRelease(dev, k);
    if rc != 0 {
      return;
    }
    rc := 0;
  }

  /** The gateway addresses depend only on the channel base, the channel and the boot FIFO offset. */
  lemma GatewayAddrsAgree(k: Consts, k2: Consts, x: bv32)
    requires k.channelBase == k2.channelBase && k.rshimChannel == k2.rshimChannel
    requires k.bootFifoData == k2.bootFifoData
    ensures GwReadAddr(k, x) == GwReadAddr(k2, x) && GwWriteAddr(k, x) == GwWriteAddr(k2, x)
  {
    assert RshimBase(k) == RshimBase(k2);
  }

  /**
   * Two contexts that agree on everything a 4-byte CR-space access reads:
   * the bus, the revision, the retry bound, the channel base, the channel
   * and the boot FIFO offset.  The widget registers may differ.
   */
  ghost predicate SameCrSpace(c: Ctx, d: Ctx) {
    c.env == d.env && c.rev == d.rev && c.k.lockRetryCnt == d.k.lockRetryCnt &&
    c.k.channelBase == d.k.channelBase && c.k.rshimChannel == d.k.rshimChannel &&
    c.k.bootFifoData == d.k.bootFifoData
  }

  /** A 4-byte read depends on nothing but what `SameCrSpace` fixes. */
  lemma CrReadSameCrSpace(c: Ctx, d: Ctx, h: seq<Op>, x: bv32)
    requires SameCrSpace(c, d)
    ensures CrRead(c, h, x) == CrRead(d, h, x)
  {
    if c.rev == BlueField1 {
      assert GwAcquire(c, h) == GwAcquire(d, h);
      GatewayAddrsAgree(c.k, d.k, x);
    }
  }

  /** A 4-byte write depends on nothing but what `SameCrSpace` fixes. */
  lemma CrWriteSameCrSpace(c: Ctx, d: Ctx, h: seq<Op>, x: bv32, v: bv32)
    requires SameCrSpace(c, d)
    ensures CrWrite(c, h, x, v) == CrWrite(d, h, x, v)
  {
    if c.rev == BlueField1 {
      assert GwAcquire(c, h) == GwAcquire(d, h);
      GatewayAddrsAgree(c.k, d.k, x);
    }
  }
}
