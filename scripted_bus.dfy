/**
 * A scripted bus for stating whole transaction sequences: every read answers
 * the same word `w`, and every transaction succeeds except the `n`-th of the
 * history (counted from 1), which returns `err`.  With `n == 0` nothing
 * fails.  On such a bus each 4-byte CR-space access that does not reach
 * transaction `n` issues exactly its success sequence.
 */
module ScriptedBus {
  import opened Bus
  import opened Registers
  import opened Words
  import opened Capability
  import opened Polling
  import opened GatewayLock
  import opened CrSpace

  /** The scripted bus. */
  function FaultyBus(w: bv32, n: nat, err: int): Env {
    (h: seq<Op>) => if |h| == n then Reply(err, w) else Reply(0, w)
  }

  /** Every transaction numbered `from + 1` to `to` succeeds and every read among them answers `w`. */
  ghost predicate Quiet(env: Env, w: bv32, from: nat, to: nat) {
    forall h: seq<Op> :: from < |h| <= to ==> env(h) == Reply(0, w)
  }

  /** The scripted bus is quiet on every stretch that avoids its failing transaction. */
  lemma FaultyBusQuiet(w: bv32, n: nat, err: int, from: nat, to: nat)
    requires n <= from || to < n
    ensures Quiet(FaultyBus(w, n, err), w, from, to)
  {
  }

  /** The transactions of a gateway lock acquire whose first read sees the lock free. */
  function AcquireOps(): seq<Op> {
    CapReadOps(TRIO_CR_GW_LOCK) + CapWriteOps(TRIO_CR_GW_LOCK, TRIO_CR_GW_LOCK_ACQUIRED)
  }

  /** The transactions of a 4-byte CR-space read of `a` that succeeds at once. */
  function ReadOps(c: Ctx, a: bv32): seq<Op> {
    if c.rev == BlueField2 then CapReadOps(Window(a))
    else AcquireOps() + GatewayReadOps(GwReadAddr(c.k, a))
  }

  /** The transactions of a 4-byte CR-space write of `v` to `a` that succeeds at once. */
  function WriteOps(c: Ctx, a: bv32, v: bv32): seq<Op> {
    if c.rev == BlueField2 then CapWriteOps(Window(a), v)
    else AcquireOps() + GatewayWriteOps(GwWriteAddr(c.k, a), v)
  }

  /** What a 4-byte CR-space read returns when the data register answers `w`. */
  function Seen(c: Ctx, w: bv32): bv32 {
    if c.rev == BlueField2 then w else Swap32(w)
  }

  /** The gateway lock can be taken at the first read (BlueField-1 only needs it). */
  predicate Ready(c: Ctx, w: bv32) {
    c.k.lockRetryCnt >= 1 && (c.rev == BlueField1 ==> !Masked(w, TRIO_CR_GW_LOCK_ACQUIRED))
  }

  /** A capability read on a quiet stretch succeeds with `w`. */
  lemma CapReadQuiet(env: Env, w: bv32, t: seq<Op>, offset: bv32)
    requires Quiet(env, w, |t|, |t| + 2)
    ensures CapRead(env, t, offset) == Reading(t + CapReadOps(offset), 0, w)
  {
    CapReadShape(env, t, offset);
  }

  /** A capability write on a quiet stretch succeeds. */
  lemma CapWriteQuiet(env: Env, w: bv32, t: seq<Op>, offset: bv32, value: bv32)
    requires Quiet(env, w, |t|, |t| + 2)
    ensures CapWrite(env, t, offset, value) == Status(t + CapWriteOps(offset, value), 0)
  {
    CapWriteShape(env, t, offset, value);
  }

  /** A gateway lock acquire on a quiet stretch takes the lock at the first read. */
  lemma AcquireQuiet(c: Ctx, w: bv32, t: seq<Op>)
    requires Ready(c, w) && c.rev == BlueField1
    requires Quiet(c.env, w, |t|, |t| + 4)
    ensures GwAcquire(c, t) == Status(t + AcquireOps(), 0)
  {
    CapReadQuiet(c.env, w, t, TRIO_CR_GW_LOCK);
    var t1 := t + CapReadOps(TRIO_CR_GW_LOCK);
    assert LockProbe(c.env)(t) == Reading(t1, 0, w);
    assert PollAfter(LockProbe(c.env), TRIO_CR_GW_LOCK_ACQUIRED, c.k.lockRetryCnt, t, 0) == Status(t1, 0);
    CapWriteQuiet(c.env, w, t1, TRIO_CR_GW_LOCK, TRIO_CR_GW_LOCK_ACQUIRED);
  }

  /** The gateway read half on a quiet stretch issues all its transactions. */
  lemma GatewayReadQuiet(env: Env, w: bv32, t: seq<Op>, a: bv32)
    requires Quiet(env, w, |t|, |t| + 10)
    ensures GatewayRead(env, t, a) == Reading(t + GatewayReadOps(a), 0, Swap32(w))
  {
    GatewayReadShape(env, t, a);
  }

  /** The gateway write half on a quiet stretch issues all its transactions. */
  lemma GatewayWriteQuiet(env: Env, w: bv32, t: seq<Op>, a: bv32, v: bv32)
    requires Quiet(env, w, |t|, |t| + 10)
    ensures GatewayWrite(env, t, a, v) == Status(t + GatewayWriteOps(a, v), 0)
  {
    GatewayWriteShape(env, t, a, v);
  }

  /** A BlueField-1 read is the gateway read half run after the lock acquire. */
  lemma CrReadAfterAcquire(c: Ctx, t: seq<Op>, a: bv32, held: seq<Op>, r: Reading<bv32>)
    requires c.rev == BlueField1 && GwAcquire(c, t) == Status(held, 0)
    requires GatewayRead(c.env, held, GwReadAddr(c.k, a)) == r
    ensures CrRead(c, t, a) == r
  {
  }

  /** A BlueField-1 write is the gateway write half run after the lock acquire. */
  lemma CrWriteAfterAcquire(c: Ctx, t: seq<Op>, a: bv32, v: bv32, held: seq<Op>, s: Status)
    requires c.rev == BlueField1 && GwAcquire(c, t) == Status(held, 0)
    requires GatewayWrite(c.env, held, GwWriteAddr(c.k, a), v) == s
    ensures CrWrite(c, t, a, v) == s
  {
  }

  /** Concatenation is associative. */
  lemma Assoc(x: seq<Op>, y: seq<Op>, z: seq<Op>)
    ensures x + y + z == x + (y + z)
  {
  }

  /** A quiet stretch is quiet on every part of it. */
  lemma QuietWithin(env: Env, w: bv32, from: nat, to: nat, from': nat, to': nat)
    requires Quiet(env, w, from, to) && from <= from' && to' <= to
    ensures Quiet(env, w, from', to')
  {
  }

  /** Transactions per successful 4-byte access: 2 on BlueField-2, 14 on BlueField-1. */
  function AccessLen(c: Ctx): nat {
    if c.rev == BlueField2 then 2 else 14
  }

  /** A successful 4-byte read or write issues `AccessLen` transactions. */
  lemma OpsLength(c: Ctx, a: bv32, v: bv32)
    ensures |ReadOps(c, a)| == |WriteOps(c, a, v)| == AccessLen(c)
  {
  }

  /** BlueField-1 case of `CrReadQuiet`. */
  lemma CrReadQuietGateway(c: Ctx, w: bv32, t: seq<Op>, a: bv32)
    requires Ready(c, w) && c.rev == BlueField1
    requires Quiet(c.env, w, |t|, |t| + 14)
    ensures CrRead(c, t, a) == Reading(t + ReadOps(c, a), 0, Swap32(w))
  {
    QuietWithin(c.env, w, |t|, |t| + 14, |t|, |t| + 4);
    AcquireQuiet(c, w, t);
    var t1 := t + AcquireOps();
    QuietWithin(c.env, w, |t|, |t| + 14, |t1|, |t1| + 10);
    GatewayReadQuiet(c.env, w, t1, GwReadAddr(c.k, a));
    Assoc(t, AcquireOps(), GatewayReadOps(GwReadAddr(c.k, a)));
    CrReadAfterAcquire(c, t, a, t1, Reading(t + ReadOps(c, a), 0, Swap32(w)));
  }

  /** BlueField-1 case of `CrWriteQuiet`. */
  lemma CrWriteQuietGateway(c: Ctx, w: bv32, t: seq<Op>, a: bv32, v: bv32)
    requires Ready(c, w) && c.rev == BlueField1
    requires Quiet(c.env, w, |t|, |t| + 14)
    ensures CrWrite(c, t, a, v) == Status(t + WriteOps(c, a, v), 0)
  {
    QuietWithin(c.env, w, |t|, |t| + 14, |t|, |t| + 4);
    AcquireQuiet(c, w, t);
    var t1 := t + AcquireOps();
    QuietWithin(c.env, w, |t|, |t| + 14, |t1|, |t1| + 10);
    GatewayWriteQuiet(c.env, w, t1, GwWriteAddr(c.k, a), v);
    Assoc(t, AcquireOps(), GatewayWriteOps(GwWriteAddr(c.k, a), v));
    CrWriteAfterAcquire(c, t, a, v, t1, Status(t + WriteOps(c, a, v), 0));
  }

  /** A 4-byte CR-space read on a quiet stretch issues its success sequence. */
  lemma CrReadQuiet(c: Ctx, w: bv32, t: seq<Op>, a: bv32)
    requires Ready(c, w)
    requires Quiet(c.env, w, |t|, |t| + |ReadOps(c, a)|)
    ensures CrRead(c, t, a) == Reading(t + ReadOps(c, a), 0, Seen(c, w))
  {
    OpsLength(c, a, 0);
    if c.rev == BlueField2 {
      CapReadQuiet(c.env, w, t, Window(a));
    } else {
      CrReadQuietGateway(c, w, t, a);
    }
  }

  /** A 4-byte CR-space write on a quiet stretch issues its success sequence. */
  lemma CrWriteQuiet(c: Ctx, w: bv32, t: seq<Op>, a: bv32, v: bv32)
    requires Ready(c, w)
    requires Quiet(c.env, w, |t|, |t| + |WriteOps(c, a, v)|)
    ensures CrWrite(c, t, a, v) == Status(t + WriteOps(c, a, v), 0)
  {
    OpsLength(c, a, v);
    if c.rev == BlueField2 {
      CapWriteQuiet(c.env, w, t, Window(a), v);
    } else {
      CrWriteQuietGateway(c, w, t, a, v);
    }
  }

  /**
   * On BlueField-2 a 4-byte write whose first transaction fails issues
   * nothing more and returns the bus's code.
   */
  lemma CrWriteFailsFirst(c: Ctx, t: seq<Op>, a: bv32, v: bv32)
    requires c.rev == BlueField2
    requires c.env(t + [CfgWrite(MELLANOX_DATA, v)]).rc < 0
    ensures CrWrite(c, t, a, v) == Status(t + [CfgWrite(MELLANOX_DATA, v)], c.env(t + [CfgWrite(MELLANOX_DATA, v)]).rc)
  {
  }
}
