/**
 * Whole widget transactions on the scripted bus: the exact sequence of
 * 4-byte CR-space accesses of a widget read and write when nothing fails,
 * and what a single failing transaction does on BlueField-2, where the
 * interlock release decides the returned code.
 */
module WidgetScenarios {
  import opened Bus
  import opened Registers
  import opened Words
  import opened Polling
  import opened CrSpace
  import opened ScriptedBus
  import opened ByteAccess

  /** A pending wait on a quiet stretch whose control word shows the bit clear reads once and succeeds. */
  lemma PendingWaitQuiet(c: Ctx, w: bv32, t: seq<Op>)
    requires Ready(c, w) && !Masked(Seen(c, w), c.k.pending)
    requires Quiet(c.env, w, |t|, |t| + AccessLen(c))
    ensures PendingWait(c, t) == Status(t + ReadOps(c, c.k.accCtl), 0)
  {
    OpsLength(c, c.k.accCtl, 0);
    CrReadQuiet(c, w, t, c.k.accCtl);
    assert CtlProbe(c)(t) == Reading(t + ReadOps(c, c.k.accCtl), 0, Seen(c, w));
  }

  /** An interlock acquire on a quiet stretch whose word shows bit 0 set reads once and succeeds. */
  lemma InterlockAcquireQuiet(c: Ctx, w: bv32, t: seq<Op>)
    requires c.rev == BlueField2 && Ready(c, w) && Masked(w, INTERLOCK_TAKEN)
    requires Quiet(c.env, w, |t|, |t| + 2)
    ensures InterlockAcquire(c, t) == Status(t + ReadOps(c, c.k.accInterlock), 0)
  {
    CrReadQuiet(c, w, t, c.k.accInterlock);
    assert InterlockProbe(c)(t) == Reading(t + ReadOps(c, c.k.accInterlock), 0, w);
  }

  /**
   * The read transfer on a quiet stretch: address, read control word,
   * control read, data read, control read, data read, and success.  Every
   * read answers the same word, so the value holds that word in both halves;
   * which read fills which half is `ReadTransferHalves`.
   */
  lemma ReadTransferQuiet(c: Ctx, w: bv32, t: seq<Op>, addr: bv32)
    requires Ready(c, w) && !Masked(Seen(c, w), c.k.pending)
    requires Quiet(c.env, w, |t|, |t| + 6 * AccessLen(c))
    ensures ReadTransfer(c, t, addr) ==
      Reading(t + WriteOps(c, c.k.accAddr, addr) + WriteOps(c, c.k.accCtl, ReadCtlWord(c.k)) +
              ReadOps(c, c.k.accCtl) + ReadOps(c, c.k.accRdat) + ReadOps(c, c.k.accCtl) + ReadOps(c, c.k.accRdat),
              0, Some(Combine(Seen(c, w), Seen(c, w))))
    ensures |ReadTransfer(c, t, addr).trace| == |t| + 6 * AccessLen(c)
  {
    var L := AccessLen(c);
    OpsLength(c, c.k.accAddr, addr);
    OpsLength(c, c.k.accCtl, ReadCtlWord(c.k));
    OpsLength(c, c.k.accRdat, 0);
    OpsLength(c, c.k.accCtl, 0);
    var t1 := t + WriteOps(c, c.k.accAddr, addr);
    QuietWithin(c.env, w, |t|, |t| + 6 * L, |t|, |t| + L);
    CrWriteQuiet(c, w, t, c.k.accAddr, addr);
    var t2 := t1 + WriteOps(c, c.k.accCtl, ReadCtlWord(c.k));
    QuietWithin(c.env, w, |t|, |t| + 6 * L, |t1|, |t1| + L);
    CrWriteQuiet(c, w, t1, c.k.accCtl, ReadCtlWord(c.k));
    var t3 := t2 + ReadOps(c, c.k.accCtl);
    QuietWithin(c.env, w, |t|, |t| + 6 * L, |t2|, |t2| + L);
    PendingWaitQuiet(c, w, t2);
    var t4 := t3 + ReadOps(c, c.k.accRdat);
    QuietWithin(c.env, w, |t|, |t| + 6 * L, |t3|, |t3| + L);
    CrReadQuiet(c, w, t3, c.k.accRdat);
    var t5 := t4 + ReadOps(c, c.k.accCtl);
    QuietWithin(c.env, w, |t|, |t| + 6 * L, |t4|, |t4| + L);
    PendingWaitQuiet(c, w, t4);
    QuietWithin(c.env, w, |t|, |t| + 6 * L, |t5|, |t5| + L);
    CrReadQuiet(c, w, t5, c.k.accRdat);
  }

  /**
   * The write transfer on a quiet stretch: size control word, low word,
   * control read, high word.
   */
  lemma WriteTransferQuiet(c: Ctx, w: bv32, t: seq<Op>, value: bv64)
    requires Ready(c, w) && !Masked(Seen(c, w), c.k.pending)
    requires Quiet(c.env, w, |t|, |t| + 4 * AccessLen(c))
    ensures WriteTransfer(c, t, value) ==
      Status(t + WriteOps(c, c.k.accCtl, c.k.size4Byte) + WriteOps(c, c.k.accWdat, Lo32(value)) +
             ReadOps(c, c.k.accCtl) + WriteOps(c, c.k.accWdat, Hi32(value)), 0)
    ensures |WriteTransfer(c, t, value).trace| == |t| + 4 * AccessLen(c)
  {
    var L := AccessLen(c);
    OpsLength(c, c.k.accCtl, c.k.size4Byte);
    OpsLength(c, c.k.accWdat, Lo32(value));
    OpsLength(c, c.k.accWdat, Hi32(value));
    var t1 := t + WriteOps(c, c.k.accCtl, c.k.size4Byte);
    QuietWithin(c.env, w, |t|, |t| + 4 * L, |t|, |t| + L);
    CrWriteQuiet(c, w, t, c.k.accCtl, c.k.size4Byte);
    var t2 := t1 + WriteOps(c, c.k.accWdat, Lo32(value));
    QuietWithin(c.env, w, |t|, |t| + 4 * L, |t1|, |t1| + L);
    CrWriteQuiet(c, w, t1, c.k.accWdat, Lo32(value));
    var t3 := t2 + ReadOps(c, c.k.accCtl);
    QuietWithin(c.env, w, |t|, |t| + 4 * L, |t2|, |t2| + L);
    PendingWaitQuiet(c, w, t2);
    QuietWithin(c.env, w, |t|, |t| + 4 * L, |t3|, |t3| + L);
    CrWriteQuiet(c, w, t3, c.k.accWdat, Hi32(value));
  }

  /**
   * A BlueField-1 widget read on an ideal bus: one pending wait, then the
   * transfer; no interlock access at all.
   */
  lemma IdealReadBlueField1(c: Ctx, w: bv32, t: seq<Op>, addr: bv32)
    requires c.rev == BlueField1 && Ready(c, w) && !Masked(Swap32(w), c.k.pending)
    requires Quiet(c.env, w, |t|, |t| + 98)
    ensures ByteAccRead(c, t, addr) ==
      Reading(t + ReadOps(c, c.k.accCtl) +
              WriteOps(c, c.k.accAddr, addr) + WriteOps(c, c.k.accCtl, ReadCtlWord(c.k)) +
              ReadOps(c, c.k.accCtl) + ReadOps(c, c.k.accRdat) + ReadOps(c, c.k.accCtl) + ReadOps(c, c.k.accRdat),
              0, Some(Combine(Swap32(w), Swap32(w))))
  {
    OpsLength(c, c.k.accCtl, 0);
    QuietWithin(c.env, w, |t|, |t| + 98, |t|, |t| + 14);
    PendingWaitQuiet(c, w, t);
    var t1 := t + ReadOps(c, c.k.accCtl);
    QuietWithin(c.env, w, |t|, |t| + 98, |t1|, |t1| + 84);
    ReadTransferQuiet(c, w, t1, addr);
  }

  /** A BlueField-2 widget read whose wait and acquire succeed is the transfer followed by the release. */
  lemma ReadAfterInterlock(c: Ctx, t: seq<Op>, addr: bv32, t1: seq<Op>, t2: seq<Op>,
                           x: Reading<Option<bv64>>, rel: Status)
    requires c.rev == BlueField2
    requires PendingWait(c, t) == Status(t1, 0) && InterlockAcquire(c, t1) == Status(t2, 0)
    requires ReadTransfer(c, t2, addr) == x && InterlockRelease(c, x.trace) == rel
    ensures ByteAccRead(c, t, addr) == Reading(rel.trace, rel.rc, x.value)
  {
  }

  /** A BlueField-2 widget write whose acquire and address succeed is the transfer followed by the release. */
  lemma WriteAfterInterlock(c: Ctx, t: seq<Op>, addr: bv32, value: bv64, t1: seq<Op>, t2: seq<Op>, x: Status)
    requires c.rev == BlueField2
    requires InterlockAcquire(c, t) == Status(t1, 0) && CrWrite(c, t1, c.k.accAddr, addr) == Status(t2, 0)
    requires WriteTransfer(c, t2, value) == x
    ensures ByteAccWrite(c, t, addr, value) == InterlockRelease(c, x.trace)
  {
  }

  /**
   * A BlueField-2 widget read on an ideal bus: pending wait, interlock
   * acquire, the transfer, and the interlock release as the last access.
   */
  lemma IdealReadBlueField2(c: Ctx, w: bv32, t: seq<Op>, addr: bv32)
    requires c.rev == BlueField2 && Ready(c, w) && !Masked(w, c.k.pending) && Masked(w, INTERLOCK_TAKEN)
    requires Quiet(c.env, w, |t|, |t| + 18)
    ensures ByteAccRead(c, t, addr) ==
      Reading(t + ReadOps(c, c.k.accCtl) + ReadOps(c, c.k.accInterlock) +
              WriteOps(c, c.k.accAddr, addr) + WriteOps(c, c.k.accCtl, ReadCtlWord(c.k)) +
              ReadOps(c, c.k.accCtl) + ReadOps(c, c.k.accRdat) + ReadOps(c, c.k.accCtl) + ReadOps(c, c.k.accRdat) +
              WriteOps(c, c.k.accInterlock, 0),
              0, Some(Combine(w, w)))
  {
    OpsLength(c, c.k.accCtl, 0);
    OpsLength(c, c.k.accInterlock, 0);
    QuietWithin(c.env, w, |t|, |t| + 18, |t|, |t| + 2);
    PendingWaitQuiet(c, w, t);
    var t1 := t + ReadOps(c, c.k.accCtl);
    QuietWithin(c.env, w, |t|, |t| + 18, |t1|, |t1| + 2);
    InterlockAcquireQuiet(c, w, t1);
    var t2 := t1 + ReadOps(c, c.k.accInterlock);
    QuietWithin(c.env, w, |t|, |t| + 18, |t2|, |t2| + 12);
    ReadTransferQuiet(c, w, t2, addr);
    var x := ReadTransfer(c, t2, addr);
    QuietWithin(c.env, w, |t|, |t| + 18, |x.trace|, |x.trace| + 2);
    CrWriteQuiet(c, w, x.trace, c.k.accInterlock, 0);
    ReadAfterInterlock(c, t, addr, t1, t2, x, InterlockRelease(c, x.trace));
  }

  /** A BlueField-1 widget write on an ideal bus: the address, then the transfer. */
  lemma IdealWriteBlueField1(c: Ctx, w: bv32, t: seq<Op>, addr: bv32, value: bv64)
    requires c.rev == BlueField1 && Ready(c, w) && !Masked(Swap32(w), c.k.pending)
    requires Quiet(c.env, w, |t|, |t| + 70)
    ensures ByteAccWrite(c, t, addr, value) ==
      Status(t + WriteOps(c, c.k.accAddr, addr) +
             WriteOps(c, c.k.accCtl, c.k.size4Byte) + WriteOps(c, c.k.accWdat, Lo32(value)) +
             ReadOps(c, c.k.accCtl) + WriteOps(c, c.k.accWdat, Hi32(value)), 0)
  {
    OpsLength(c, c.k.accAddr, addr);
    QuietWithin(c.env, w, |t|, |t| + 70, |t|, |t| + 14);
    CrWriteQuiet(c, w, t, c.k.accAddr, addr);
    var t1 := t + WriteOps(c, c.k.accAddr, addr);
    QuietWithin(c.env, w, |t|, |t| + 70, |t1|, |t1| + 56);
    WriteTransferQuiet(c, w, t1, value);
  }

  /**
   * A BlueField-2 widget write on an ideal bus: interlock acquire, address,
   * the transfer, and the interlock release as the last access.
   */
  lemma IdealWriteBlueField2(c: Ctx, w: bv32, t: seq<Op>, addr: bv32, value: bv64)
    requires c.rev == BlueField2 && Ready(c, w) && !Masked(w, c.k.pending) && Masked(w, INTERLOCK_TAKEN)
    requires Quiet(c.env, w, |t|, |t| + 14)
    ensures ByteAccWrite(c, t, addr, value) ==
      Status(t + ReadOps(c, c.k.accInterlock) + WriteOps(c, c.k.accAddr, addr) +
             WriteOps(c, c.k.accCtl, c.k.size4Byte) + WriteOps(c, c.k.accWdat, Lo32(value)) +
             ReadOps(c, c.k.accCtl) + WriteOps(c, c.k.accWdat, Hi32(value)) +
             WriteOps(c, c.k.accInterlock, 0), 0)
  {
    OpsLength(c, c.k.accInterlock, 0);
    OpsLength(c, c.k.accAddr, addr);
    QuietWithin(c.env, w, |t|, |t| + 14, |t|, |t| + 2);
    InterlockAcquireQuiet(c, w, t);
    var t1 := t + ReadOps(c, c.k.accInterlock);
    QuietWithin(c.env, w, |t|, |t| + 14, |t1|, |t1| + 2);
    CrWriteQuiet(c, w, t1, c.k.accAddr, addr);
    var t2 := t1 + WriteOps(c, c.k.accAddr, addr);
    QuietWithin(c.env, w, |t|, |t| + 14, |t2|, |t2| + 8);
    WriteTransferQuiet(c, w, t2, value);
    var x := WriteTransfer(c, t2, value);
    QuietWithin(c.env, w, |t|, |t| + 14, |x.trace|, |x.trace| + 2);
    CrWriteQuiet(c, w, x.trace, c.k.accInterlock, 0);
    WriteAfterInterlock(c, t, addr, value, t1, t2, x);
  }

  /**
   * BlueField-2 read: when the address write of the transfer fails, the
   * interlock release that follows succeeds and its code replaces the
   * failure, so the read reports success with no value.
   */
  lemma ReadFaultMasked(c: Ctx, w: bv32, t: seq<Op>, addr: bv32)
    requires c.rev == BlueField2 && Ready(c, w) && !Masked(w, c.k.pending) && Masked(w, INTERLOCK_TAKEN)
    requires Quiet(c.env, w, |t|, |t| + 4) && Quiet(c.env, w, |t| + 5, |t| + 7)
    requires c.env(t + ReadOps(c, c.k.accCtl) + ReadOps(c, c.k.accInterlock) + [CfgWrite(MELLANOX_DATA, addr)]).rc < 0
    ensures ByteAccRead(c, t, addr) ==
      Reading(t + ReadOps(c, c.k.accCtl) + ReadOps(c, c.k.accInterlock) + [CfgWrite(MELLANOX_DATA, addr)] +
              WriteOps(c, c.k.accInterlock, 0), 0, None)
  {
    OpsLength(c, c.k.accCtl, 0);
    OpsLength(c, c.k.accInterlock, 0);
    QuietWithin(c.env, w, |t|, |t| + 4, |t|, |t| + 2);
    PendingWaitQuiet(c, w, t);
    var t1 := t + ReadOps(c, c.k.accCtl);
    QuietWithin(c.env, w, |t|, |t| + 4, |t1|, |t1| + 2);
    InterlockAcquireQuiet(c, w, t1);
    var t2 := t1 + ReadOps(c, c.k.accInterlock);
    var h := t2 + [CfgWrite(MELLANOX_DATA, addr)];
    CrWriteFailsFirst(c, t2, c.k.accAddr, addr);
    var x := Reading(h, c.env(h).rc, None);
    assert ReadTransfer(c, t2, addr) == x;
    CrWriteQuiet(c, w, h, c.k.accInterlock, 0);
    ReadAfterInterlock(c, t, addr, t1, t2, x, InterlockRelease(c, h));
  }

  /**
   * BlueField-2 write: when the address write fails the write returns that
   * failure at once, and no release follows the interlock acquire.
   */
  lemma WriteAddressFaultKeepsInterlock(c: Ctx, w: bv32, t: seq<Op>, addr: bv32, value: bv64)
    requires c.rev == BlueField2 && Ready(c, w) && Masked(w, INTERLOCK_TAKEN)
    requires Quiet(c.env, w, |t|, |t| + 2)
    requires c.env(t + ReadOps(c, c.k.accInterlock) + [CfgWrite(MELLANOX_DATA, addr)]).rc < 0
    ensures var h := t + ReadOps(c, c.k.accInterlock) + [CfgWrite(MELLANOX_DATA, addr)];
      ByteAccWrite(c, t, addr, value) == Status(h, c.env(h).rc)
  {
    InterlockAcquireQuiet(c, w, t);
    CrWriteFailsFirst(c, t + ReadOps(c, c.k.accInterlock), c.k.accAddr, addr);
  }

  /**
   * BlueField-2 write: when the size control write fails, the release that
   * follows succeeds and the write reports success.
   */
  lemma WriteFaultMasked(c: Ctx, w: bv32, t: seq<Op>, addr: bv32, value: bv64)
    requires c.rev == BlueField2 && Ready(c, w) && Masked(w, INTERLOCK_TAKEN)
    requires Quiet(c.env, w, |t|, |t| + 4) && Quiet(c.env, w, |t| + 5, |t| + 7)
    requires c.env(t + ReadOps(c, c.k.accInterlock) + WriteOps(c, c.k.accAddr, addr) +
                   [CfgWrite(MELLANOX_DATA, c.k.size4Byte)]).rc < 0
    ensures ByteAccWrite(c, t, addr, value) ==
      Status(t + ReadOps(c, c.k.accInterlock) + WriteOps(c, c.k.accAddr, addr) +
             [CfgWrite(MELLANOX_DATA, c.k.size4Byte)] + WriteOps(c, c.k.accInterlock, 0), 0)
  {
    OpsLength(c, c.k.accInterlock, 0);
    OpsLength(c, c.k.accAddr, addr);
    QuietWithin(c.env, w, |t|, |t| + 4, |t|, |t| + 2);
    InterlockAcquireQuiet(c, w, t);
    var t1 := t + ReadOps(c, c.k.accInterlock);
    QuietWithin(c.env, w, |t|, |t| + 4, |t1|, |t1| + 2);
    CrWriteQuiet(c, w, t1, c.k.accAddr, addr);
    var t2 := t1 + WriteOps(c, c.k.accAddr, addr);
    var h := t2 + [CfgWrite(MELLANOX_DATA, c.k.size4Byte)];
    CrWriteFailsFirst(c, t2, c.k.accCtl, c.k.size4Byte);
    assert WriteTransfer(c, t2, value) == Status(h, c.env(h).rc);
    CrWriteQuiet(c, w, h, c.k.accInterlock, 0);
    WriteAfterInterlock(c, t, addr, value, t1, t2, Status(h, c.env(h).rc));
  }

  /**
   * A concrete instance on the scripted bus: with the fifth transaction of
   * a BlueField-2 read failing, the read still returns 0 and no value.
   */
  lemma ReadFaultMaskedExample(k: Consts, t: seq<Op>, addr: bv32)
    requires k.lockRetryCnt >= 1 && k.pending & 1 == 0
    ensures var c := Ctx(FaultyBus(1, |t| + 5, -ETIMEDOUT), BlueField2, k);
      ByteAccRead(c, t, addr) ==
        Reading(t + ReadOps(c, k.accCtl) + ReadOps(c, k.accInterlock) + [CfgWrite(MELLANOX_DATA, addr)] +
                WriteOps(c, k.accInterlock, 0), 0, None)
  {
    var c := Ctx(FaultyBus(1, |t| + 5, -ETIMEDOUT), BlueField2, k);
    FaultyBusQuiet(1, |t| + 5, -ETIMEDOUT, |t|, |t| + 4);
    FaultyBusQuiet(1, |t| + 5, -ETIMEDOUT, |t| + 5, |t| + 7);
    OpsLength(c, k.accCtl, 0);
    OpsLength(c, k.accInterlock, 0);
    ReadFaultMasked(c, 1, t, addr);
  }
}
