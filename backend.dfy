/**
 * The backend entry points the rshim core calls (`rshim_pcie_read`,
 * `rshim_pcie_write`) and the boot FIFO writer.  The dispatcher checks that
 * the rshim is present, keeps the BlueField-1 write throttle in the 8-bit
 * per-device counter `write_count`, and routes boot stream writes around the
 * byte access widget.
 */
module Backend {
  import opened Bus
  import opened Registers
  import opened Words
  import opened CrSpace
  import opened ByteAccess
  import opened ScriptedBus

  /** `u8`: the width of `write_count`. */
  newtype u8 = x: int | 0 <= x < 256

  /** `write_count++` on a `u8`, wrapping at 256. */
  function Inc(x: u8): u8 {
    ((x as int + 1) % 256) as u8
  }

  /** `RSH_CHANNEL_BASE(chan) + addr`, as a 32-bit CR-space address. */
  function ChanAddr(k: Consts, chan: int, addr: bv32): bv32 {
    k.channelBase(chan) + addr
  }

  /** What a backend call returns: bus trace, return code, out-value and the new `write_count`. */
  datatype Outcome<T> = Outcome(trace: seq<Op>, rc: int, value: T, writeCount: u8)

  /**
   * `rshim_boot_fifo_write`: the low word, then the high word, both as plain
   * 4-byte CR-space writes to the same address; a failed low write
   * suppresses the high one.
   */
  function FifoWrite(c: Ctx, t: seq<Op>, addr: bv32, value: bv64): Status {
    var lo := CrWrite(c, t, addr, Lo32(value));
    if lo.rc != 0 then lo
    else CrWrite(c, lo.trace, addr, Hi32(value))
  }

  /** `rshim_pcie_read`. */
  function BackendRead(c: Ctx, hasRshim: bool, count: u8, t: seq<Op>, chan: int, addr: bv32): Outcome<Option<bv64>> {
    if !hasRshim then Outcome(t, -ENODEV, None, count)
    else
      var r := ByteAccRead(c, t, ChanAddr(c.k, chan, addr));
      Outcome(r.trace, r.rc, r.value, 0)
  }

  /** The data path of `rshim_pcie_write` once the throttle is done. */
  function Route(c: Ctx, t: seq<Op>, chan: int, addr: bv32, value: bv64): Status {
    if addr == c.k.bootFifoData then FifoWrite(c, t, ChanAddr(c.k, chan, addr), value)
    else ByteAccWrite(c, t, ChanAddr(c.k, chan, addr), value)
  }

  /** `rshim_pcie_write`; the drain read's result and return code are ignored. */
  function BackendWrite(c: Ctx, hasRshim: bool, count: u8, t: seq<Op>, chan: int, addr: bv32, value: bv64): Outcome<()> {
    if !hasRshim then Outcome(t, -ENODEV, (), count)
    else if c.rev == BlueField1 then
      var drain := if count == 7 then BackendRead(c, hasRshim, count, t + [Barrier], chan, c.k.scratchpad)
                   else Outcome(t, 0, None, count);
      var s := Route(c, drain.trace, chan, addr, value);
      Outcome(s.trace, s.rc, (), Inc(drain.writeCount))
    else
      var s := Route(c, t, chan, addr, value);
      Outcome(s.trace, s.rc, (), count)
  }

  /** The throttle as a counter: the value of `write_count` after one BlueField-1 write. */
  function Throttle(count: u8): u8 {
    if count == 7 then 1 else Inc(count)
  }

  /** `write_count` after `n` BlueField-1 writes in a row starting from `count`. */
  function ThrottleAfter(count: u8, n: nat): u8 {
    if n == 0 then count else Throttle(ThrottleAfter(count, n - 1))
  }

  /** Without an rshim both entry points return `-ENODEV`, touch nothing and keep the counter. */
  lemma NoRshim(c: Ctx, count: u8, t: seq<Op>, chan: int, addr: bv32, value: bv64)
    ensures BackendRead(c, false, count, t, chan, addr) == Outcome(t, -ENODEV, None, count)
    ensures BackendWrite(c, false, count, t, chan, addr, value) == Outcome(t, -ENODEV, (), count)
  {
  }

  /** A read with the rshim present clears the counter and is a widget read of the channel address. */
  lemma ReadResetsCount(c: Ctx, count: u8, t: seq<Op>, chan: int, addr: bv32)
    ensures var o := BackendRead(c, true, count, t, chan, addr);
      var r := ByteAccRead(c, t, ChanAddr(c.k, chan, addr));
      o.writeCount == 0 && o.trace == r.trace && o.rc == r.rc && o.value == r.value
  {
  }

  /**
   * The counter after a write is the throttle's next value on BlueField-1
   * and unchanged on BlueField-2, whatever the bus answers.  The drain read
   * (barrier first, then a widget read of the scratchpad on the same
   * channel) happens exactly when a BlueField-1 write finds the counter at 7.
   */
  lemma WriteThrottle(c: Ctx, count: u8, t: seq<Op>, chan: int, addr: bv32, value: bv64)
    ensures var o := BackendWrite(c, true, count, t, chan, addr, value);
      o.writeCount == (if c.rev == BlueField1 then Throttle(count) else count) &&
      var start := if c.rev == BlueField1 && count == 7
                   then ByteAccRead(c, t + [Barrier], ChanAddr(c.k, chan, c.k.scratchpad)).trace
                   else t;
      o.trace == Route(c, start, chan, addr, value).trace && o.rc == Route(c, start, chan, addr, value).rc
  {
  }

  /** The throttle keeps the counter within 1..7 once it is within 0..7. */
  lemma ThrottleBounded(count: u8)
    requires count <= 7
    ensures 1 <= Throttle(count) <= 7
  {
  }

  /**
   * From a cleared counter the throttle cycles 1, 2, ..., 7, 1, ...: after
   * the `n`-th write (`n >= 1`) the counter is `(n - 1) % 7 + 1`, so a drain
   * read precedes exactly the writes numbered 8, 15, 22, ...
   */
  lemma {:induction false} DrainPeriod(n: nat)
    requires n >= 1
    ensures ThrottleAfter(0, n) as int == (n - 1) % 7 + 1
  {
    if n > 1 {
      DrainPeriod(n - 1);
    }
  }

  /** A write drains before it exactly when it is the 8th, 15th, ... since the counter was cleared. */
  lemma DrainsAt(n: nat)
    requires n >= 1
    ensures ThrottleAfter(0, n - 1) == 7 <==> n > 1 && (n - 1) % 7 == 0
  {
    if n > 1 {
      DrainPeriod(n - 1);
    }
  }

  /**
   * Boot stream writes go to the FIFO writer at the channel address; every
   * other write goes through the byte access widget.
   */
  lemma RouteChoice(c: Ctx, t: seq<Op>, chan: int, addr: bv32, value: bv64)
    ensures addr == c.k.bootFifoData ==> Route(c, t, chan, addr, value) == FifoWrite(c, t, ChanAddr(c.k, chan, addr), value)
    ensures addr != c.k.bootFifoData ==> Route(c, t, chan, addr, value) == ByteAccWrite(c, t, ChanAddr(c.k, chan, addr), value)
  {
  }

  /**
   * The FIFO writer issues the low word's write first; if it fails nothing
   * else is issued, otherwise the high word's write follows and decides the
   * result.
   */
  lemma FifoWriteOrder(c: Ctx, t: seq<Op>, addr: bv32, value: bv64)
    ensures var lo := CrWrite(c, t, addr, Lo32(value));
      var r := FifoWrite(c, t, addr, value);
      (lo.rc != 0 ==> r == lo) &&
      (lo.rc == 0 ==> r == CrWrite(c, lo.trace, addr, Hi32(value))) &&
      t < r.trace
  {
    CrWriteExtends(c, t, addr, Lo32(value));
    var lo := CrWrite(c, t, addr, Lo32(value));
    if lo.rc == 0 {
      CrWriteExtends(c, lo.trace, addr, Hi32(value));
    }
  }

  /**
   * On a quiet stretch the FIFO writer issues exactly two 4-byte writes to
   * the same address, low word first: no pending wait, no widget register
   * and no interlock.
   */
  lemma FifoWriteQuiet(c: Ctx, w: bv32, t: seq<Op>, addr: bv32, value: bv64)
    requires Ready(c, w)
    requires Quiet(c.env, w, |t|, |t| + |WriteOps(c, addr, Lo32(value))| + |WriteOps(c, addr, Hi32(value))|)
    ensures FifoWrite(c, t, addr, value) ==
      Status(t + WriteOps(c, addr, Lo32(value)) + WriteOps(c, addr, Hi32(value)), 0)
  {
    var t1 := t + WriteOps(c, addr, Lo32(value));
    var n := |WriteOps(c, addr, Lo32(value))| + |WriteOps(c, addr, Hi32(value))|;
    QuietWithin(c.env, w, |t|, |t| + n, |t|, |t1|);
    CrWriteQuiet(c, w, t, addr, Lo32(value));
    QuietWithin(c.env, w, |t|, |t| + n, |t1|, |t1| + |WriteOps(c, addr, Hi32(value))|);
    CrWriteQuiet(c, w, t1, addr, Hi32(value));
  }

  /**
   * On every bus the FIFO writer makes no use of the byte access widget:
   * with the widget's registers, pending bit and control words moved
   * anywhere, it issues the same transactions and returns the same code.
   */
  lemma FifoWriteIgnoresWidget(c: Ctx, d: Ctx, t: seq<Op>, addr: bv32, value: bv64)
    requires SameCrSpace(c, d)
    ensures FifoWrite(c, t, addr, value) == FifoWrite(d, t, addr, value)
  {
    var lo := CrWrite(c, t, addr, Lo32(value));
    CrWriteSameCrSpace(c, d, t, addr, Lo32(value));
    CrWriteSameCrSpace(c, d, lo.trace, addr, Hi32(value));
  }

  /** `rshim_boot_fifo_write` over the bus. */
  method RshimBootFifoWrite(dev: PciDev, k: Consts, addr: bv32, value: bv64) returns (rc: int)
    modifies dev
    ensures var s := FifoWrite(Ctx(dev.env, dev.deviceId, k), old(dev.trace), addr, value);
      dev.trace == s.trace && rc == s.rc
  {
    rc := CrspaceRshGwWrite(dev, k, addr, Lo32(value));
    if rc != 0 {
      return;
    }
    rc := CrspaceRshGwWrite(dev, k, addr, Hi32(value));
    if rc != 0 {
      return;
    }
    rc := 0;
  }

  /** `struct rshim_pcie`: the backend's view of one card. */
  class RshimPcie {
    const pciDev: PciDev
    const k: Consts
    var hasRshim: bool
    var writeCount: u8

    /** The bus context the accessors run in. */
    function Context(): Ctx
      reads this
    {
      Ctx(pciDev.env, pciDev.deviceId, k)
    }

    /** The throttle counter never exceeds 7. */
    predicate Valid()
      reads this
    {
      writeCount <= 7
    }

    /** The fields the probe sets on a new backend: rshim present, counter cleared. */
    constructor (pciDev: PciDev, k: Consts)
      ensures this.pciDev == pciDev && this.k == k && hasRshim && writeCount == 0 && Valid()
    {
      this.pciDev := pciDev;
      this.k := k;
      hasRshim := true;
      writeCount := 0;
    }

    /** `rshim_pcie_read`. */
    method Read(chan: int, addr: bv32) returns (rc: int, result: Option<bv64>)
      modifies this, pciDev
      ensures var o := BackendRead(old(Context()), old(hasRshim), old(writeCount), old(pciDev.trace), chan, addr);
        pciDev.trace == o.trace && rc == o.rc && result == o.value && writeCount == o.writeCount
      ensures hasRshim == old(hasRshim)
      ensures old(Valid()) ==> Valid()
    {
      if !hasRshim {
        return -ENODEV, None;
      }
      writeCount := 0;
      rc, result := RshimByteAccRead(pciDev, k, ChanAddr(k, chan, addr));
    }

    /** `rshim_pcie_write`. */
    method Write(chan: int, addr: bv32, value: bv64) returns (rc: int)
      modifies this, pciDev
      ensures var o := BackendWrite(old(Context()), old(hasRshim), old(writeCount), old(pciDev.trace), chan, addr, value);
        pciDev.trace == o.trace && rc == o.rc && writeCount == o.writeCount
      ensures hasRshim == old(hasRshim)
      ensures old(Valid()) ==> Valid()
    {
      var isBootStream := addr == k.bootFifoData;
      if !hasRshim {
        return -ENODEV;
      }
      if pciDev.deviceId == BlueField1 {
        if writeCount == 7 {
          pciDev.Synchronize();
          var ignoredRc, ignoredResult := Read(chan, k.scratchpad);
        }
        writeCount := Inc(writeCount);
      }
      if isBootStream {
        rc := RshimBootFifoWrite(pciDev, k, ChanAddr(k, chan, addr), value);
      } else {
        rc := RshimByteAccWrite(pciDev, k, ChanAddr(k, chan, addr), value);
      }
    }
  }
}
