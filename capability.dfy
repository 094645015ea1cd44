/**
 * The capability register accessor (`pci_cap_read`, `pci_cap_write`): one
 * 32-bit access to the CR space through the vendor address register (0x58)
 * and data register (0x5c) of a hidden PCI capability.
 */
module Capability {
  import opened Bus
  import opened Registers

  /** The word written to the address register to select `offset` for reading. */
  function ReadSelect(offset: bv32): bv32 {
    offset | MELLANOX_CAP_READ
  }

  /**
   * `pci_cap_read`: select `offset` with the read bit set, then read the data
   * register.  A failed select is returned at once (the out-parameter is not
   * written; the model reports 0 for it).
   */
  function CapRead(env: Env, t: seq<Op>, offset: bv32): (r: Reading<bv32>)
    ensures r.rc <= 0
  {
    var t1 := t + [CfgWrite(MELLANOX_ADDR, ReadSelect(offset))];
    if env(t1).rc < 0 then Reading(t1, env(t1).rc, 0)
    else
      var t2 := t1 + [CfgRead(MELLANOX_DATA)];
      Reading(t2, 0, env(t2).word)
  }

  /**
   * `pci_cap_write`: stage the value in the data register, then write the
   * offset with the read bit clear.  A failed first write suppresses the second.
   */
  function CapWrite(env: Env, t: seq<Op>, offset: bv32, value: bv32): (r: Status)
    ensures r.rc <= 0
  {
    var t1 := t + [CfgWrite(MELLANOX_DATA, value)];
    if env(t1).rc < 0 then Status(t1, env(t1).rc)
    else
      var t2 := t1 + [CfgWrite(MELLANOX_ADDR, offset)];
      if env(t2).rc < 0 then Status(t2, env(t2).rc) else Status(t2, 0)
  }

  /** The two transactions of a capability read that succeeds. */
  function CapReadOps(offset: bv32): seq<Op> {
    [CfgWrite(MELLANOX_ADDR, ReadSelect(offset)), CfgRead(MELLANOX_DATA)]
  }

  /** The two transactions of a capability write that succeeds. */
  function CapWriteOps(offset: bv32, value: bv32): seq<Op> {
    [CfgWrite(MELLANOX_DATA, value), CfgWrite(MELLANOX_ADDR, offset)]
  }

  /**
   * A capability read issues the select first; it fails exactly when that
   * write fails, and then issues no read and returns the bus's code.
   * Otherwise it reads the data register once and returns what it read.
   */
  lemma CapReadOrder(env: Env, t: seq<Op>, offset: bv32)
    ensures var r := CapRead(env, t, offset);
      var sel := t + [CfgWrite(MELLANOX_ADDR, ReadSelect(offset))];
      (r.rc != 0 <==> env(sel).rc < 0) &&
      (r.rc != 0 ==> r.trace == sel && r.rc == env(sel).rc) &&
      (r.rc == 0 ==> r.trace == t + CapReadOps(offset) && r.value == env(r.trace).word)
  {
  }

  /**
   * A capability write stages the data first and the offset second; a failed
   * staging write suppresses the offset write, and the first failure's code
   * is returned.
   */
  lemma CapWriteOrder(env: Env, t: seq<Op>, offset: bv32, value: bv32)
    ensures var r := CapWrite(env, t, offset, value);
      var staged := t + [CfgWrite(MELLANOX_DATA, value)];
      (env(staged).rc < 0 ==> r == Status(staged, env(staged).rc)) &&
      (env(staged).rc >= 0 ==>
         r.trace == t + CapWriteOps(offset, value) &&
         r.rc == (if env(r.trace).rc < 0 then env(r.trace).rc else 0))
  {
  }

  /** `pci_cap_read` over the bus. */
  method PciCapRead(dev: PciDev, offset: bv32) returns (rc: int, result: bv32)
    modifies dev
    ensures var r := CapRead(dev.env, old(dev.trace), offset);
      dev.trace == r.trace && rc == r.rc && result == r.value
  {
    result := 0;
    rc := dev.PciWriteLong(MELLANOX_ADDR, ReadSelect(offset));
    if rc < 0 {
      return;
    }
    result := dev.PciReadLong(MELLANOX_DATA);
    rc := 0;
  }

  /** `pci_cap_write` over the bus. */
  method PciCapWrite(dev: PciDev, offset: bv32, value: bv32) returns (rc: int)
    modifies dev
    ensures var r := CapWrite(dev.env, old(dev.trace), offset, value);
      dev.trace == r.trace && rc == r.rc
  {
    rc := dev.PciWriteLong(MELLANOX_DATA, value);
    if rc < 0 {
      return;
    }
    rc := dev.PciWriteLong(MELLANOX_ADDR, offset);
    if rc < 0 {
      return;
    }
    rc := 0;
  }
}
