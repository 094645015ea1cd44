/**
 * The boundary to libpci: 32-bit configuration-space transactions on the
 * PCI function of one BlueField card.  Every transaction is appended to a
 * trace; the answer the hardware gives (the return code of a write, the
 * word returned by a read) is drawn from an environment that sees the whole
 * history, so a fault can be injected at any step.
 */
module Bus {

  /** Offsets of the vendor address and data registers in configuration space. */
  const MELLANOX_ADDR: int := 0x58
  const MELLANOX_DATA: int := 0x5c

  /** Linux errno values returned (negated) by the driver. */
  const ETIMEDOUT: int := 110
  const ENODEV: int := 19

  /** The two device revisions the driver attaches to (device ids 0x0211 and 0x0214). */
  datatype Revision = BlueField1 | BlueField2

  /** One observable step: a `pci_write_long`, a `pci_read_long`, or a memory barrier. */
  datatype Op =
    | CfgWrite(pos: int, data: bv32)
    | CfgRead(pos: int)
    | Barrier

  /** The hardware's answer to a transaction: `rc` for a write, `word` for a read. */
  datatype Reply = Reply(rc: int, word: bv32)

  /** The reply to the last transaction of a history (the history includes it). */
  type Env = seq<Op> -> Reply

  /** Result of an operation that only reports success (0) or a negative error code. */
  datatype Status = Status(trace: seq<Op>, rc: int)

  /** Result of an operation that also delivers a value through an out-parameter. */
  datatype Reading<T> = Reading(trace: seq<Op>, rc: int, value: T)

  datatype Option<T> = None | Some(value: T)

  /** A PCI function as libpci exposes it: its device id and its configuration space. */
  class PciDev {
    const deviceId: Revision
    const env: Env
    var trace: seq<Op>

    constructor (deviceId: Revision, env: Env)
      ensures this.deviceId == deviceId && this.env == env && trace == []
    {
      this.deviceId := deviceId;
      this.env := env;
      trace := [];
    }

    /** `pci_write_long`: a negative result is a failure. */
    method PciWriteLong(pos: int, data: bv32) returns (rc: int)
      modifies this
      ensures trace == old(trace) + [CfgWrite(pos, data)]
      ensures rc == env(trace).rc
    {
      trace := trace + [CfgWrite(pos, data)];
      rc := env(trace).rc;
    }

    /** `pci_read_long`: cannot fail. */
    method PciReadLong(pos: int) returns (v: bv32)
      modifies this
      ensures trace == old(trace) + [CfgRead(pos)]
      ensures v == env(trace).word
    {
      trace := trace + [CfgRead(pos)];
      v := env(trace).word;
    }

    /** `__sync_synchronize`, recorded as a marker only. */
    method Synchronize()
      modifies this
      ensures trace == old(trace) + [Barrier]
    {
      trace := trace + [Barrier];
    }
  }
}
