/**
 * Register offsets and bit patterns.  The CR gateway registers are fixed by
 * the driver itself; the rshim register map (channel bases, Byte Access
 * Widget registers, boot FIFO, scratchpad, retry bound) comes from the
 * driver's `rshim.h` and is kept abstract in `Consts`.
 */
module Registers {
  import opened Bus

  /** Read bit OR-ed into an offset written to the vendor address register. */
  const MELLANOX_CAP_READ: bv32 := 0x1

  /** TRIO_CR_GATEWAY registers. */
  const TRIO_CR_GW_LOCK: bv32 := 0xe38a0
  const TRIO_CR_GW_DATA_LOWER: bv32 := 0xe38b0
  const TRIO_CR_GW_CTL: bv32 := 0xe38b4
  const TRIO_CR_GW_ADDR_LOWER: bv32 := 0xe38bc
  const TRIO_CR_GW_LOCK_ACQUIRED: bv32 := 0x8000_0000
  const TRIO_CR_GW_LOCK_RELEASE: bv32 := 0x0
  const TRIO_CR_GW_TRIGGER: bv32 := 0xe000_0000
  const TRIO_CR_GW_READ_4BYTE: bv32 := 0x6
  const TRIO_CR_GW_WRITE_4BYTE: bv32 := 0x2

  /** Base of the direct rshim window on BlueField-2. */
  const CRSPACE_RSH_CHANNEL1_BASE: bv32 := 0x31_0000

  /** The constants of `rshim.h` the protocol uses, left as parameters. */
  datatype Consts = Consts(
    lockRetryCnt: nat,         // LOCK_RETRY_CNT
    channelBase: int -> bv32,  // RSH_CHANNEL_BASE(chan)
    rshimChannel: int,         // RSHIM_CHANNEL
    bootFifoData: bv32,        // RSH_BOOT_FIFO_DATA
    scratchpad: bv32,          // RSH_SCRATCHPAD
    accCtl: bv32,              // RSH_BYTE_ACC_CTL
    accAddr: bv32,             // RSH_BYTE_ACC_ADDR
    accRdat: bv32,             // RSH_BYTE_ACC_RDAT
    accWdat: bv32,             // RSH_BYTE_ACC_WDAT
    accInterlock: bv32,        // RSH_BYTE_ACC_INTERLOCK
    pending: bv32,             // RSH_BYTE_ACC_PENDING
    readTrigger: bv32,         // RSH_BYTE_ACC_READ_TRIGGER
    size4Byte: bv32            // RSH_BYTE_ACC_SIZE_4BYTE
  )

  /** Everything one access depends on: the bus, the device revision, the constants. */
  datatype Ctx = Ctx(env: Env, rev: Revision, k: Consts)
}
