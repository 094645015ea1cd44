/**
 * The pure arithmetic of the protocol: `htonl`/`ntohl` on a little-endian
 * host, and the split of a 64-bit register value into two 32-bit words and
 * their recombination.
 */
module Words {

  /** Byte `i` (0 is the least significant) of a word. */
  function Byte(x: bv32, i: nat): bv8
    requires i < 4
  {
    match i
    case 0 => (x & 0xff) as bv8
    case 1 => ((x >> 8) & 0xff) as bv8
    case 2 => ((x >> 16) & 0xff) as bv8
    case _ => (x >> 24) as bv8
  }

  /** `htonl` (and `ntohl`) on a little-endian host: reverse the four bytes. */
  function Swap32(x: bv32): bv32 {
    (x << 24) | ((x << 8) & 0x00ff_0000) | ((x >> 8) & 0x0000_ff00) | (x >> 24)
  }

  /** The conversion reverses the bytes of the word. */
  lemma Swap32Reverses(x: bv32)
    ensures Byte(Swap32(x), 0) == Byte(x, 3) && Byte(Swap32(x), 1) == Byte(x, 2)
    ensures Byte(Swap32(x), 2) == Byte(x, 1) && Byte(Swap32(x), 3) == Byte(x, 0)
  {
  }

  /** `ntohl(htonl(v)) == v`: the conversion is its own inverse. */
  lemma Swap32Involution(x: bv32)
    ensures Swap32(Swap32(x)) == x
  {
  }

  /** `(uint32_t)value`: the low word of a 64-bit value. */
  function Lo32(v: bv64): bv32 {
    (v & 0xffff_ffff) as bv32
  }

  /** `(uint32_t)(value >> 32)`: the high word of a 64-bit value. */
  function Hi32(v: bv64): bv32 {
    (v >> 32) as bv32
  }

  /** `low | ((u64)high << 32)`: two words read back as one 64-bit value. */
  function Combine(lo: bv32, hi: bv32): bv64 {
    (lo as bv64) | ((hi as bv64) << 32)
  }

  /** Splitting a value and recombining its words gives the value back. */
  lemma SplitCombine(v: bv64)
    ensures Combine(Lo32(v), Hi32(v)) == v
  {
  }

  /** Recombined words split back into the same two words. */
  lemma CombineSplit(lo: bv32, hi: bv32)
    ensures Lo32(Combine(lo, hi)) == lo && Hi32(Combine(lo, hi)) == hi
  {
  }
}
