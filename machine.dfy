/**
 * Fixed-width integers of the C++ program: the 32-bit vertex index
 * (`index_type`), `size_t`, the signed 16-bit terrain sample and raw bytes,
 * with the conversions the source performs on them written out.
 */
module Machine {

  const U32Limit: nat := 0x1_0000_0000
  const SizeTLimit: nat := 0x1_0000_0000_0000_0000

  type U32 = x: int | 0 <= x < 0x1_0000_0000
  type SizeT = x: int | 0 <= x < 0x1_0000_0000_0000_0000
  type Int16 = x: int | -0x8000 <= x < 0x8000
  type Int32 = x: int | -0x8000_0000 <= x < 0x8000_0000
  type Byte = x: int | 0 <= x < 0x100

  /** The `(uint32_t)` cast of a count: exact below 2^32, never larger than its argument. */
  function ToU32(n: nat): (r: U32)
    ensures n < U32Limit ==> r == n
    ensures r <= n
    ensures (n - r) % U32Limit == 0
  {
    n % U32Limit
  }

  /**
   * Subtracting one in 32-bit unsigned arithmetic from the cast count gives
   * the cast of the count minus one, also when the cast count is zero.
   */
  lemma ToU32Decrement(n: nat)
    requires n >= 1
    ensures (ToU32(n) + U32Limit - 1) % U32Limit == ToU32(n - 1)
  {
    var q := n / U32Limit;
    assert n == q * U32Limit + ToU32(n);
    if ToU32(n) == 0 {
      assert n - 1 == (q - 1) * U32Limit + (U32Limit - 1);
    } else {
      assert n - 1 == q * U32Limit + (ToU32(n) - 1);
    }
  }

  /** Conversion of a (possibly negative) difference to `size_t`: two's-complement wrap. */
  function ToSizeT(n: int): (r: SizeT)
    ensures 0 <= n < SizeTLimit ==> r == n
    ensures (n - r) % SizeTLimit == 0
  {
    n % SizeTLimit
  }

  /** Unsigned little-endian 16-bit word at byte offset `at`. */
  function LeU16(bytes: seq<Byte>, at: nat): (r: nat)
    requires at + 2 <= |bytes|
    ensures r < 0x1_0000
    ensures r % 0x100 == bytes[at] && r / 0x100 == bytes[at + 1]
  {
    bytes[at] as int + 0x100 * bytes[at + 1] as int
  }

  /** Unsigned little-endian 32-bit word at byte offset `at` (the bit pattern of a `float`). */
  function LeU32(bytes: seq<Byte>, at: nat): (r: U32)
    requires at + 4 <= |bytes|
    ensures r % 0x1_0000 == LeU16(bytes, at) && r / 0x1_0000 == LeU16(bytes, at + 2)
  {
    LeU16(bytes, at) + 0x1_0000 * LeU16(bytes, at + 2)
  }

  /** Reinterpretation of a 16-bit pattern as `int16_t`: same bits, sign from the top bit. */
  function AsInt16(bits: nat): (r: Int16)
    requires bits < 0x1_0000
    ensures (r - bits) % 0x1_0000 == 0
    ensures r < 0 <==> bits >= 0x8000
  {
    if bits < 0x8000 then bits else bits - 0x1_0000
  }
}
