/** Little-endian integers: `to_le_bytes` and `from_le_bytes`. */
module Binary {
  import opened Common
  import opened Json

  function Le(n: nat, width: nat): (r: Bytes)
    ensures |r| == width
    decreases width
  {
    if width == 0 then [] else [n % 256] + Le(n / 256, width - 1)
  }

  function UnLe(bytes: Bytes): nat {
    if bytes == [] then 0 else bytes[0] + 256 * UnLe(bytes[1..])
  }

  function Power(width: nat): nat {
    if width == 0 then 1 else 256 * Power(width - 1)
  }

  lemma {:induction false} LeBack(n: nat, width: nat)
    requires n < Power(width)
    ensures UnLe(Le(n, width)) == n
    decreases width
  {
    if width > 0 {
      LeBack(n / 256, width - 1);
    }
  }

  lemma Powers()
    ensures Power(2) == 0x1_0000 && Power(4) == 0x1_0000_0000 && Power(8) == U64_MAX + 1
  {
    assert Power(2) == 0x1_0000;
    assert Power(4) == 0x1_0000 * 0x1_0000;
    assert Power(6) == Power(4) * 0x1_0000;
  }

  /** A length cut to 32 bits. */
  function Le32(n: nat): (r: Bytes)
    ensures |r| == 4
  {
    Le(n % 0x1_0000_0000, 4)
  }

  lemma Le32Back(n: nat)
    requires n <= 0xFFFF_FFFF
    ensures UnLe(Le32(n)) == n
  {
    Powers();
    hide Le, UnLe, Power;
    LeBack(n, 4);
  }

  /** A signed 64-bit integer as its two's complement bits, and back. */
  function Unsigned(m: int): nat {
    m % (U64_MAX + 1)
  }

  function Signed(bits: nat): int {
    if bits < 0x8000_0000_0000_0000 then bits else bits - U64_MAX - 1
  }
}
