/** Byte strings and the fixed-width little-endian integers written into them. */
module ByteStrings {
  import opened Arithmetic

  type byte = x: int | 0 <= x < 256

  type Bytes = seq<byte>

  /** A 256-bit digest. */
  type Digest = b: Bytes | |b| == 32 witness seq(32, _ => 0)

  const U32_LIMIT: nat := 0x1_0000_0000
  const U64_LIMIT: nat := 0x1_0000_0000_0000_0000

  /** The low `width` bytes of `value`, least significant first (`to_le_bytes`). */
  function LittleEndian(value: nat, width: nat): (r: Bytes)
    ensures |r| == width
  {
    if width == 0 then [] else [value % 256] + LittleEndian(value / 256, width - 1)
  }

  /** `from_le_bytes`. */
  function FromLittleEndian(bytes: Bytes): nat {
    if bytes == [] then 0 else bytes[0] + 256 * FromLittleEndian(bytes[1..])
  }

  function Power256(width: nat): (r: nat)
    ensures r >= 1
  {
    if width == 0 then 1 else 256 * Power256(width - 1)
  }

  /** Byte `i` weighs 256^i. */
  lemma {:induction false} LittleEndianBytes(value: nat, width: nat, i: nat)
    requires i < width
    ensures LittleEndian(value, width)[i] == (value / Power256(i)) % 256
  {
    if i == 0 {
      assert value / 1 == value;
    } else {
      LittleEndianBytes(value / 256, width - 1, i - 1);
      NestedDivision(value, 256, Power256(i - 1));
    }
  }

  lemma {:induction false} FromToLittleEndian(value: nat, width: nat)
    requires value < Power256(width)
    ensures FromLittleEndian(LittleEndian(value, width)) == value
  {
    if width > 0 {
      FromToLittleEndian(value / 256, width - 1);
      assert LittleEndian(value, width)[1..] == LittleEndian(value / 256, width - 1);
    }
  }

  lemma {:induction false} ToFromLittleEndian(bytes: Bytes)
    ensures LittleEndian(FromLittleEndian(bytes), |bytes|) == bytes
    ensures FromLittleEndian(bytes) < Power256(|bytes|)
  {
    if bytes != [] {
      var rest := FromLittleEndian(bytes[1..]);
      ToFromLittleEndian(bytes[1..]);
      FirstByte(bytes[0], rest, |bytes|);
      assert [bytes[0]] + bytes[1..] == bytes;
    }
  }

  lemma FirstByte(first: byte, rest: nat, width: nat)
    requires width > 0
    ensures LittleEndian(first + 256 * rest, width) == [first] + LittleEndian(rest, width - 1)
  {
    DivMod(first + 256 * rest, rest, first, 256);
  }

  lemma WordSizes()
    ensures Power256(4) == U32_LIMIT && Power256(8) == U64_LIMIT
  {
    assert Power256(2) == 256 * Power256(1);
    assert Power256(4) == 256 * (256 * Power256(2));
    assert Power256(6) == 256 * (256 * Power256(4));
    assert Power256(8) == 256 * (256 * Power256(6));
  }
}
