/**
 * Fixed-width unsigned integers and the two big-endian codecs the
 * synthesizers use (Go's encoding/binary.BigEndian, 2 and 4 bytes).
 */
module BigEndian {

  type u8 = x: int | 0 <= x < 0x100
  type u16 = x: int | 0 <= x < 0x1_0000
  type u32 = x: int | 0 <= x < 0x1_0000_0000

  /** BigEndian.Uint16: the first two bytes, most significant first. */
  function Uint16(b: seq<u8>): u16
    requires |b| >= 2
  {
    (b[0] as int) * 0x100 + (b[1] as int)
  }

  /** BigEndian.PutUint16 into a fresh 2-byte buffer. */
  function PutUint16(v: u16): (b: seq<u8>)
    ensures |b| == 2
    ensures Uint16(b) == v
  {
    [v / 0x100, v % 0x100]
  }

  /** BigEndian.Uint32: the first four bytes, most significant first. */
  function Uint32(b: seq<u8>): u32
    requires |b| >= 4
  {
    (Uint16(b[..2]) as int) * 0x1_0000 + (Uint16(b[2..4]) as int)
  }

  /** BigEndian.PutUint32 into a fresh 4-byte buffer. */
  function PutUint32(v: u32): (b: seq<u8>)
    ensures |b| == 4
    ensures Uint32(b) == v
  {
    var hi := PutUint16(v / 0x1_0000);
    var lo := PutUint16(v % 0x1_0000);
    assert (hi + lo)[..2] == hi && (hi + lo)[2..4] == lo;
    hi + lo
  }
}
