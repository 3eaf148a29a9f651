// Little-endian machine words, as packed and unpacked by Python's struct module.
module Words {

  newtype Byte = b: int | 0 <= b < 0x100

  type Bytes = seq<Byte>

  const LIMIT32 := 0x1_0000_0000
  const LIMIT63 := 0x8000_0000_0000_0000
  const LIMIT64 := 0x1_0000_0000_0000_0000

  type Word32 = n: int | 0 <= n < 0x1_0000_0000
  type Word64 = n: int | 0 <= n < 0x1_0000_0000_0000_0000

  // struct.pack("<I", n)
  function Pack32(n: Word32): (bs: Bytes)
    ensures |bs| == 4
  {
    [(n % 0x100) as Byte, (n / 0x100 % 0x100) as Byte, (n / 0x1_0000 % 0x100) as Byte, (n / 0x100_0000) as Byte]
  }

  // struct.unpack("<I", bs)
  function Unpack32(bs: Bytes): Word32
    requires |bs| == 4
  {
    var b0, b1, b2, b3 := bs[0] as int, bs[1] as int, bs[2] as int, bs[3] as int;
    b0 + 0x100 * (b1 + 0x100 * (b2 + 0x100 * b3))
  }

  // struct.pack("<Q", n)
  function Pack64(n: Word64): (bs: Bytes)
    ensures |bs| == 8
  {
    Pack32(n % LIMIT32) + Pack32(n / LIMIT32)
  }

  // struct.unpack("<Q", bs)
  function Unpack64(bs: Bytes): Word64
    requires |bs| == 8
  {
    Unpack32(bs[..4]) + LIMIT32 * Unpack32(bs[4..])
  }

  // struct.unpack("<q", bs): two's complement
  function UnpackSigned64(bs: Bytes): int
    requires |bs| == 8
  {
    var n := Unpack64(bs);
    if n < LIMIT63 then n else n - LIMIT64
  }

  lemma {:induction false} UnpackPack32(n: Word32)
    ensures Unpack32(Pack32(n)) == n
  {
    assert n / 0x100 / 0x100 == n / 0x1_0000 && n / 0x1_0000 / 0x100 == n / 0x100_0000;
  }

  lemma {:induction false} PackUnpack32(bs: Bytes)
    requires |bs| == 4
    ensures Pack32(Unpack32(bs)) == bs
  {
    var b0, b1, b2, b3 := bs[0] as int, bs[1] as int, bs[2] as int, bs[3] as int;
    var n := Unpack32(bs);
    assert n / 0x100 == b1 + 0x100 * (b2 + 0x100 * b3);
    assert n / 0x1_0000 == b2 + 0x100 * b3;
  }

  lemma {:induction false} UnpackPack64(n: Word64)
    ensures Unpack64(Pack64(n)) == n
  {
    UnpackPack32(n % LIMIT32);
    UnpackPack32(n / LIMIT32);
    assert Pack64(n)[..4] == Pack32(n % LIMIT32);
    assert Pack64(n)[4..] == Pack32(n / LIMIT32);
  }
}
