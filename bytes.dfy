/** Machine-level byte and word types, and the in-memory layout of a 32-bit
    word. The C++ code copies words in and out of byte buffers with
    `std::memcpy`, so a word's bytes are whatever the platform's native order
    makes them; this model fixes that order to little-endian. */
module Bytes {

  /** `uint8_t` */
  newtype Byte = x: int | 0 <= x < 0x100

  /** `uint32_t`, and also the raw bit pattern of a 4-byte `float` */
  newtype Uint32 = x: int | 0 <= x < 0x1_0000_0000

  const UINT32_MAX: Uint32 := 0xFFFF_FFFF

  /** The four bytes of `w` as they sit in memory, least significant first. */
  function StoreUint32(w: Uint32): (b: seq<Byte>)
    ensures |b| == 4
  {
    var n := w as int;
    [(n % 0x100) as Byte, (n / 0x100 % 0x100) as Byte,
     (n / 0x1_0000 % 0x100) as Byte, (n / 0x100_0000) as Byte]
  }

  /** The word whose in-memory representation is the four bytes `b`. */
  function LoadUint32(b: seq<Byte>): Uint32
    requires |b| == 4
  {
    (b[0] as int + 0x100 * (b[1] as int + 0x100 * (b[2] as int + 0x100 * b[3] as int))) as Uint32
  }

  /** Reading back the bytes of a stored word gives the word. */
  lemma LoadOfStore(w: Uint32)
    ensures LoadUint32(StoreUint32(w)) == w
  {
    var n := w as int;
    var n2 := n / 0x100 / 0x100;
    assert n / 0x1_0000 == n2;
    assert n / 0x100_0000 == n2 / 0x100;
  }

  /** Storing the word read from four bytes gives those bytes back. */
  lemma StoreOfLoad(b: seq<Byte>)
    requires |b| == 4
    ensures StoreUint32(LoadUint32(b)) == b
  {
    var n := LoadUint32(b) as int;
    var t3 := b[3] as int;
    var t2 := b[2] as int + 0x100 * t3;
    var t1 := b[1] as int + 0x100 * t2;
    assert n / 0x100 == t1 && n % 0x100 == b[0] as int;
    assert n / 0x1_0000 == t2;
    assert n / 0x100_0000 == t3;
    assert t1 % 0x100 == b[1] as int && t2 % 0x100 == b[2] as int;
  }

  /** Distinct words have distinct in-memory representations. */
  lemma StoreInjective(v: Uint32, w: Uint32)
    requires StoreUint32(v) == StoreUint32(w)
    ensures v == w
  {
    LoadOfStore(v);
    LoadOfStore(w);
  }
}
