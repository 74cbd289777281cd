/** Words in memory: little-endian loads from a byte sequence, their inverses, and the
    byte-by-byte gathering that a fall-through tail switch performs. */
module Bytes {

  type byte = bv8

  type pos = n: nat | 0 < n witness 1

  /** Byte i of t, or zero past its end, so that a short block reads as zero-padded. */
  function Byte(t: seq<byte>, i: nat): byte {
    if i < |t| then t[i] else 0
  }

  // ---- 64-bit words ----

  function Le64(b0: byte, b1: byte, b2: byte, b3: byte, b4: byte, b5: byte, b6: byte, b7: byte): bv64 {
    (b0 as bv64) | ((b1 as bv64) << 8) | ((b2 as bv64) << 16) | ((b3 as bv64) << 24)
    | ((b4 as bv64) << 32) | ((b5 as bv64) << 40) | ((b6 as bv64) << 48) | ((b7 as bv64) << 56)
  }

  function Octet64(k: bv64, shift: bv7): byte
    requires shift <= 64
  {
    ((k >> shift) & 0xff) as byte
  }

  /** The little-endian 64-bit word at offset `at`, zero-padded past the end of t. */
  function Load64(t: seq<byte>, at: nat): bv64 {
    Le64(Byte(t, at), Byte(t, at + 1), Byte(t, at + 2), Byte(t, at + 3),
         Byte(t, at + 4), Byte(t, at + 5), Byte(t, at + 6), Byte(t, at + 7))
  }

  function Store64(k: bv64): (t: seq<byte>)
    ensures |t| == 8
  {
    [Octet64(k, 0), Octet64(k, 8), Octet64(k, 16), Octet64(k, 24),
     Octet64(k, 32), Octet64(k, 40), Octet64(k, 48), Octet64(k, 56)]
  }

  lemma OctetsOfLe64(b0: byte, b1: byte, b2: byte, b3: byte, b4: byte, b5: byte, b6: byte, b7: byte)
    ensures var k := Le64(b0, b1, b2, b3, b4, b5, b6, b7);
            && Octet64(k, 0) == b0 && Octet64(k, 8) == b1 && Octet64(k, 16) == b2 && Octet64(k, 24) == b3
            && Octet64(k, 32) == b4 && Octet64(k, 40) == b5 && Octet64(k, 48) == b6 && Octet64(k, 56) == b7
  {
  }

  lemma Le64OfOctets(k: bv64)
    ensures Le64(Octet64(k, 0), Octet64(k, 8), Octet64(k, 16), Octet64(k, 24),
                 Octet64(k, 32), Octet64(k, 40), Octet64(k, 48), Octet64(k, 56)) == k
  {
  }

  /** One case label of the tail switch: `k ^= (uint64_t)tail[i] << shift`. */
  function Put64(k: bv64, b: byte, shift: bv7): bv64
    requires shift <= 64
  {
    k ^ ((b as bv64) << shift)
  }

  lemma PutZero64(k: bv64, shift: bv7)
    requires shift <= 64
    ensures Put64(k, 0, shift) == k
  {
  }

  /** Falling through all case labels of a word builds its little-endian value. */
  lemma Gathered64(b0: byte, b1: byte, b2: byte, b3: byte, b4: byte, b5: byte, b6: byte, b7: byte)
    ensures Put64(Put64(Put64(Put64(Put64(Put64(Put64(Put64(0, b7, 56), b6, 48), b5, 40), b4, 32),
                                          b3, 24), b2, 16), b1, 8), b0, 0)
            == Le64(b0, b1, b2, b3, b4, b5, b6, b7)
  {
  }

  /** Loading and storing are inverse on eight bytes. */
  lemma StoreLoad64(t: seq<byte>, at: nat)
    requires at + 8 <= |t|
    ensures Store64(Load64(t, at)) == t[at..at + 8]
  {
    OctetsOfLe64(t[at], t[at + 1], t[at + 2], t[at + 3], t[at + 4], t[at + 5], t[at + 6], t[at + 7]);
  }

  lemma LoadStore64(t: seq<byte>, at: nat, k: bv64)
    requires at + 8 <= |t| && t[at..at + 8] == Store64(k)
    ensures Load64(t, at) == k
  {
    var b := t[at..at + 8];
    assert t[at] == b[0] && t[at + 1] == b[1] && t[at + 2] == b[2] && t[at + 3] == b[3];
    assert t[at + 4] == b[4] && t[at + 5] == b[5] && t[at + 6] == b[6] && t[at + 7] == b[7];
    Le64OfOctets(k);
  }

  /** A word determines all the (zero-padded) bytes it was loaded from. */
  lemma LoadInjective64(t: seq<byte>, u: seq<byte>, at: nat)
    requires Load64(t, at) == Load64(u, at)
    ensures forall i | at <= i < at + 8 :: Byte(t, i) == Byte(u, i)
  {
    OctetsOfLe64(Byte(t, at), Byte(t, at + 1), Byte(t, at + 2), Byte(t, at + 3),
                 Byte(t, at + 4), Byte(t, at + 5), Byte(t, at + 6), Byte(t, at + 7));
    OctetsOfLe64(Byte(u, at), Byte(u, at + 1), Byte(u, at + 2), Byte(u, at + 3),
                 Byte(u, at + 4), Byte(u, at + 5), Byte(u, at + 6), Byte(u, at + 7));
  }

  // ---- 32-bit words ----

  function Le32(b0: byte, b1: byte, b2: byte, b3: byte): bv32 {
    (b0 as bv32) | ((b1 as bv32) << 8) | ((b2 as bv32) << 16) | ((b3 as bv32) << 24)
  }

  function Octet32(k: bv32, shift: bv6): byte
    requires shift <= 32
  {
    ((k >> shift) & 0xff) as byte
  }

  function Load32(t: seq<byte>, at: nat): bv32 {
    Le32(Byte(t, at), Byte(t, at + 1), Byte(t, at + 2), Byte(t, at + 3))
  }

  function Store32(k: bv32): (t: seq<byte>)
    ensures |t| == 4
  {
    [Octet32(k, 0), Octet32(k, 8), Octet32(k, 16), Octet32(k, 24)]
  }

  lemma OctetsOfLe32(b0: byte, b1: byte, b2: byte, b3: byte)
    ensures var k := Le32(b0, b1, b2, b3);
            Octet32(k, 0) == b0 && Octet32(k, 8) == b1 && Octet32(k, 16) == b2 && Octet32(k, 24) == b3
  {
  }

  lemma Le32OfOctets(k: bv32)
    ensures Le32(Octet32(k, 0), Octet32(k, 8), Octet32(k, 16), Octet32(k, 24)) == k
  {
  }

  /** One case label of the tail switch: `k ^= tail[i] << shift`. */
  function Put32(k: bv32, b: byte, shift: bv6): bv32
    requires shift <= 32
  {
    k ^ ((b as bv32) << shift)
  }

  lemma PutZero32(k: bv32, shift: bv6)
    requires shift <= 32
    ensures Put32(k, 0, shift) == k
  {
  }

  lemma PutsOfZero32()
    ensures forall k, shift: bv6 {:trigger Put32(k, 0, shift)} :: shift <= 32 ==> Put32(k, 0, shift) == k
  {
    forall k, shift: bv6 | shift <= 32
      ensures Put32(k, 0, shift) == k
    {
      PutZero32(k, shift);
    }
  }

  lemma Gathered32(b0: byte, b1: byte, b2: byte, b3: byte)
    ensures Put32(Put32(Put32(Put32(0, b3, 24), b2, 16), b1, 8), b0, 0) == Le32(b0, b1, b2, b3)
  {
  }

  lemma StoreLoad32(t: seq<byte>, at: nat)
    requires at + 4 <= |t|
    ensures Store32(Load32(t, at)) == t[at..at + 4]
  {
    OctetsOfLe32(t[at], t[at + 1], t[at + 2], t[at + 3]);
  }

  lemma LoadStore32(t: seq<byte>, at: nat, k: bv32)
    requires at + 4 <= |t| && t[at..at + 4] == Store32(k)
    ensures Load32(t, at) == k
  {
    var b := t[at..at + 4];
    assert t[at] == b[0] && t[at + 1] == b[1] && t[at + 2] == b[2] && t[at + 3] == b[3];
    Le32OfOctets(k);
  }

  lemma LoadInjective32(t: seq<byte>, u: seq<byte>, at: nat)
    requires Load32(t, at) == Load32(u, at)
    ensures forall i | at <= i < at + 4 :: Byte(t, i) == Byte(u, i)
  {
    OctetsOfLe32(Byte(t, at), Byte(t, at + 1), Byte(t, at + 2), Byte(t, at + 3));
    OctetsOfLe32(Byte(u, at), Byte(u, at + 1), Byte(u, at + 2), Byte(u, at + 3));
  }

  // ---- block reads ----

  /** `getblock64(p, i)` with p = key + base: the i-th 8-byte word in memory order. */
  function GetBlock64(key: array<byte>, base: nat, i: int): bv64
    requires 0 <= base + 8 * i && base + 8 * i + 8 <= key.Length
    reads key
  {
    var at := base + 8 * i;
    Le64(key[at], key[at + 1], key[at + 2], key[at + 3], key[at + 4], key[at + 5], key[at + 6], key[at + 7])
  }

  /** `getblock32(p, i)` with p = key + base; the index may be negative. */
  function GetBlock32(key: array<byte>, base: nat, i: int): bv32
    requires 0 <= base + 4 * i && base + 4 * i + 4 <= key.Length
    reads key
  {
    var at := base + 4 * i;
    Le32(key[at], key[at + 1], key[at + 2], key[at + 3])
  }
}
