/** The word operations MurmurHash3 is built from, each with its inverse.

    Every operation is a named function so that the proofs about whole rounds can use
    the small laws below and never reason about the bits themselves. Each law is proved
    by asserting it on the operation's own expression, where it is an algebraic identity. */
module Bits {

  // ---- 64-bit words ----

  function Rotl64(x: bv64, r: bv7): bv64
    requires r <= 64
  {
    (x << r) | (x >> (64 - r))
  }

  function Xor64(x: bv64, y: bv64): bv64 { x ^ y }

  function Plus64(x: bv64, y: bv64): bv64 { x + y }

  function Minus64(x: bv64, y: bv64): bv64 { x - y }

  function Times64(x: bv64, c: bv64): bv64 { x * c }

  /** The step `h = h*5 + c`. */
  function Affine64(x: bv64, c: bv64): bv64 { x * 5 + c }

  function Unaffine64(y: bv64, c: bv64): bv64 { (y - c) * 0xcccccccccccccccd }

  function Shift64(x: bv64): bv64 { x ^ (x >> 33) }

  function Fmix64(k: bv64): bv64 {
    Shift64(Times64(Shift64(Times64(Shift64(k), 0xff51afd7ed558ccd)), 0xc4ceb9fe1a85ec53))
  }

  function Unfmix64(k: bv64): bv64 {
    Shift64(Times64(Shift64(Times64(Shift64(k), 0x9cb4b2f8129337db)), 0x4f74430c22a54005))
  }

  lemma XorCommutes64(x: bv64, y: bv64)
    ensures Xor64(x, y) == Xor64(y, x)
  {
  }

  lemma XorTwice64(x: bv64, y: bv64)
    ensures Xor64(Xor64(x, y), y) == x
  {
    assert Xor64(x ^ y, y) == x;
  }

  lemma XorCancels64(x: bv64, y: bv64)
    ensures Xor64(Xor64(x, y), y) == x
    ensures Xor64(x, Xor64(x, y)) == y
    ensures Xor64(Xor64(x, y), x) == y
  {
    hide Xor64;
    XorTwice64(x, y);
    XorTwice64(y, x);
    XorCommutes64(x, y);
    XorCommutes64(x, Xor64(x, y));
  }

  lemma PlusCancels64(x: bv64, y: bv64)
    ensures Minus64(Plus64(x, y), y) == x
    ensures Plus64(Minus64(x, y), y) == x
  {
    assert Minus64(x + y, y) == x;
    assert Plus64(x - y, y) == x;
  }

  lemma AffineCancels64(x: bv64, c: bv64)
    ensures Unaffine64(Affine64(x, c), c) == x
  {
    assert Unaffine64(x * 5 + c, c) == x;
  }

  lemma UnaffineCancels64(x: bv64, c: bv64)
    ensures Affine64(Unaffine64(x, c), c) == x
  {
    assert Affine64((x - c) * 0xcccccccccccccccd, c) == x;
  }

  lemma ShiftCancels64(x: bv64)
    ensures Shift64(Shift64(x)) == x
  {
    assert Shift64(x ^ (x >> 33)) == x;
  }

  lemma RotlCancels64(x: bv64)
    ensures Rotl64(Rotl64(x, 27), 37) == x && Rotl64(Rotl64(x, 37), 27) == x
    ensures Rotl64(Rotl64(x, 31), 33) == x && Rotl64(Rotl64(x, 33), 31) == x
  {
    assert Rotl64((x << 27) | (x >> 37), 37) == x;
    assert Rotl64((x << 37) | (x >> 27), 27) == x;
    assert Rotl64((x << 31) | (x >> 33), 33) == x;
    assert Rotl64((x << 33) | (x >> 31), 31) == x;
  }

  lemma Rotl64By27(x: bv64)
    ensures Rotl64(x, 27) == x * 0x800_0000 + x / 0x20_0000_0000
  {
  }

  lemma Rotl64By31(x: bv64)
    ensures Rotl64(x, 31) == x * 0x8000_0000 + x / 0x2_0000_0000
  {
  }

  lemma Rotl64By33(x: bv64)
    ensures Rotl64(x, 33) == x * 0x2_0000_0000 + x / 0x8000_0000
  {
  }

  /** A rotation goes to the left: it multiplies, and the bits that leave at the top come in again. */
  lemma RotlGoesLeft64(x: bv64)
    ensures Rotl64(x, 27) == x * 0x800_0000 + x / 0x20_0000_0000
    ensures Rotl64(x, 31) == x * 0x8000_0000 + x / 0x2_0000_0000
    ensures Rotl64(x, 33) == x * 0x2_0000_0000 + x / 0x8000_0000
  {
    hide Rotl64;
    Rotl64By27(x);
    Rotl64By31(x);
    Rotl64By33(x);
  }

  lemma TimesAssociates64(x: bv64, c: bv64, d: bv64)
    ensures Times64(Times64(x, c), d) == Times64(x, Times64(c, d))
  {
    assert Times64(x * c, d) == Times64(x, c * d);
  }

  lemma TimesOne64(x: bv64)
    ensures Times64(x, 1) == x
  {
  }

  /** Multiplication by an odd constant is undone by multiplying with its inverse modulo 2^64. */
  lemma TimesCancels64(x: bv64, c: bv64, inverse: bv64)
    requires Times64(c, inverse) == 1
    ensures Times64(Times64(x, c), inverse) == x
  {
    hide Times64;
    TimesAssociates64(x, c, inverse);
    TimesOne64(x);
  }

  /** fmix64 is a permutation of the 64-bit words, with Unfmix64 its inverse. */
  lemma FmixCancels64(k: bv64)
    ensures Unfmix64(Fmix64(k)) == k
    ensures Fmix64(Unfmix64(k)) == k
  {
    var a := Shift64(k);
    ShiftCancels64(k);
    TimesCancels64(a, 0xff51afd7ed558ccd, 0x4f74430c22a54005);
    TimesCancels64(a, 0x9cb4b2f8129337db, 0xc4ceb9fe1a85ec53);
    ShiftCancels64(Times64(a, 0xff51afd7ed558ccd));
    ShiftCancels64(Times64(a, 0x9cb4b2f8129337db));
    var b := Shift64(Times64(a, 0xff51afd7ed558ccd));
    TimesCancels64(b, 0xc4ceb9fe1a85ec53, 0x9cb4b2f8129337db);
    ShiftCancels64(Times64(b, 0xc4ceb9fe1a85ec53));
    var c := Shift64(Times64(a, 0x9cb4b2f8129337db));
    TimesCancels64(c, 0x4f74430c22a54005, 0xff51afd7ed558ccd);
    ShiftCancels64(Times64(c, 0x4f74430c22a54005));
  }

  /** One lane of a round: `h ^= m; h = rotl(h, r); h += add; h = h*5 + c`. */
  function Stir64(h: bv64, m: bv64, r: bv7, add: bv64, c: bv64): bv64
    requires r <= 64
  {
    Affine64(Plus64(Rotl64(Xor64(h, m), r), add), c)
  }

  /** Recovers h ^ m from a stirred lane; `back` is 64 - r. */
  function Unstir64(g: bv64, back: bv7, add: bv64, c: bv64): bv64
    requires back <= 64
  {
    Rotl64(Minus64(Unaffine64(g, c), add), back)
  }

  lemma StirCancels64(h: bv64, m: bv64, r: bv7, add: bv64, c: bv64)
    requires r == 27 || r == 31
    ensures Unstir64(Stir64(h, m, r, add, c), 64 - r, add, c) == Xor64(h, m)
  {
    var x := Xor64(h, m);
    RotlCancels64(x);
    hide Rotl64, Xor64, Plus64, Minus64, Affine64, Unaffine64;
    PlusCancels64(Rotl64(x, r), add);
    AffineCancels64(Plus64(Rotl64(x, r), add), c);
  }

  lemma UnstirCancels64(g: bv64, h: bv64, m: bv64, r: bv7, add: bv64, c: bv64)
    requires r == 27 || r == 31
    requires Xor64(h, m) == Unstir64(g, 64 - r, add, c)
    ensures Stir64(h, m, r, add, c) == g
  {
    hide Rotl64, Xor64, Plus64, Minus64, Affine64, Unaffine64;
    RotlCancels64(Minus64(Unaffine64(g, c), add));
    PlusCancels64(Unaffine64(g, c), add);
    UnaffineCancels64(g, c);
  }

  /** A lane is undone by its inverse, for either order of the two. */
  lemma LaneUndone64(h: bv64, m: bv64, r: bv7, add: bv64, c: bv64)
    requires r == 27 || r == 31
    ensures Xor64(Unstir64(Stir64(h, m, r, add, c), 64 - r, add, c), m) == h
    ensures Stir64(Xor64(Unstir64(h, 64 - r, add, c), m), m, r, add, c) == h
  {
    hide Stir64, Unstir64, Xor64;
    StirCancels64(h, m, r, add, c);
    XorCancels64(h, m);
    var x := Unstir64(h, 64 - r, add, c);
    XorCancels64(x, m);
    UnstirCancels64(h, Xor64(x, m), m, r, add, c);
  }

  /** The mixed word that takes a lane from h to g is unique and computed by the inverse. */
  lemma LaneSolved64(h: bv64, m: bv64, g: bv64, r: bv7, add: bv64, c: bv64)
    requires r == 27 || r == 31
    ensures Xor64(h, Unstir64(Stir64(h, m, r, add, c), 64 - r, add, c)) == m
    ensures Stir64(h, Xor64(h, Unstir64(g, 64 - r, add, c)), r, add, c) == g
  {
    hide Stir64, Unstir64, Xor64;
    StirCancels64(h, m, r, add, c);
    XorCancels64(h, m);
    var x := Unstir64(g, 64 - r, add, c);
    XorCancels64(h, x);
    UnstirCancels64(g, h, Xor64(h, x), r, add, c);
  }

  /** A block word's mix: `k *= c; k = rotl(k, r); k *= d`. */
  function Mix64(k: bv64, c: bv64, r: bv7, d: bv64): bv64
    requires r <= 64
  {
    Times64(Rotl64(Times64(k, c), r), d)
  }

  /** Undone by the same shape with the inverse multipliers and the opposite rotation. */
  lemma MixCancels64(k: bv64, c: bv64, r: bv7, d: bv64, c': bv64, d': bv64)
    requires r == 31 || r == 33
    requires Times64(c, c') == 1 && Times64(d, d') == 1
    ensures Mix64(Mix64(k, c, r, d), d', 64 - r, c') == k
  {
    hide Times64, Rotl64;
    var a := Times64(k, c);
    TimesCancels64(k, c, c');
    TimesCancels64(Rotl64(a, r), d, d');
    RotlCancels64(a);
  }

  /** fmix64 as the source runs it, one statement at a time. */
  method FmixInPlace64(k0: bv64) returns (k: bv64)
    ensures k == Fmix64(k0)
  {
    hide Shift64, Times64;
    k := k0;
    k := Shift64(k);
    k := Times64(k, 0xff51afd7ed558ccd);
    k := Shift64(k);
    k := Times64(k, 0xc4ceb9fe1a85ec53);
    k := Shift64(k);
  }

  // ---- 32-bit words ----

  function Rotl32(x: bv32, r: bv6): bv32
    requires r <= 32
  {
    (x << r) | (x >> (32 - r))
  }

  function Xor32(x: bv32, y: bv32): bv32 { x ^ y }

  function Plus32(x: bv32, y: bv32): bv32 { x + y }

  function Minus32(x: bv32, y: bv32): bv32 { x - y }

  function Times32(x: bv32, c: bv32): bv32 { x * c }

  function Affine32(x: bv32, c: bv32): bv32 { x * 5 + c }

  function Unaffine32(y: bv32, c: bv32): bv32 { (y - c) * 0xcccccccd }

  function Shift32By16(x: bv32): bv32 { x ^ (x >> 16) }

  function Shift32By13(x: bv32): bv32 { x ^ (x >> 13) }

  function Unshift32By13(x: bv32): bv32 { x ^ (x >> 13) ^ (x >> 26) }

  function Fmix32(h: bv32): bv32 {
    Shift32By16(Times32(Shift32By13(Times32(Shift32By16(h), 0x85ebca6b)), 0xc2b2ae35))
  }

  function Unfmix32(h: bv32): bv32 {
    Shift32By16(Times32(Unshift32By13(Times32(Shift32By16(h), 0x7ed1b41d)), 0xa5cb9243))
  }

  lemma XorCommutes32(x: bv32, y: bv32)
    ensures Xor32(x, y) == Xor32(y, x)
  {
  }

  lemma XorTwice32(x: bv32, y: bv32)
    ensures Xor32(Xor32(x, y), y) == x
  {
    assert Xor32(x ^ y, y) == x;
  }

  lemma XorCancels32(x: bv32, y: bv32)
    ensures Xor32(Xor32(x, y), y) == x
    ensures Xor32(x, Xor32(x, y)) == y
    ensures Xor32(Xor32(x, y), x) == y
  {
    hide Xor32;
    XorTwice32(x, y);
    XorTwice32(y, x);
    XorCommutes32(x, y);
    XorCommutes32(x, Xor32(x, y));
  }

  lemma PlusCancels32(x: bv32, y: bv32)
    ensures Minus32(Plus32(x, y), y) == x
    ensures Plus32(Minus32(x, y), y) == x
  {
    assert Minus32(x + y, y) == x;
    assert Plus32(x - y, y) == x;
  }

  lemma AffineCancels32(x: bv32, c: bv32)
    ensures Unaffine32(Affine32(x, c), c) == x
  {
    assert Unaffine32(x * 5 + c, c) == x;
  }

  lemma UnaffineCancels32(x: bv32, c: bv32)
    ensures Affine32(Unaffine32(x, c), c) == x
  {
    assert Affine32((x - c) * 0xcccccccd, c) == x;
  }

  lemma ShiftCancels32By16(x: bv32)
    ensures Shift32By16(Shift32By16(x)) == x
  {
    assert Shift32By16(x ^ (x >> 16)) == x;
  }

  lemma ShiftCancels32By13(x: bv32)
    ensures Unshift32By13(Shift32By13(x)) == x
  {
    assert Unshift32By13(x ^ (x >> 13)) == x;
  }

  lemma UnshiftCancels32By13(x: bv32)
    ensures Shift32By13(Unshift32By13(x)) == x
  {
    assert Shift32By13(x ^ (x >> 13) ^ (x >> 26)) == x;
  }

  lemma RotlCancels32(x: bv32)
    ensures Rotl32(Rotl32(x, 13), 19) == x && Rotl32(Rotl32(x, 19), 13) == x
    ensures Rotl32(Rotl32(x, 15), 17) == x && Rotl32(Rotl32(x, 17), 15) == x
    ensures Rotl32(Rotl32(x, 14), 18) == x && Rotl32(Rotl32(x, 18), 14) == x
    ensures Rotl32(Rotl32(x, 16), 16) == x
  {
    assert Rotl32((x << 13) | (x >> 19), 19) == x;
    assert Rotl32((x << 19) | (x >> 13), 13) == x;
    assert Rotl32((x << 15) | (x >> 17), 17) == x;
    assert Rotl32((x << 17) | (x >> 15), 15) == x;
    assert Rotl32((x << 14) | (x >> 18), 18) == x;
    assert Rotl32((x << 18) | (x >> 14), 14) == x;
    assert Rotl32((x << 16) | (x >> 16), 16) == x;
  }

  lemma Rotl32By13(x: bv32)
    ensures Rotl32(x, 13) == x * 0x2000 + x / 0x8_0000
  {
  }

  lemma Rotl32By15(x: bv32)
    ensures Rotl32(x, 15) == x * 0x8000 + x / 0x2_0000
  {
  }

  lemma Rotl32By16(x: bv32)
    ensures Rotl32(x, 16) == x * 0x1_0000 + x / 0x1_0000
  {
  }

  lemma Rotl32By17(x: bv32)
    ensures Rotl32(x, 17) == x * 0x2_0000 + x / 0x8000
  {
  }

  lemma Rotl32By18(x: bv32)
    ensures Rotl32(x, 18) == x * 0x4_0000 + x / 0x4000
  {
  }

  lemma Rotl32By19(x: bv32)
    ensures Rotl32(x, 19) == x * 0x8_0000 + x / 0x2000
  {
  }

  /** A rotation goes to the left: it multiplies, and the bits that leave at the top come in again. */
  lemma RotlGoesLeft32(x: bv32)
    ensures Rotl32(x, 13) == x * 0x2000 + x / 0x8_0000
    ensures Rotl32(x, 15) == x * 0x8000 + x / 0x2_0000
    ensures Rotl32(x, 16) == x * 0x1_0000 + x / 0x1_0000
    ensures Rotl32(x, 17) == x * 0x2_0000 + x / 0x8000
    ensures Rotl32(x, 18) == x * 0x4_0000 + x / 0x4000
    ensures Rotl32(x, 19) == x * 0x8_0000 + x / 0x2000
  {
    hide Rotl32;
    Rotl32By13(x);
    Rotl32By15(x);
    Rotl32By16(x);
    Rotl32By17(x);
    Rotl32By18(x);
    Rotl32By19(x);
  }

  lemma TimesAssociates32(x: bv32, c: bv32, d: bv32)
    ensures Times32(Times32(x, c), d) == Times32(x, Times32(c, d))
  {
    assert Times32(x * c, d) == Times32(x, c * d);
  }

  lemma TimesOne32(x: bv32)
    ensures Times32(x, 1) == x
  {
  }

  lemma TimesCancels32(x: bv32, c: bv32, inverse: bv32)
    requires Times32(c, inverse) == 1
    ensures Times32(Times32(x, c), inverse) == x
  {
    hide Times32;
    TimesAssociates32(x, c, inverse);
    TimesOne32(x);
  }

  /** fmix32 is a permutation of the 32-bit words, with Unfmix32 its inverse. */
  lemma FmixCancels32(k: bv32)
    ensures Unfmix32(Fmix32(k)) == k
    ensures Fmix32(Unfmix32(k)) == k
  {
    var a := Shift32By16(k);
    ShiftCancels32By16(k);
    TimesCancels32(a, 0x85ebca6b, 0xa5cb9243);
    TimesCancels32(a, 0x7ed1b41d, 0xc2b2ae35);
    ShiftCancels32By13(Times32(a, 0x85ebca6b));
    UnshiftCancels32By13(Times32(a, 0x7ed1b41d));
    var b := Shift32By13(Times32(a, 0x85ebca6b));
    TimesCancels32(b, 0xc2b2ae35, 0x7ed1b41d);
    ShiftCancels32By16(Times32(b, 0xc2b2ae35));
    var c := Unshift32By13(Times32(a, 0x7ed1b41d));
    TimesCancels32(c, 0xa5cb9243, 0x85ebca6b);
    ShiftCancels32By16(Times32(c, 0xa5cb9243));
  }

  function Stir32(h: bv32, m: bv32, r: bv6, add: bv32, c: bv32): bv32
    requires r <= 32
  {
    Affine32(Plus32(Rotl32(Xor32(h, m), r), add), c)
  }

  function Unstir32(g: bv32, back: bv6, add: bv32, c: bv32): bv32
    requires back <= 32
  {
    Rotl32(Minus32(Unaffine32(g, c), add), back)
  }

  lemma StirCancels32(h: bv32, m: bv32, r: bv6, add: bv32, c: bv32)
    requires r == 13 || r == 15 || r == 17 || r == 19
    ensures Unstir32(Stir32(h, m, r, add, c), 32 - r, add, c) == Xor32(h, m)
  {
    hide Rotl32, Xor32, Plus32, Minus32, Affine32, Unaffine32;
    var x := Xor32(h, m);
    RotlCancels32(x);
    PlusCancels32(Rotl32(x, r), add);
    AffineCancels32(Plus32(Rotl32(x, r), add), c);
  }

  lemma UnstirCancels32(g: bv32, h: bv32, m: bv32, r: bv6, add: bv32, c: bv32)
    requires r == 13 || r == 15 || r == 17 || r == 19
    requires Xor32(h, m) == Unstir32(g, 32 - r, add, c)
    ensures Stir32(h, m, r, add, c) == g
  {
    hide Rotl32, Xor32, Plus32, Minus32, Affine32, Unaffine32;
    RotlCancels32(Minus32(Unaffine32(g, c), add));
    PlusCancels32(Unaffine32(g, c), add);
    UnaffineCancels32(g, c);
  }

  /** A lane is undone by its inverse, for either order of the two. */
  lemma LaneUndone32(h: bv32, m: bv32, r: bv6, add: bv32, c: bv32)
    requires r == 13 || r == 15 || r == 17 || r == 19
    ensures Xor32(Unstir32(Stir32(h, m, r, add, c), 32 - r, add, c), m) == h
    ensures Stir32(Xor32(Unstir32(h, 32 - r, add, c), m), m, r, add, c) == h
  {
    hide Stir32, Unstir32, Xor32;
    StirCancels32(h, m, r, add, c);
    XorCancels32(h, m);
    var x := Unstir32(h, 32 - r, add, c);
    XorCancels32(x, m);
    UnstirCancels32(h, Xor32(x, m), m, r, add, c);
  }

  /** The mixed word that takes a lane from h to g is unique and computed by the inverse. */
  lemma LaneSolved32(h: bv32, m: bv32, g: bv32, r: bv6, add: bv32, c: bv32)
    requires r == 13 || r == 15 || r == 17 || r == 19
    ensures Xor32(h, Unstir32(Stir32(h, m, r, add, c), 32 - r, add, c)) == m
    ensures Stir32(h, Xor32(h, Unstir32(g, 32 - r, add, c)), r, add, c) == g
  {
    hide Stir32, Unstir32, Xor32;
    StirCancels32(h, m, r, add, c);
    XorCancels32(h, m);
    var x := Unstir32(g, 32 - r, add, c);
    XorCancels32(h, x);
    UnstirCancels32(g, h, Xor32(h, x), r, add, c);
  }

  /** A block word's mix: `k *= c; k = rotl(k, r); k *= d`. */
  function Mix32(k: bv32, c: bv32, r: bv6, d: bv32): bv32
    requires r <= 32
  {
    Times32(Rotl32(Times32(k, c), r), d)
  }

  /** Undone by the same shape with the inverse multipliers and the opposite rotation. */
  lemma MixCancels32(k: bv32, c: bv32, r: bv6, d: bv32, c': bv32, d': bv32)
    requires 14 <= r <= 18
    requires Times32(c, c') == 1 && Times32(d, d') == 1
    ensures Mix32(Mix32(k, c, r, d), d', 32 - r, c') == k
  {
    hide Times32, Rotl32;
    var a := Times32(k, c);
    TimesCancels32(k, c, c');
    TimesCancels32(Rotl32(a, r), d, d');
    RotlCancels32(a);
  }

  /** fmix32 as the source runs it, one statement at a time. */
  method FmixInPlace32(h0: bv32) returns (h: bv32)
    ensures h == Fmix32(h0)
  {
    hide Shift32By16, Shift32By13, Times32;
    h := h0;
    h := Shift32By16(h);
    h := Times32(h, 0x85ebca6b);
    h := Shift32By13(h);
    h := Times32(h, 0xc2b2ae35);
    h := Shift32By16(h);
  }
}
