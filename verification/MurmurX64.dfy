/** MurmurHash3_x64_128: two 64-bit lanes over 16-byte blocks. */
module MurmurX64 {
  import opened Bits
  import opened Bytes
  import opened BlockHash

  datatype Pair = Pair(h1: bv64, h2: bv64)

  // ---- one round ----

  function MixK1(k: bv64): bv64 { Mix64(k, 0x87c37b91114253d5, 31, 0x4cf5ad432745937f) }

  function MixK2(k: bv64): bv64 { Mix64(k, 0x4cf5ad432745937f, 33, 0x87c37b91114253d5) }

  function UnmixK1(m: bv64): bv64 { Mix64(m, 0xa81e14edd9de2c7f, 33, 0xa98409e882ce4d7d) }

  function UnmixK2(m: bv64): bv64 { Mix64(m, 0xa98409e882ce4d7d, 31, 0xa81e14edd9de2c7f) }

  lemma MixKCancels(k: bv64)
    ensures UnmixK1(MixK1(k)) == k && MixK1(UnmixK1(k)) == k
    ensures UnmixK2(MixK2(k)) == k && MixK2(UnmixK2(k)) == k
  {
    hide Mix64;
    MixCancels64(k, 0x87c37b91114253d5, 31, 0x4cf5ad432745937f, 0xa98409e882ce4d7d, 0xa81e14edd9de2c7f);
    MixCancels64(k, 0xa81e14edd9de2c7f, 33, 0xa98409e882ce4d7d, 0x4cf5ad432745937f, 0x87c37b91114253d5);
    MixCancels64(k, 0x4cf5ad432745937f, 33, 0x87c37b91114253d5, 0xa81e14edd9de2c7f, 0xa98409e882ce4d7d);
    MixCancels64(k, 0xa98409e882ce4d7d, 31, 0xa81e14edd9de2c7f, 0x87c37b91114253d5, 0x4cf5ad432745937f);
  }

  /** One iteration of the body loop on the block words k1, k2. */
  function Round(h: Pair, k1: bv64, k2: bv64): Pair {
    var g1 := Stir64(h.h1, MixK1(k1), 27, h.h2, 0x52dce729);
    Pair(g1, Stir64(h.h2, MixK2(k2), 31, g1, 0x38495ab5))
  }

  function Unround(g: Pair, k1: bv64, k2: bv64): Pair {
    var h2 := Xor64(Unstir64(g.h2, 33, g.h1, 0x38495ab5), MixK2(k2));
    Pair(Xor64(Unstir64(g.h1, 37, h2, 0x52dce729), MixK1(k1)), h2)
  }

  /** The block words that take state h to state g. */
  function WordsBetween(h: Pair, g: Pair): (bv64, bv64) {
    (UnmixK1(Xor64(h.h1, Unstir64(g.h1, 37, h.h2, 0x52dce729))),
     UnmixK2(Xor64(h.h2, Unstir64(g.h2, 33, g.h1, 0x38495ab5))))
  }

  lemma RoundUndone(h: Pair, k1: bv64, k2: bv64)
    ensures Unround(Round(h, k1, k2), k1, k2) == h
    ensures Round(Unround(h, k1, k2), k1, k2) == h
  {
    hide MixK1, MixK2, Stir64, Unstir64, Xor64;
    var g, u := Round(h, k1, k2), Unround(h, k1, k2);
    LaneUndone64(h.h1, MixK1(k1), 27, h.h2, 0x52dce729);
    LaneUndone64(h.h2, MixK2(k2), 31, g.h1, 0x38495ab5);
    LaneUndone64(h.h1, MixK1(k1), 27, u.h2, 0x52dce729);
    LaneUndone64(h.h2, MixK2(k2), 31, h.h1, 0x38495ab5);
  }

  lemma RoundSolved(h: Pair, g: Pair, k1: bv64, k2: bv64)
    ensures WordsBetween(h, Round(h, k1, k2)) == (k1, k2)
    ensures var w := WordsBetween(h, g); Round(h, w.0, w.1) == g
  {
    hide MixK1, MixK2, UnmixK1, UnmixK2, Stir64, Unstir64, Xor64;
    LaneSolved64(h.h1, MixK1(k1), g.h1, 27, h.h2, 0x52dce729);
    LaneSolved64(h.h2, MixK2(k2), g.h2, 31, Round(h, k1, k2).h1, 0x38495ab5);
    LaneSolved64(h.h2, 0, g.h2, 31, g.h1, 0x38495ab5);
    MixKCancels(k1);
    MixKCancels(k2);
    MixKCancels(Xor64(h.h1, Unstir64(g.h1, 37, h.h2, 0x52dce729)));
    MixKCancels(Xor64(h.h2, Unstir64(g.h2, 33, g.h1, 0x38495ab5)));
  }

  // ---- tail and finalization ----

  /** The lane additions `h1 += h2; h2 += h1`. */
  function Spread(h: Pair): Pair {
    var g1 := Plus64(h.h1, h.h2);
    Pair(g1, Plus64(h.h2, g1))
  }

  function Unspread(g: Pair): Pair {
    var h2 := Minus64(g.h2, g.h1);
    Pair(Minus64(g.h1, h2), h2)
  }

  function Fmix(h: Pair): Pair { Pair(Fmix64(h.h1), Fmix64(h.h2)) }

  function Unfmix(h: Pair): Pair { Pair(Unfmix64(h.h1), Unfmix64(h.h2)) }

  function XorBoth(h: Pair, x: bv64, y: bv64): Pair { Pair(Xor64(h.h1, x), Xor64(h.h2, y)) }

  /** The key length as it is mixed in: converted to 64 bits. */
  function Length64(n: nat): bv64 {
    (n % 0x1_0000_0000_0000_0000) as bv64
  }

  /** The tail's contribution: its bytes as one zero-padded block, mixed but without a round. */
  function TailWords(tail: seq<byte>): (bv64, bv64) {
    (MixK1(Load64(tail, 0)), MixK2(Load64(tail, 8)))
  }

  function Finish(h: Pair, tail: seq<byte>, n: nat): Pair {
    var m := TailWords(tail);
    Spread(Fmix(Spread(XorBoth(XorBoth(h, m.0, m.1), Length64(n), Length64(n)))))
  }

  function Unfinish(g: Pair, tail: seq<byte>, n: nat): Pair {
    var m := TailWords(tail);
    XorBoth(XorBoth(Unspread(Unfmix(Unspread(g))), Length64(n), Length64(n)), m.0, m.1)
  }

  lemma SpreadUndone(h: Pair)
    ensures Unspread(Spread(h)) == h && Spread(Unspread(h)) == h
  {
    hide Plus64, Minus64;
    PlusCancels64(h.h1, h.h2);
    PlusCancels64(h.h2, Plus64(h.h1, h.h2));
    PlusCancels64(h.h1, Minus64(h.h2, h.h1));
    PlusCancels64(h.h2, h.h1);
  }

  lemma FmixUndone(h: Pair)
    ensures Unfmix(Fmix(h)) == h && Fmix(Unfmix(h)) == h
  {
    hide Fmix64, Unfmix64;
    FmixCancels64(h.h1);
    FmixCancels64(h.h2);
  }

  lemma XorBothUndone(h: Pair, x: bv64, y: bv64)
    ensures XorBoth(XorBoth(h, x, y), x, y) == h
  {
    hide Xor64;
    XorCancels64(h.h1, x);
    XorCancels64(h.h2, y);
  }

  lemma FinishUndone(h: Pair, tail: seq<byte>, n: nat)
    ensures Unfinish(Finish(h, tail, n), tail, n) == h
    ensures Finish(Unfinish(h, tail, n), tail, n) == h
  {
    hide Spread, Unspread, Fmix, Unfmix, XorBoth, TailWords, Length64;
    var m, l := TailWords(tail), Length64(n);
    var a := XorBoth(h, m.0, m.1);
    XorBothUndone(h, m.0, m.1);
    XorBothUndone(a, l, l);
    var b := XorBoth(a, l, l);
    SpreadUndone(b);
    FmixUndone(Spread(b));
    SpreadUndone(Fmix(Spread(b)));
    SpreadUndone(h);
    var c := Unspread(h);
    FmixUndone(c);
    SpreadUndone(Unfmix(c));
    var d := Unspread(Unfmix(c));
    XorBothUndone(d, l, l);
    XorBothUndone(XorBoth(d, l, l), m.0, m.1);
  }

  lemma SameXor(h: Pair, x: bv64, y: bv64, z: bv64, w: bv64)
    requires XorBoth(h, x, y) == XorBoth(h, z, w)
    ensures x == z && y == w
  {
    hide Xor64;
    XorCancels64(h.h1, x);
    XorCancels64(h.h1, z);
    XorCancels64(h.h2, y);
    XorCancels64(h.h2, w);
  }

  lemma TailWordsInjective(t: seq<byte>, u: seq<byte>)
    requires TailWords(t) == TailWords(u) && |t| == |u| <= 16
    ensures t == u
  {
    hide MixK1, MixK2, UnmixK1, UnmixK2, Load64;
    MixKCancels(Load64(t, 0));
    MixKCancels(Load64(u, 0));
    MixKCancels(Load64(t, 8));
    MixKCancels(Load64(u, 8));
    LoadInjective64(t, u, 0);
    LoadInjective64(t, u, 8);
    assert forall i | 0 <= i < |t| :: t[i] == Byte(t, i) && u[i] == Byte(u, i);
  }

  lemma FinishSeesTail(h: Pair, t: seq<byte>, u: seq<byte>, n: nat)
    requires Finish(h, t, n) == Finish(h, u, n) && |t| == |u| < 16
    ensures t == u
  {
    hide Spread, Unspread, Fmix, Unfmix, XorBoth, TailWords, Length64;
    var l := Length64(n);
    var a := XorBoth(h, TailWords(t).0, TailWords(t).1);
    var b := XorBoth(h, TailWords(u).0, TailWords(u).1);
    SpreadUndone(XorBoth(a, l, l));
    SpreadUndone(XorBoth(b, l, l));
    FmixUndone(Spread(XorBoth(a, l, l)));
    FmixUndone(Spread(XorBoth(b, l, l)));
    SpreadUndone(Fmix(Spread(XorBoth(a, l, l))));
    SpreadUndone(Fmix(Spread(XorBoth(b, l, l))));
    XorBothUndone(a, l, l);
    XorBothUndone(b, l, l);
    SameXor(h, TailWords(t).0, TailWords(t).1, TailWords(u).0, TailWords(u).1);
    TailWordsInjective(t, u);
  }

  // ---- the hash as a block hash ----

  function Step(h: Pair, block: seq<byte>): Pair {
    Round(h, Load64(block, 0), Load64(block, 8))
  }

  function Unstep(h: Pair, block: seq<byte>): Pair {
    Unround(h, Load64(block, 0), Load64(block, 8))
  }

  function Solve(h: Pair, g: Pair): seq<byte> {
    var w := WordsBetween(h, g);
    Store64(w.0) + Store64(w.1)
  }

  function X64(): Scheme<Pair> {
    Scheme(16, Step, Finish, Unstep, Solve, Unfinish)
  }

  /** Both lanes start as the seed. */
  function Init(seed: bv32): Pair {
    Pair(seed as bv64, seed as bv64)
  }

  /** The 128-bit hash that MurmurHash3_x64_128 computes. */
  function Digest(key: seq<byte>, seed: bv32): Pair {
    Hash(X64(), Init(seed), key)
  }

  // ---- known answers, with the seed of the exported feature hash ----

  lemma KnownWords()
    ensures Le64(0, 1, 2, 3, 4, 5, 6, 7) == 0x0706050403020100
    ensures Le64(8, 9, 10, 11, 12, 13, 14, 15) == 0x0f0e0d0c0b0a0908
    ensures Le64(16, 17, 18, 19, 20, 21, 22, 23) == 0x1716151413121110
    ensures Le64(24, 25, 26, 27, 28, 29, 30, 0) == 0x001e1d1c1b1a1918
    ensures Le64(0x61, 0, 0, 0, 0, 0, 0, 0) == 0x61 && Le64(0, 0, 0, 0, 0, 0, 0, 0) == 0
  {
  }

  lemma KnownMixes()
    ensures MixK1(0x0706050403020100) == 0xdf62d7cbeab5358e && MixK2(0x0f0e0d0c0b0a0908) == 0xc541f873a7aec42d
    ensures MixK1(0x1716151413121110) == 0x25b7238909272722 && MixK2(0x001e1d1c1b1a1918) == 0xf5b34b0fc6904ebd
    ensures MixK1(0x61) == 0xf49ed48e325ab585 && MixK2(0) == 0
  {
  }

  lemma KnownStir()
    ensures Stir64(141652681, 0xdf62d7cbeab5358e, 27, 141652681, 0x52dce729) == 0xdb6eab23b7fb96cc
    ensures Stir64(141652681, 0xc541f873a7aec42d, 31, 0xdb6eab23b7fb96cc, 0x38495ab5) == 0x80d8a0eebd5839ce
  {
  }

  lemma KnownFmix()
    ensures Fmix(Pair(0x7445748c3aa5295d, 0xe9b1606db66da0c9)) == Pair(0xe91887684849d2c0, 0x5843f22018f96bb6)
    ensures Fmix(Pair(0xf49ed48e429d3a15, 0xf49ed48e4b0eacdd)) == Pair(0xe72c9f185125b9f4, 0xd4c17fd5b3b0b911)
  {
  }

  lemma KnownStep()
    ensures Step(Init(141652681), [0, 1, 2, 3, 4, 5, 6, 7, 8, 9, 10, 11, 12, 13, 14, 15])
            == Pair(0xdb6eab23b7fb96cc, 0x80d8a0eebd5839ce)
  {
    KnownWords();
    KnownMixes();
    KnownStir();
    hide Le64, MixK1, MixK2, Stir64;
  }

  lemma KnownTails()
    ensures TailWords([16, 17, 18, 19, 20, 21, 22, 23, 24, 25, 26, 27, 28, 29, 30])
            == (0x25b7238909272722, 0xf5b34b0fc6904ebd)
    ensures TailWords([0x61]) == (0xf49ed48e325ab585, 0)
  {
    KnownWords();
    KnownMixes();
    hide Le64, MixK1, MixK2;
  }

  lemma KnownLengths()
    ensures Length64(31) == 31 && Length64(1) == 1
  {
    assert 31 % 0x1_0000_0000_0000_0000 == 31;
    assert 1 % 0x1_0000_0000_0000_0000 == 1;
  }

  lemma KnownXors()
    ensures XorBoth(Pair(0xdb6eab23b7fb96cc, 0x80d8a0eebd5839ce), 0x25b7238909272722, 0xf5b34b0fc6904ebd)
            == Pair(0xfed988aabedcb1ee, 0x756bebe17bc87773)
    ensures XorBoth(Pair(0xfed988aabedcb1ee, 0x756bebe17bc87773), 31, 31)
            == Pair(0xfed988aabedcb1f1, 0x756bebe17bc8776c)
    ensures XorBoth(XorBoth(Init(141652681), 0xf49ed48e325ab585, 0), 1, 1) == Pair(0xf49ed48e3a2bc74d, 0x087172c8)
  {
  }

  lemma KnownSpreads()
    ensures Spread(Pair(0xfed988aabedcb1f1, 0x756bebe17bc8776c)) == Pair(0x7445748c3aa5295d, 0xe9b1606db66da0c9)
    ensures Spread(Pair(0xe91887684849d2c0, 0x5843f22018f96bb6)) == Pair(0x415c798861433e76, 0x99a06ba87a3caa2c)
    ensures Spread(Pair(0xf49ed48e3a2bc74d, 0x087172c8)) == Pair(0xf49ed48e429d3a15, 0xf49ed48e4b0eacdd)
    ensures Spread(Pair(0xe72c9f185125b9f4, 0xd4c17fd5b3b0b911)) == Pair(0xbbee1eee04d67305, 0x90af9ec3b8872c16)
  {
  }

  lemma KnownFinish()
    ensures Finish(Pair(0xdb6eab23b7fb96cc, 0x80d8a0eebd5839ce),
                   [16, 17, 18, 19, 20, 21, 22, 23, 24, 25, 26, 27, 28, 29, 30], 31)
            == Pair(0x415c798861433e76, 0x99a06ba87a3caa2c)
    ensures Finish(Init(141652681), [0x61], 1) == Pair(0xbbee1eee04d67305, 0x90af9ec3b8872c16)
  {
    KnownTails();
    KnownXors();
    KnownSpreads();
    KnownFmix();
    KnownLengths();
    hide TailWords, XorBoth, Spread, Fmix, Length64, Init;
  }

  /** Known answers: one byte, and one block with a tail that needs both words. */
  lemma KnownAnswers()
    ensures Digest([0x61], 141652681) == Pair(0xbbee1eee04d67305, 0x90af9ec3b8872c16)
    ensures Digest([0, 1, 2, 3, 4, 5, 6, 7, 8, 9, 10, 11, 12, 13, 14, 15,
                    16, 17, 18, 19, 20, 21, 22, 23, 24, 25, 26, 27, 28, 29, 30], 141652681)
            == Pair(0x415c798861433e76, 0x99a06ba87a3caa2c)
  {
    KnownStep();
    KnownFinish();
    hide Step, Finish, Init;
    var block: seq<byte> := [0, 1, 2, 3, 4, 5, 6, 7, 8, 9, 10, 11, 12, 13, 14, 15];
    var rest: seq<byte> := [16, 17, 18, 19, 20, 21, 22, 23, 24, 25, 26, 27, 28, 29, 30];
    OneBlock(X64(), Init(141652681), block, rest);
    NoBlock(X64(), Init(141652681), [0x61]);
    assert block + rest == [0, 1, 2, 3, 4, 5, 6, 7, 8, 9, 10, 11, 12, 13, 14, 15,
                            16, 17, 18, 19, 20, 21, 22, 23, 24, 25, 26, 27, 28, 29, 30];
  }

  lemma StepSolved(h: Pair, g: Pair, block: seq<byte>)
    ensures |Solve(h, g)| == 16 && Step(h, Solve(h, g)) == g
    ensures |block| == 16 ==> Solve(h, Step(h, block)) == block
  {
    hide Round, WordsBetween, Load64, Store64;
    var w := WordsBetween(h, g);
    RoundSolved(h, g, Load64(block, 0), Load64(block, 8));
    var b := Solve(h, g);
    assert b[0..8] == Store64(w.0) && b[8..16] == Store64(w.1);
    LoadStore64(b, 0, w.0);
    LoadStore64(b, 8, w.1);
    if |block| == 16 {
      StoreLoad64(block, 0);
      StoreLoad64(block, 8);
      assert block[0..8] + block[8..16] == block;
    }
  }

  lemma X64StepUndone()
    ensures StepUndone(X64())
  {
    forall s: Pair, b: seq<byte>
      ensures Unstep(Step(s, b), b) == s && Step(Unstep(s, b), b) == s
    {
      hide Round, Unround, Load64;
      RoundUndone(s, Load64(b, 0), Load64(b, 8));
    }
  }

  lemma X64BlockSolved()
    ensures BlockSolved(X64())
  {
    hide Step, Solve;
    forall s: Pair, t: Pair
      ensures |Solve(s, t)| == 16 && Step(s, Solve(s, t)) == t
    {
      StepSolved(s, t, []);
    }
    forall s: Pair, b: seq<byte> | |b| == 16
      ensures Solve(s, Step(s, b)) == b
    {
      StepSolved(s, s, b);
    }
  }

  lemma X64FinishUndone()
    ensures BlockHash.FinishUndone(X64())
  {
    hide Finish, Unfinish;
    forall s: Pair, tail: seq<byte>, n: nat
      ensures Unfinish(Finish(s, tail, n), tail, n) == s && Finish(Unfinish(s, tail, n), tail, n) == s
    {
      FinishUndone(s, tail, n);
    }
  }

  lemma X64TailSeen()
    ensures TailSeen(X64())
  {
    hide Finish;
    forall s: Pair, t: seq<byte>, u: seq<byte>, n: nat | |t| == |u| < 16 && Finish(s, t, n) == Finish(s, u, n)
      ensures t == u
    {
      FinishSeesTail(s, t, u, n);
    }
  }

  lemma X64Lawful()
    ensures Lawful(X64())
  {
    hide StepUndone, BlockSolved, BlockHash.FinishUndone, TailSeen;
    X64StepUndone();
    X64BlockSolved();
    X64FinishUndone();
    X64TailSeen();
  }

  // ---- the no-collision theorems ----

  /** Two keys that differ only inside one aligned 16-byte block have different hashes, and every
      128-bit value is the hash of exactly one choice of that block. */
  lemma BlockTheorem(seed: bv32, p: seq<byte>, b: seq<byte>, c: seq<byte>, q: seq<byte>, h: Pair)
    requires |p| % 16 == 0 && |b| == |c| == 16
    ensures Digest(p + b + q, seed) == Digest(p + c + q, seed) <==> b == c
    ensures |BlockFor(X64(), Init(seed), p, q, h)| == 16
    ensures Digest(p + b + q, seed) == h <==> b == BlockFor(X64(), Init(seed), p, q, h)
  {
    X64Lawful();
    AlignedMultiple(16, |p| / 16);
    hide *;
    OneBlockDecides(X64(), Init(seed), p, b, c, q);
    BlockBijective(X64(), Init(seed), p, b, q, h);
  }

  /** Two keys of one length that differ only in the bytes after the last whole block have
      different hashes. */
  lemma TailTheorem(seed: bv32, p: seq<byte>, t: seq<byte>, u: seq<byte>)
    requires |p| % 16 == 0 && |t| == |u| < 16
    ensures Digest(p + t, seed) == Digest(p + u, seed) <==> t == u
  {
    X64Lawful();
    AlignedMultiple(16, |p| / 16);
    TailDecides(X64(), Init(seed), p, t, u);
  }

  /** One key hashed under two seeds collides only if the seeds are equal. */
  lemma SeedTheorem(key: seq<byte>, seed: bv32, other: bv32)
    ensures Digest(key, seed) == Digest(key, other) <==> seed == other
  {
    X64Lawful();
    hide Hash, Unhash, Lawful;
    HashUndone(X64(), Init(seed), key);
    HashUndone(X64(), Init(other), key);
  }

  // ---- the algorithm ----

  /** `case i + 1: k ^= (uint64_t)tail[i] << shift`, reached by falling through if the tail is that long. */
  method FallThrough(k: bv64, key: array<byte>, at: nat, r: nat, i: nat, shift: bv7) returns (k': bv64)
    requires at + r <= key.Length && shift <= 64
    ensures k' == Put64(k, Byte(key[at..at + r], i), shift)
  {
    hide Put64;
    k' := k;
    if r >= i + 1 {
      k' := Put64(k', key[at + i], shift);
    } else {
      PutZero64(k, shift);
    }
  }

  /** Cases 15 to 9 of the tail switch: the bytes of k2, falling through. */
  method GatherHigh(key: array<byte>, at: nat, r: nat) returns (k2: bv64)
    requires r < 16 && at + r <= key.Length
    ensures k2 == Load64(key[at..at + r], 8)
  {
    hide Put64, Le64, Byte;
    ghost var t := key[at..at + r];
    k2 := FallThrough(0, key, at, r, 14, 48);
    k2 := FallThrough(k2, key, at, r, 13, 40);
    k2 := FallThrough(k2, key, at, r, 12, 32);
    k2 := FallThrough(k2, key, at, r, 11, 24);
    k2 := FallThrough(k2, key, at, r, 10, 16);
    k2 := FallThrough(k2, key, at, r, 9, 8);
    k2 := FallThrough(k2, key, at, r, 8, 0);
    NoSixteenth(t);
    Gathered64(Byte(t, 8), Byte(t, 9), Byte(t, 10), Byte(t, 11), Byte(t, 12), Byte(t, 13), Byte(t, 14), Byte(t, 15));
  }

  lemma NoSixteenth(t: seq<byte>)
    requires |t| < 16
    ensures Byte(t, 15) == 0 && Put64(0, Byte(t, 15), 56) == 0
  {
    PutZero64(0, 56);
  }

  /** Cases 8 to 1 of the tail switch: the bytes of k1, falling through. */
  method GatherLow(key: array<byte>, at: nat, r: nat) returns (k1: bv64)
    requires r < 16 && at + r <= key.Length
    ensures k1 == Load64(key[at..at + r], 0)
  {
    hide Put64, Le64, Byte;
    ghost var t := key[at..at + r];
    k1 := FallThrough(0, key, at, r, 7, 56);
    k1 := FallThrough(k1, key, at, r, 6, 48);
    k1 := FallThrough(k1, key, at, r, 5, 40);
    k1 := FallThrough(k1, key, at, r, 4, 32);
    k1 := FallThrough(k1, key, at, r, 3, 24);
    k1 := FallThrough(k1, key, at, r, 2, 16);
    k1 := FallThrough(k1, key, at, r, 1, 8);
    k1 := FallThrough(k1, key, at, r, 0, 0);
    Gathered64(Byte(t, 0), Byte(t, 1), Byte(t, 2), Byte(t, 3), Byte(t, 4), Byte(t, 5), Byte(t, 6), Byte(t, 7));
  }

  /** An absent tail word mixes in nothing. */
  lemma ZeroMixes(h: bv64)
    ensures MixK1(0) == 0 && MixK2(0) == 0 && Xor64(h, 0) == h && Le64(0, 0, 0, 0, 0, 0, 0, 0) == 0
  {
  }

  /** The tail switch on `len & 15`, its cases falling through from the last byte to the first. */
  method TailSwitch(key: array<byte>, at: nat, r: nat, h: Pair) returns (g: Pair)
    requires r < 16 && at + r <= key.Length
    ensures var m := TailWords(key[at..at + r]); g == XorBoth(h, m.0, m.1)
  {
    hide Times64, Rotl64, Xor64, Le64;
    ZeroMixes(h.h1);
    ZeroMixes(h.h2);
    ghost var t := key[at..at + r];
    var h1, h2 := h.h1, h.h2;
    if r >= 9 {
      var k2 := GatherHigh(key, at, r);
      k2 := Times64(k2, 0x4cf5ad432745937f);
      k2 := Rotl64(k2, 33);
      k2 := Times64(k2, 0x87c37b91114253d5);
      h2 := Xor64(h2, k2);
    }
    assert h2 == Xor64(h.h2, MixK2(Load64(t, 8)));
    if r >= 1 {
      var k1 := GatherLow(key, at, r);
      k1 := Times64(k1, 0x87c37b91114253d5);
      k1 := Rotl64(k1, 31);
      k1 := Times64(k1, 0x4cf5ad432745937f);
      h1 := Xor64(h1, k1);
    }
    assert h1 == Xor64(h.h1, MixK1(Load64(t, 0)));
    g := Pair(h1, h2);
  }

  /** One iteration of the body loop. */
  method BodyRound(w1: bv64, w2: bv64, h: Pair) returns (g: Pair)
    ensures g == Round(h, w1, w2)
  {
    hide Rotl64, Times64, Xor64, Plus64, Affine64;
    var k1, k2, h1, h2 := w1, w2, h.h1, h.h2;
    k1 := Times64(k1, 0x87c37b91114253d5);
    k1 := Rotl64(k1, 31);
    k1 := Times64(k1, 0x4cf5ad432745937f);
    h1 := Xor64(h1, k1);
    h1 := Rotl64(h1, 27);
    h1 := Plus64(h1, h2);
    h1 := Affine64(h1, 0x52dce729);
    k2 := Times64(k2, 0x4cf5ad432745937f);
    k2 := Rotl64(k2, 33);
    k2 := Times64(k2, 0x87c37b91114253d5);
    h2 := Xor64(h2, k2);
    h2 := Rotl64(h2, 31);
    h2 := Plus64(h2, h1);
    h2 := Affine64(h2, 0x38495ab5);
    g := Pair(h1, h2);
  }

  /** The finalization: mix in the length, spread the lanes, fmix each, spread again. */
  method Finalize(h: Pair, len: int, ghost tail: seq<byte>, ghost body: Pair) returns (g: Pair)
    requires 0 <= len < 0x8000_0000
    requires h == XorBoth(body, TailWords(tail).0, TailWords(tail).1)
    ensures g == Finish(body, tail, len)
  {
    hide Xor64, Plus64, Fmix64, TailWords;
    assert Length64(len) == len as bv64;
    var h1, h2 := h.h1, h.h2;
    h1 := Xor64(h1, len as bv64);
    h2 := Xor64(h2, len as bv64);
    h1 := Plus64(h1, h2);
    h2 := Plus64(h2, h1);
    h1 := FmixInPlace64(h1);
    h2 := FmixInPlace64(h2);
    h1 := Plus64(h1, h2);
    h2 := Plus64(h2, h1);
    g := Pair(h1, h2);
  }

  lemma BlockWords(key: array<byte>, i: nat, len: nat)
    requires 16 * i + 16 <= len <= key.Length
    ensures var rest := key[16 * i..len];
            && rest[16..] == key[16 * (i + 1)..len]
            && GetBlock64(key, 0, i * 2) == Load64(rest[..16], 0)
            && GetBlock64(key, 0, i * 2 + 1) == Load64(rest[..16], 8)
  {
    hide Le64;
  }

  /** The body loop over the whole blocks. */
  method BodyLoop(key: array<byte>, len: nat, seed: bv32) returns (h: Pair)
    requires len <= key.Length
    ensures h == Body(X64(), Init(seed), key[..len])
    ensures Tail(16, key[..len]) == key[len / 16 * 16..len]
  {
    hide Round, GetBlock64, Load64;
    var nblocks := len / 16;
    h := Init(seed);
    var i := 0;
    while i < nblocks
      invariant 0 <= i <= nblocks
      invariant Body(X64(), h, key[16 * i..len]) == Body(X64(), Init(seed), key[..len])
      invariant Tail(16, key[16 * i..len]) == Tail(16, key[..len])
    {
      BlockWords(key, i, len);
      var k1 := GetBlock64(key, 0, i * 2 + 0);
      var k2 := GetBlock64(key, 0, i * 2 + 1);
      h := BodyRound(k1, k2, h);
      i := i + 1;
    }
  }

  method MurmurHash3_x64_128(key: array<byte>, len: int, seed: bv32, out: array<bv64>)
    requires 0 <= len < 0x8000_0000 && len <= key.Length && 2 <= out.Length
    modifies out
    ensures Pair(out[0], out[1]) == Digest(key[..len], seed)
    ensures out[2..] == old(out[2..])
  {
    hide Body, Tail, Finish, TailWords;
    var body := BodyLoop(key, len, seed);
    var h := TailSwitch(key, len / 16 * 16, len % 16, body);
    h := Finalize(h, len, key[len / 16 * 16..len], body);
    out[0] := h.h1;
    out[1] := h.h2;
  }
}
