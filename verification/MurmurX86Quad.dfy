/** MurmurHash3_x86_128: four 32-bit lanes over 16-byte blocks. */
module MurmurX86Quad {
  import opened Bits
  import opened Bytes
  import opened BlockHash

  datatype Quad = Quad(h1: bv32, h2: bv32, h3: bv32, h4: bv32)

  function MixK1(k: bv32): bv32 { Mix32(k, 0x239b961b, 15, 0xab0e9789) }

  function MixK2(k: bv32): bv32 { Mix32(k, 0xab0e9789, 16, 0x38b34ae5) }

  function MixK3(k: bv32): bv32 { Mix32(k, 0x38b34ae5, 17, 0xa1e38b93) }

  function MixK4(k: bv32): bv32 { Mix32(k, 0xa1e38b93, 18, 0x239b961b) }

  function UnmixK1(m: bv32): bv32 { Mix32(m, 0xdf130eb9, 17, 0x89c95413) }

  function UnmixK2(m: bv32): bv32 { Mix32(m, 0x747862ed, 16, 0xdf130eb9) }

  function UnmixK3(m: bv32): bv32 { Mix32(m, 0x58d64a9b, 15, 0x747862ed) }

  function UnmixK4(m: bv32): bv32 { Mix32(m, 0x89c95413, 14, 0x58d64a9b) }

  lemma MixKCancels(k: bv32)
    ensures UnmixK1(MixK1(k)) == k && MixK1(UnmixK1(k)) == k
    ensures UnmixK2(MixK2(k)) == k && MixK2(UnmixK2(k)) == k
    ensures UnmixK3(MixK3(k)) == k && MixK3(UnmixK3(k)) == k
    ensures UnmixK4(MixK4(k)) == k && MixK4(UnmixK4(k)) == k
  {
    hide Mix32;
    MixCancels32(k, 0x239b961b, 15, 0xab0e9789, 0x89c95413, 0xdf130eb9);
    MixCancels32(k, 0xdf130eb9, 17, 0x89c95413, 0xab0e9789, 0x239b961b);
    MixCancels32(k, 0xab0e9789, 16, 0x38b34ae5, 0xdf130eb9, 0x747862ed);
    MixCancels32(k, 0x747862ed, 16, 0xdf130eb9, 0x38b34ae5, 0xab0e9789);
    MixCancels32(k, 0x38b34ae5, 17, 0xa1e38b93, 0x747862ed, 0x58d64a9b);
    MixCancels32(k, 0x58d64a9b, 15, 0x747862ed, 0xa1e38b93, 0x38b34ae5);
    MixCancels32(k, 0xa1e38b93, 18, 0x239b961b, 0x58d64a9b, 0x89c95413);
    MixCancels32(k, 0x89c95413, 14, 0x58d64a9b, 0x239b961b, 0xa1e38b93);
  }

  /** One iteration of the body loop on the block words k; each lane reads its right neighbour,
      the last one the already updated first lane. */
  function Round(h: Quad, k: Quad): Quad {
    var g1 := Stir32(h.h1, MixK1(k.h1), 19, h.h2, 0x561ccd1b);
    Quad(g1,
         Stir32(h.h2, MixK2(k.h2), 17, h.h3, 0x0bcaa747),
         Stir32(h.h3, MixK3(k.h3), 15, h.h4, 0x96cd1c35),
         Stir32(h.h4, MixK4(k.h4), 13, g1, 0x32ac3b17))
  }

  /** Undoes a round, from the last lane to the first. */
  function Unround(g: Quad, k: Quad): Quad {
    var h4 := Xor32(Unstir32(g.h4, 19, g.h1, 0x32ac3b17), MixK4(k.h4));
    var h3 := Xor32(Unstir32(g.h3, 17, h4, 0x96cd1c35), MixK3(k.h3));
    var h2 := Xor32(Unstir32(g.h2, 15, h3, 0x0bcaa747), MixK2(k.h2));
    Quad(Xor32(Unstir32(g.h1, 13, h2, 0x561ccd1b), MixK1(k.h1)), h2, h3, h4)
  }

  /** The block words that take state h to state g. */
  function WordsBetween(h: Quad, g: Quad): Quad {
    Quad(UnmixK1(Xor32(h.h1, Unstir32(g.h1, 13, h.h2, 0x561ccd1b))),
         UnmixK2(Xor32(h.h2, Unstir32(g.h2, 15, h.h3, 0x0bcaa747))),
         UnmixK3(Xor32(h.h3, Unstir32(g.h3, 17, h.h4, 0x96cd1c35))),
         UnmixK4(Xor32(h.h4, Unstir32(g.h4, 19, g.h1, 0x32ac3b17))))
  }

  lemma RoundUndone(h: Quad, k: Quad)
    ensures Unround(Round(h, k), k) == h
    ensures Round(Unround(h, k), k) == h
  {
    hide MixK1, MixK2, MixK3, MixK4, Stir32, Unstir32, Xor32;
    var g, u := Round(h, k), Unround(h, k);
    LaneUndone32(h.h1, MixK1(k.h1), 19, h.h2, 0x561ccd1b);
    LaneUndone32(h.h2, MixK2(k.h2), 17, h.h3, 0x0bcaa747);
    LaneUndone32(h.h3, MixK3(k.h3), 15, h.h4, 0x96cd1c35);
    LaneUndone32(h.h4, MixK4(k.h4), 13, g.h1, 0x32ac3b17);
    LaneUndone32(h.h1, MixK1(k.h1), 19, u.h2, 0x561ccd1b);
    LaneUndone32(h.h2, MixK2(k.h2), 17, u.h3, 0x0bcaa747);
    LaneUndone32(h.h3, MixK3(k.h3), 15, u.h4, 0x96cd1c35);
    LaneUndone32(h.h4, MixK4(k.h4), 13, h.h1, 0x32ac3b17);
  }

  lemma RoundSolved(h: Quad, g: Quad, k: Quad)
    ensures WordsBetween(h, Round(h, k)) == k
    ensures Round(h, WordsBetween(h, g)) == g
  {
    hide MixK1, MixK2, MixK3, MixK4, UnmixK1, UnmixK2, UnmixK3, UnmixK4, Stir32, Unstir32, Xor32;
    LaneSolved32(h.h1, MixK1(k.h1), g.h1, 19, h.h2, 0x561ccd1b);
    LaneSolved32(h.h2, MixK2(k.h2), g.h2, 17, h.h3, 0x0bcaa747);
    LaneSolved32(h.h3, MixK3(k.h3), g.h3, 15, h.h4, 0x96cd1c35);
    LaneSolved32(h.h4, MixK4(k.h4), 0, 13, Round(h, k).h1, 0x32ac3b17);
    LaneSolved32(h.h4, 0, g.h4, 13, g.h1, 0x32ac3b17);
    MixKCancels(k.h1);
    MixKCancels(k.h2);
    MixKCancels(k.h3);
    MixKCancels(k.h4);
    MixKCancels(Xor32(h.h1, Unstir32(g.h1, 13, h.h2, 0x561ccd1b)));
    MixKCancels(Xor32(h.h2, Unstir32(g.h2, 15, h.h3, 0x0bcaa747)));
    MixKCancels(Xor32(h.h3, Unstir32(g.h3, 17, h.h4, 0x96cd1c35)));
    MixKCancels(Xor32(h.h4, Unstir32(g.h4, 19, g.h1, 0x32ac3b17)));
  }

  // ---- tail and finalization ----

  /** The lane additions: h1 gathers the others, then each of them adds h1. */
  function Spread(h: Quad): Quad {
    var g1 := Plus32(Plus32(Plus32(h.h1, h.h2), h.h3), h.h4);
    Quad(g1, Plus32(h.h2, g1), Plus32(h.h3, g1), Plus32(h.h4, g1))
  }

  function Unspread(g: Quad): Quad {
    var h2, h3, h4 := Minus32(g.h2, g.h1), Minus32(g.h3, g.h1), Minus32(g.h4, g.h1);
    Quad(Minus32(Minus32(Minus32(g.h1, h4), h3), h2), h2, h3, h4)
  }

  function Fmix(h: Quad): Quad { Quad(Fmix32(h.h1), Fmix32(h.h2), Fmix32(h.h3), Fmix32(h.h4)) }

  function Unfmix(h: Quad): Quad { Quad(Unfmix32(h.h1), Unfmix32(h.h2), Unfmix32(h.h3), Unfmix32(h.h4)) }

  function XorAll(h: Quad, x: Quad): Quad {
    Quad(Xor32(h.h1, x.h1), Xor32(h.h2, x.h2), Xor32(h.h3, x.h3), Xor32(h.h4, x.h4))
  }

  /** The key length as it is mixed into every lane. */
  function Length(n: nat): Quad {
    var l := (n % 0x1_0000_0000) as bv32;
    Quad(l, l, l, l)
  }

  function BlockWords(block: seq<byte>): Quad {
    Quad(Load32(block, 0), Load32(block, 4), Load32(block, 8), Load32(block, 12))
  }

  /** The tail's contribution: its bytes as one zero-padded block, mixed but without a round. */
  function TailWords(tail: seq<byte>): Quad {
    var k := BlockWords(tail);
    Quad(MixK1(k.h1), MixK2(k.h2), MixK3(k.h3), MixK4(k.h4))
  }

  function Finish(h: Quad, tail: seq<byte>, n: nat): Quad {
    Spread(Fmix(Spread(XorAll(XorAll(h, TailWords(tail)), Length(n)))))
  }

  function Unfinish(g: Quad, tail: seq<byte>, n: nat): Quad {
    XorAll(XorAll(Unspread(Unfmix(Unspread(g))), Length(n)), TailWords(tail))
  }

  lemma SpreadUndone(h: Quad)
    ensures Unspread(Spread(h)) == h && Spread(Unspread(h)) == h
  {
    hide Plus32, Minus32;
    var a := Plus32(h.h1, h.h2);
    var b := Plus32(a, h.h3);
    var g1 := Plus32(b, h.h4);
    PlusCancels32(h.h1, h.h2);
    PlusCancels32(a, h.h3);
    PlusCancels32(b, h.h4);
    PlusCancels32(h.h2, g1);
    PlusCancels32(h.h3, g1);
    PlusCancels32(h.h4, g1);
    PlusCancels32(h.h2, h.h1);
    PlusCancels32(h.h3, h.h1);
    PlusCancels32(h.h4, h.h1);
    var u2, u3, u4 := Minus32(h.h2, h.h1), Minus32(h.h3, h.h1), Minus32(h.h4, h.h1);
    PlusCancels32(h.h1, u4);
    PlusCancels32(Minus32(h.h1, u4), u3);
    PlusCancels32(Minus32(Minus32(h.h1, u4), u3), u2);
  }

  lemma FmixUndone(h: Quad)
    ensures Unfmix(Fmix(h)) == h && Fmix(Unfmix(h)) == h
  {
    hide Fmix32, Unfmix32;
    FmixCancels32(h.h1);
    FmixCancels32(h.h2);
    FmixCancels32(h.h3);
    FmixCancels32(h.h4);
  }

  lemma XorAllUndone(h: Quad, x: Quad)
    ensures XorAll(XorAll(h, x), x) == h
    ensures XorAll(h, XorAll(h, x)) == x
  {
    hide Xor32;
    XorCancels32(h.h1, x.h1);
    XorCancels32(h.h2, x.h2);
    XorCancels32(h.h3, x.h3);
    XorCancels32(h.h4, x.h4);
  }

  lemma FinishUndone(h: Quad, tail: seq<byte>, n: nat)
    ensures Unfinish(Finish(h, tail, n), tail, n) == h
    ensures Finish(Unfinish(h, tail, n), tail, n) == h
  {
    hide Spread, Unspread, Fmix, Unfmix, XorAll, TailWords, Length;
    var m, l := TailWords(tail), Length(n);
    var a := XorAll(h, m);
    var b := XorAll(a, l);
    XorAllUndone(h, m);
    XorAllUndone(a, l);
    SpreadUndone(b);
    FmixUndone(Spread(b));
    SpreadUndone(Fmix(Spread(b)));
    var c := Unspread(h);
    var d := Unspread(Unfmix(c));
    SpreadUndone(h);
    FmixUndone(c);
    SpreadUndone(Unfmix(c));
    XorAllUndone(d, l);
    XorAllUndone(XorAll(d, l), m);
  }

  lemma TailWordsInjective(t: seq<byte>, u: seq<byte>)
    requires TailWords(t) == TailWords(u) && |t| == |u| <= 16
    ensures t == u
  {
    hide MixK1, MixK2, MixK3, MixK4, UnmixK1, UnmixK2, UnmixK3, UnmixK4, Load32;
    MixKCancels(Load32(t, 0));
    MixKCancels(Load32(u, 0));
    MixKCancels(Load32(t, 4));
    MixKCancels(Load32(u, 4));
    MixKCancels(Load32(t, 8));
    MixKCancels(Load32(u, 8));
    MixKCancels(Load32(t, 12));
    MixKCancels(Load32(u, 12));
    LoadInjective32(t, u, 0);
    LoadInjective32(t, u, 4);
    LoadInjective32(t, u, 8);
    LoadInjective32(t, u, 12);
    assert forall i | 0 <= i < |t| :: t[i] == Byte(t, i) && u[i] == Byte(u, i);
  }

  lemma FinishSeesTail(h: Quad, t: seq<byte>, u: seq<byte>, n: nat)
    requires Finish(h, t, n) == Finish(h, u, n) && |t| == |u| < 16
    ensures t == u
  {
    hide Spread, Unspread, Fmix, Unfmix, XorAll, TailWords, Length;
    var l := Length(n);
    var a, b := XorAll(h, TailWords(t)), XorAll(h, TailWords(u));
    SpreadUndone(XorAll(a, l));
    SpreadUndone(XorAll(b, l));
    FmixUndone(Spread(XorAll(a, l)));
    FmixUndone(Spread(XorAll(b, l)));
    SpreadUndone(Fmix(Spread(XorAll(a, l))));
    SpreadUndone(Fmix(Spread(XorAll(b, l))));
    XorAllUndone(a, l);
    XorAllUndone(b, l);
    XorAllUndone(h, TailWords(t));
    XorAllUndone(h, TailWords(u));
    TailWordsInjective(t, u);
  }

  // ---- the hash as a block hash ----

  function Step(h: Quad, block: seq<byte>): Quad { Round(h, BlockWords(block)) }

  function Unstep(h: Quad, block: seq<byte>): Quad { Unround(h, BlockWords(block)) }

  function Solve(h: Quad, g: Quad): seq<byte> {
    var k := WordsBetween(h, g);
    Store32(k.h1) + Store32(k.h2) + Store32(k.h3) + Store32(k.h4)
  }

  function X86Quad(): Scheme<Quad> {
    Scheme(16, Step, Finish, Unstep, Solve, Unfinish)
  }

  /** All four lanes start as the seed. */
  function Init(seed: bv32): Quad {
    Quad(seed, seed, seed, seed)
  }

  /** The 128-bit hash that MurmurHash3_x86_128 computes. */
  function Digest(key: seq<byte>, seed: bv32): Quad {
    Hash(X86Quad(), Init(seed), key)
  }

  // ---- a known answer, with the seed of the exported feature hash ----

  lemma KnownWords()
    ensures BlockWords([0, 1, 2, 3, 4, 5, 6, 7, 8, 9, 10, 11, 12, 13, 14, 15])
            == Quad(0x03020100, 0x07060504, 0x0b0a0908, 0x0f0e0d0c)
    ensures BlockWords([16, 17, 18, 19, 20, 21, 22, 23, 24, 25, 26, 27, 28, 29, 30])
            == Quad(0x13121110, 0x17161514, 0x1b1a1918, 0x001e1d1c)
  {
    assert Le32(0, 1, 2, 3) == 0x03020100;
    assert Le32(4, 5, 6, 7) == 0x07060504;
    assert Le32(8, 9, 10, 11) == 0x0b0a0908;
    assert Le32(12, 13, 14, 15) == 0x0f0e0d0c;
    assert Le32(16, 17, 18, 19) == 0x13121110;
    assert Le32(20, 21, 22, 23) == 0x17161514;
    assert Le32(24, 25, 26, 27) == 0x1b1a1918;
    assert Le32(28, 29, 30, 0) == 0x001e1d1c;
    hide Le32;
  }

  lemma KnownMixes()
    ensures MixK1(0x03020100) == 0x906acc96 && MixK2(0x07060504) == 0x7ca7fc3e
    ensures MixK3(0x0b0a0908) == 0xd82712d4 && MixK4(0x0f0e0d0c) == 0xc9e1e1a4
    ensures MixK1(0x13121110) == 0xcdf3a7a3 && MixK2(0x17161514) == 0xd459b2b8
    ensures MixK3(0x1b1a1918) == 0xf4b8e366 && MixK4(0x001e1d1c) == 0x02e68de1
  {
  }

  lemma KnownStirs()
    ensures Stir32(141652681, 0x906acc96, 19, 141652681, 0x561ccd1b) == 0x3f43cf59
    ensures Stir32(141652681, 0x7ca7fc3e, 17, 141652681, 0x0bcaa747) == 0xcbac7595
    ensures Stir32(141652681, 0xd82712d4, 15, 141652681, 0x96cd1c35) == 0xb14ee2f9
    ensures Stir32(141652681, 0xc9e1e1a4, 13, 0x3f43cf59, 0x32ac3b17) == 0xcb23e0ce
  {
  }

  lemma KnownStep()
    ensures Step(Init(141652681), [0, 1, 2, 3, 4, 5, 6, 7, 8, 9, 10, 11, 12, 13, 14, 15])
            == Quad(0x3f43cf59, 0xcbac7595, 0xb14ee2f9, 0xcb23e0ce)
  {
    KnownWords();
    KnownMixes();
    KnownStirs();
    hide BlockWords, MixK1, MixK2, MixK3, MixK4, Stir32;
  }

  lemma KnownTail()
    ensures TailWords([16, 17, 18, 19, 20, 21, 22, 23, 24, 25, 26, 27, 28, 29, 30])
            == Quad(0xcdf3a7a3, 0xd459b2b8, 0xf4b8e366, 0x02e68de1)
  {
    KnownWords();
    KnownMixes();
    hide BlockWords, MixK1, MixK2, MixK3, MixK4;
  }

  lemma KnownXors()
    ensures Length(31) == Quad(31, 31, 31, 31)
    ensures XorAll(Quad(0x3f43cf59, 0xcbac7595, 0xb14ee2f9, 0xcb23e0ce),
                   Quad(0xcdf3a7a3, 0xd459b2b8, 0xf4b8e366, 0x02e68de1))
            == Quad(0xf2b068fa, 0x1ff5c72d, 0x45f6019f, 0xc9c56d2f)
    ensures XorAll(Quad(0xf2b068fa, 0x1ff5c72d, 0x45f6019f, 0xc9c56d2f), Quad(31, 31, 31, 31))
            == Quad(0xf2b068e5, 0x1ff5c732, 0x45f60180, 0xc9c56d30)
  {
    assert 31 % 0x1_0000_0000 == 31;
  }

  lemma KnownSpreads()
    ensures Spread(Quad(0xf2b068e5, 0x1ff5c732, 0x45f60180, 0xc9c56d30))
            == Quad(0x22619ec7, 0x425765f9, 0x6857a047, 0xec270bf7)
    ensures Spread(Quad(0xd4e2c806, 0x5eaa2c1b, 0x9333105e, 0x91882ef8))
            == Quad(0x58483377, 0xb6f25f92, 0xeb7b43d5, 0xe9d0626f)
  {
  }

  lemma KnownFmix()
    ensures Fmix(Quad(0x22619ec7, 0x425765f9, 0x6857a047, 0xec270bf7))
            == Quad(0xd4e2c806, 0x5eaa2c1b, 0x9333105e, 0x91882ef8)
  {
  }

  lemma KnownFinish()
    ensures Finish(Quad(0x3f43cf59, 0xcbac7595, 0xb14ee2f9, 0xcb23e0ce),
                   [16, 17, 18, 19, 20, 21, 22, 23, 24, 25, 26, 27, 28, 29, 30], 31)
            == Quad(0x58483377, 0xb6f25f92, 0xeb7b43d5, 0xe9d0626f)
  {
    KnownTail();
    KnownXors();
    KnownSpreads();
    KnownFmix();
    hide TailWords, Length, XorAll, Spread, Fmix;
  }

  /** A known answer: one block and a tail that needs all four words. */
  lemma KnownAnswer()
    ensures Digest([0, 1, 2, 3, 4, 5, 6, 7, 8, 9, 10, 11, 12, 13, 14, 15,
                    16, 17, 18, 19, 20, 21, 22, 23, 24, 25, 26, 27, 28, 29, 30], 141652681)
            == Quad(0x58483377, 0xb6f25f92, 0xeb7b43d5, 0xe9d0626f)
  {
    KnownStep();
    KnownFinish();
    hide Step, Finish, Init;
    var block: seq<byte> := [0, 1, 2, 3, 4, 5, 6, 7, 8, 9, 10, 11, 12, 13, 14, 15];
    var rest: seq<byte> := [16, 17, 18, 19, 20, 21, 22, 23, 24, 25, 26, 27, 28, 29, 30];
    OneBlock(X86Quad(), Init(141652681), block, rest);
    assert block + rest == [0, 1, 2, 3, 4, 5, 6, 7, 8, 9, 10, 11, 12, 13, 14, 15,
                            16, 17, 18, 19, 20, 21, 22, 23, 24, 25, 26, 27, 28, 29, 30];
  }

  lemma SolveReaches(h: Quad, g: Quad)
    ensures |Solve(h, g)| == 16 && Step(h, Solve(h, g)) == g
  {
    hide Round, WordsBetween, Load32, Store32;
    var k, b := WordsBetween(h, g), Solve(h, g);
    RoundSolved(h, g, k);
    assert b[0..4] == Store32(k.h1) && b[4..8] == Store32(k.h2);
    assert b[8..12] == Store32(k.h3) && b[12..16] == Store32(k.h4);
    LoadStore32(b, 0, k.h1);
    LoadStore32(b, 4, k.h2);
    LoadStore32(b, 8, k.h3);
    LoadStore32(b, 12, k.h4);
  }

  lemma SolveUnique(h: Quad, block: seq<byte>)
    requires |block| == 16
    ensures Solve(h, Step(h, block)) == block
  {
    hide Round, WordsBetween, Load32, Store32;
    RoundSolved(h, h, BlockWords(block));
    StoreLoad32(block, 0);
    StoreLoad32(block, 4);
    StoreLoad32(block, 8);
    StoreLoad32(block, 12);
    assert block[0..4] + block[4..8] + block[8..12] + block[12..16] == block;
  }

  lemma QuadStepUndone()
    ensures StepUndone(X86Quad())
  {
    forall s: Quad, b: seq<byte>
      ensures Unstep(Step(s, b), b) == s && Step(Unstep(s, b), b) == s
    {
      hide Round, Unround, BlockWords;
      RoundUndone(s, BlockWords(b));
    }
  }

  lemma QuadBlockSolved()
    ensures BlockSolved(X86Quad())
  {
    hide Step, Solve;
    forall s: Quad, t: Quad
      ensures |Solve(s, t)| == 16 && Step(s, Solve(s, t)) == t
    {
      SolveReaches(s, t);
    }
    forall s: Quad, b: seq<byte> | |b| == 16
      ensures Solve(s, Step(s, b)) == b
    {
      SolveUnique(s, b);
    }
  }

  lemma QuadFinishUndone()
    ensures BlockHash.FinishUndone(X86Quad())
  {
    hide Finish, Unfinish;
    forall s: Quad, tail: seq<byte>, n: nat
      ensures Unfinish(Finish(s, tail, n), tail, n) == s && Finish(Unfinish(s, tail, n), tail, n) == s
    {
      FinishUndone(s, tail, n);
    }
  }

  lemma QuadTailSeen()
    ensures TailSeen(X86Quad())
  {
    hide Finish;
    forall s: Quad, t: seq<byte>, u: seq<byte>, n: nat | |t| == |u| < 16 && Finish(s, t, n) == Finish(s, u, n)
      ensures t == u
    {
      FinishSeesTail(s, t, u, n);
    }
  }

  lemma QuadLawful()
    ensures Lawful(X86Quad())
  {
    hide StepUndone, BlockSolved, BlockHash.FinishUndone, TailSeen;
    QuadStepUndone();
    QuadBlockSolved();
    QuadFinishUndone();
    QuadTailSeen();
  }

  /** Two keys that differ only inside one aligned 16-byte block have different hashes, and every
      128-bit value is the hash of exactly one choice of that block. */
  lemma BlockTheorem(seed: bv32, p: seq<byte>, b: seq<byte>, c: seq<byte>, q: seq<byte>, h: Quad)
    requires |p| % 16 == 0 && |b| == |c| == 16
    ensures Digest(p + b + q, seed) == Digest(p + c + q, seed) <==> b == c
    ensures |BlockFor(X86Quad(), Init(seed), p, q, h)| == 16
    ensures Digest(p + b + q, seed) == h <==> b == BlockFor(X86Quad(), Init(seed), p, q, h)
  {
    QuadLawful();
    AlignedMultiple(16, |p| / 16);
    hide *;
    OneBlockDecides(X86Quad(), Init(seed), p, b, c, q);
    BlockBijective(X86Quad(), Init(seed), p, b, q, h);
  }

  lemma TailTheorem(seed: bv32, p: seq<byte>, t: seq<byte>, u: seq<byte>)
    requires |p| % 16 == 0 && |t| == |u| < 16
    ensures Digest(p + t, seed) == Digest(p + u, seed) <==> t == u
  {
    QuadLawful();
    AlignedMultiple(16, |p| / 16);
    TailDecides(X86Quad(), Init(seed), p, t, u);
  }

  lemma SeedTheorem(key: seq<byte>, seed: bv32, other: bv32)
    ensures Digest(key, seed) == Digest(key, other) <==> seed == other
  {
    QuadLawful();
    hide Hash, Unhash, Lawful;
    HashUndone(X86Quad(), Init(seed), key);
    HashUndone(X86Quad(), Init(other), key);
  }

  // ---- the algorithm ----

  /** One iteration of the body loop. */
  method BodyRound(w: Quad, h: Quad) returns (g: Quad)
    ensures g == Round(h, w)
  {
    hide Rotl32, Times32, Xor32, Plus32, Affine32;
    var k1, k2, k3, k4 := w.h1, w.h2, w.h3, w.h4;
    var h1, h2, h3, h4 := h.h1, h.h2, h.h3, h.h4;
    k1 := Times32(k1, 0x239b961b);
    k1 := Rotl32(k1, 15);
    k1 := Times32(k1, 0xab0e9789);
    h1 := Xor32(h1, k1);
    h1 := Rotl32(h1, 19);
    h1 := Plus32(h1, h2);
    h1 := Affine32(h1, 0x561ccd1b);
    k2 := Times32(k2, 0xab0e9789);
    k2 := Rotl32(k2, 16);
    k2 := Times32(k2, 0x38b34ae5);
    h2 := Xor32(h2, k2);
    h2 := Rotl32(h2, 17);
    h2 := Plus32(h2, h3);
    h2 := Affine32(h2, 0x0bcaa747);
    k3 := Times32(k3, 0x38b34ae5);
    k3 := Rotl32(k3, 17);
    k3 := Times32(k3, 0xa1e38b93);
    h3 := Xor32(h3, k3);
    h3 := Rotl32(h3, 15);
    h3 := Plus32(h3, h4);
    h3 := Affine32(h3, 0x96cd1c35);
    k4 := Times32(k4, 0xa1e38b93);
    k4 := Rotl32(k4, 18);
    k4 := Times32(k4, 0x239b961b);
    h4 := Xor32(h4, k4);
    h4 := Rotl32(h4, 13);
    h4 := Plus32(h4, h1);
    h4 := Affine32(h4, 0x32ac3b17);
    g := Quad(h1, h2, h3, h4);
  }

  lemma LoadedBlock(key: array<byte>, at: nat, base: nat, i: int, len: nat)
    requires at == base + 16 * i && at + 16 <= len <= key.Length
    ensures var rest := key[at..len];
            && rest[16..] == key[at + 16..len]
            && BlockWords(rest[..16]) == Quad(GetBlock32(key, base, i * 4 + 0), GetBlock32(key, base, i * 4 + 1),
                                              GetBlock32(key, base, i * 4 + 2), GetBlock32(key, base, i * 4 + 3))
  {
    hide Le32;
  }

  /** The body loop: the block pointer stands after the last whole block and i counts up to zero. */
  method BodyLoop(key: array<byte>, len: nat, seed: bv32) returns (h: Quad)
    requires len <= key.Length
    ensures h == Body(X86Quad(), Init(seed), key[..len])
    ensures Tail(16, key[..len]) == key[len / 16 * 16..len]
  {
    hide Round, GetBlock32, BlockWords;
    var nblocks := len / 16;
    h := Init(seed);
    var i := -nblocks;
    while i != 0
      invariant -nblocks <= i <= 0
      invariant Body(X86Quad(), h, key[nblocks * 16 + 16 * i..len]) == Body(X86Quad(), Init(seed), key[..len])
      invariant Tail(16, key[nblocks * 16 + 16 * i..len]) == Tail(16, key[..len])
    {
      LoadedBlock(key, nblocks * 16 + 16 * i, nblocks * 16, i, len);
      var k1 := GetBlock32(key, nblocks * 16, i * 4 + 0);
      var k2 := GetBlock32(key, nblocks * 16, i * 4 + 1);
      var k3 := GetBlock32(key, nblocks * 16, i * 4 + 2);
      var k4 := GetBlock32(key, nblocks * 16, i * 4 + 3);
      h := BodyRound(Quad(k1, k2, k3, k4), h);
      i := i + 1;
    }
  }

  /** The case labels of one tail word, falling through: bytes 4*w to 4*w + 3 of the tail. */
  method Gather(key: array<byte>, at: nat, r: nat, w: nat) returns (k: bv32)
    requires r < 16 && at + r <= key.Length && w < 4
    ensures k == Load32(key[at..at + r], 4 * w)
  {
    hide Put32, Le32;
    ghost var t := key[at..at + r];
    var o := 4 * w;
    k := 0;
    if r >= o + 4 { k := Put32(k, key[at + o + 3], 24); }
    if r >= o + 3 { k := Put32(k, key[at + o + 2], 16); }
    if r >= o + 2 { k := Put32(k, key[at + o + 1], 8); }
    if r >= o + 1 { k := Put32(k, key[at + o], 0); }
    PutsOfZero32();
    Gathered32(Byte(t, o), Byte(t, o + 1), Byte(t, o + 2), Byte(t, o + 3));
  }

  lemma ZeroMixes(h: bv32)
    ensures MixK1(0) == 0 && MixK2(0) == 0 && MixK3(0) == 0 && MixK4(0) == 0
    ensures Xor32(h, 0) == h && Le32(0, 0, 0, 0) == 0
  {
  }

  /** The tail switch on `len & 15`, its cases falling through from the last byte to the first. */
  method TailSwitch(key: array<byte>, at: nat, r: nat, h: Quad) returns (g: Quad)
    requires r < 16 && at + r <= key.Length
    ensures g == XorAll(h, TailWords(key[at..at + r]))
  {
    hide Times32, Rotl32, Xor32, Le32;
    ghost var t := key[at..at + r];
    var h1, h2, h3, h4 := h.h1, h.h2, h.h3, h.h4;
    if r >= 13 {
      var k4 := Gather(key, at, r, 3);
      k4 := Times32(k4, 0xa1e38b93);
      k4 := Rotl32(k4, 18);
      k4 := Times32(k4, 0x239b961b);
      h4 := Xor32(h4, k4);
    } else {
      ZeroMixes(h4);
    }
    assert h4 == Xor32(h.h4, MixK4(Load32(t, 12)));
    if r >= 9 {
      var k3 := Gather(key, at, r, 2);
      k3 := Times32(k3, 0x38b34ae5);
      k3 := Rotl32(k3, 17);
      k3 := Times32(k3, 0xa1e38b93);
      h3 := Xor32(h3, k3);
    } else {
      ZeroMixes(h3);
    }
    assert h3 == Xor32(h.h3, MixK3(Load32(t, 8)));
    if r >= 5 {
      var k2 := Gather(key, at, r, 1);
      k2 := Times32(k2, 0xab0e9789);
      k2 := Rotl32(k2, 16);
      k2 := Times32(k2, 0x38b34ae5);
      h2 := Xor32(h2, k2);
    } else {
      ZeroMixes(h2);
    }
    assert h2 == Xor32(h.h2, MixK2(Load32(t, 4)));
    if r >= 1 {
      var k1 := Gather(key, at, r, 0);
      k1 := Times32(k1, 0x239b961b);
      k1 := Rotl32(k1, 15);
      k1 := Times32(k1, 0xab0e9789);
      h1 := Xor32(h1, k1);
    } else {
      ZeroMixes(h1);
    }
    assert h1 == Xor32(h.h1, MixK1(Load32(t, 0)));
    g := Quad(h1, h2, h3, h4);
  }

  /** The statements `h1 += h2; h1 += h3; h1 += h4; h2 += h1; h3 += h1; h4 += h1`. */
  method SpreadInPlace(h: Quad) returns (g: Quad)
    ensures g == Spread(h)
  {
    hide Plus32;
    var h1, h2, h3, h4 := h.h1, h.h2, h.h3, h.h4;
    h1 := Plus32(h1, h2);
    h1 := Plus32(h1, h3);
    h1 := Plus32(h1, h4);
    h2 := Plus32(h2, h1);
    h3 := Plus32(h3, h1);
    h4 := Plus32(h4, h1);
    g := Quad(h1, h2, h3, h4);
  }

  /** The finalization: mix in the length, spread the lanes, fmix each, spread again. */
  method Finalize(h: Quad, len: int, ghost tail: seq<byte>, ghost body: Quad) returns (g: Quad)
    requires 0 <= len < 0x8000_0000
    requires h == XorAll(body, TailWords(tail))
    ensures g == Finish(body, tail, len)
  {
    hide Spread, Fmix32, TailWords, Xor32;
    var l := len as bv32;
    assert Length(len) == Quad(l, l, l, l);
    g := Quad(Xor32(h.h1, l), Xor32(h.h2, l), Xor32(h.h3, l), Xor32(h.h4, l));
    g := SpreadInPlace(g);
    var h1 := FmixInPlace32(g.h1);
    var h2 := FmixInPlace32(g.h2);
    var h3 := FmixInPlace32(g.h3);
    var h4 := FmixInPlace32(g.h4);
    g := SpreadInPlace(Quad(h1, h2, h3, h4));
  }

  method MurmurHash3_x86_128(key: array<byte>, len: int, seed: bv32, out: array<bv32>)
    requires 0 <= len < 0x8000_0000 && len <= key.Length && 4 <= out.Length
    modifies out
    ensures Quad(out[0], out[1], out[2], out[3]) == Digest(key[..len], seed)
    ensures out[4..] == old(out[4..])
  {
    hide Body, Tail, Finish, TailWords, XorAll;
    var h := BodyLoop(key, len, seed);
    ghost var body, tail := h, key[len / 16 * 16..len];
    assert key[len / 16 * 16..len / 16 * 16 + len % 16] == tail;
    h := TailSwitch(key, len / 16 * 16, len % 16, h);
    h := Finalize(h, len, tail, body);
    out[0] := h.h1;
    out[1] := h.h2;
    out[2] := h.h3;
    out[3] := h.h4;
  }
}
