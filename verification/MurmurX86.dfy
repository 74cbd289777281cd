/** MurmurHash3_x86_32: one 32-bit lane over 4-byte blocks. */
module MurmurX86 {
  import opened Bits
  import opened Bytes
  import opened BlockHash

  function MixK(k: bv32): bv32 { Mix32(k, 0xcc9e2d51, 15, 0x1b873593) }

  function UnmixK(m: bv32): bv32 { Mix32(m, 0x56ed309b, 17, 0xdee13bb1) }

  lemma MixKCancels(k: bv32)
    ensures UnmixK(MixK(k)) == k && MixK(UnmixK(k)) == k
  {
    hide Mix32;
    MixCancels32(k, 0xcc9e2d51, 15, 0x1b873593, 0xdee13bb1, 0x56ed309b);
    MixCancels32(k, 0x56ed309b, 17, 0xdee13bb1, 0x1b873593, 0xcc9e2d51);
  }

  /** One iteration of the body loop on the block word k. */
  function Round(h: bv32, k: bv32): bv32 {
    Affine32(Rotl32(Xor32(h, MixK(k)), 13), 0xe6546b64)
  }

  function Unround(g: bv32, k: bv32): bv32 {
    Xor32(Rotl32(Unaffine32(g, 0xe6546b64), 19), MixK(k))
  }

  /** The block word that takes state h to state g. */
  function WordBetween(h: bv32, g: bv32): bv32 {
    UnmixK(Xor32(h, Rotl32(Unaffine32(g, 0xe6546b64), 19)))
  }

  lemma RoundUndone(h: bv32, k: bv32)
    ensures Unround(Round(h, k), k) == h && Round(Unround(h, k), k) == h
  {
    hide MixK, Rotl32, Xor32, Affine32, Unaffine32;
    var m := MixK(k);
    XorCancels32(h, m);
    RotlCancels32(Xor32(h, m));
    AffineCancels32(Rotl32(Xor32(h, m), 13), 0xe6546b64);
    var x := Unaffine32(h, 0xe6546b64);
    XorCancels32(Rotl32(x, 19), m);
    RotlCancels32(x);
    UnaffineCancels32(h, 0xe6546b64);
  }

  lemma RoundSolved(h: bv32, g: bv32, k: bv32)
    ensures WordBetween(h, Round(h, k)) == k && Round(h, WordBetween(h, g)) == g
  {
    hide MixK, UnmixK, Rotl32, Xor32, Affine32, Unaffine32;
    var m := MixK(k);
    MixKCancels(k);
    XorCancels32(h, m);
    RotlCancels32(Xor32(h, m));
    AffineCancels32(Rotl32(Xor32(h, m), 13), 0xe6546b64);
    var x := Unaffine32(g, 0xe6546b64);
    MixKCancels(Xor32(h, Rotl32(x, 19)));
    XorCancels32(h, Rotl32(x, 19));
    RotlCancels32(x);
    UnaffineCancels32(g, 0xe6546b64);
  }

  function Length32(n: nat): bv32 {
    (n % 0x1_0000_0000) as bv32
  }

  function Finish(h: bv32, tail: seq<byte>, n: nat): bv32 {
    Fmix32(Xor32(Xor32(h, MixK(Load32(tail, 0))), Length32(n)))
  }

  function Unfinish(g: bv32, tail: seq<byte>, n: nat): bv32 {
    Xor32(Xor32(Unfmix32(g), Length32(n)), MixK(Load32(tail, 0)))
  }

  lemma FinishUndone(h: bv32, tail: seq<byte>, n: nat)
    ensures Unfinish(Finish(h, tail, n), tail, n) == h
    ensures Finish(Unfinish(h, tail, n), tail, n) == h
  {
    hide Fmix32, Unfmix32, MixK, Xor32, Load32, Length32;
    var m, l := MixK(Load32(tail, 0)), Length32(n);
    XorCancels32(h, m);
    XorCancels32(Xor32(h, m), l);
    FmixCancels32(Xor32(Xor32(h, m), l));
    FmixCancels32(h);
    XorCancels32(Unfmix32(h), l);
    XorCancels32(Xor32(Unfmix32(h), l), m);
  }

  lemma FinishSeesTail(h: bv32, t: seq<byte>, u: seq<byte>, n: nat)
    requires Finish(h, t, n) == Finish(h, u, n) && |t| == |u| < 4
    ensures t == u
  {
    hide Fmix32, Unfmix32, MixK, UnmixK, Xor32, Load32, Length32;
    var l := Length32(n);
    var k, j := Load32(t, 0), Load32(u, 0);
    FmixCancels32(Xor32(Xor32(h, MixK(k)), l));
    FmixCancels32(Xor32(Xor32(h, MixK(j)), l));
    XorCancels32(Xor32(h, MixK(k)), l);
    XorCancels32(Xor32(h, MixK(j)), l);
    XorCancels32(h, MixK(k));
    XorCancels32(h, MixK(j));
    MixKCancels(k);
    MixKCancels(j);
    LoadInjective32(t, u, 0);
    assert forall i | 0 <= i < |t| :: t[i] == Byte(t, i) && u[i] == Byte(u, i);
  }

  // ---- the hash as a block hash ----

  function Step(h: bv32, block: seq<byte>): bv32 { Round(h, Load32(block, 0)) }

  function Unstep(h: bv32, block: seq<byte>): bv32 { Unround(h, Load32(block, 0)) }

  function Solve(h: bv32, g: bv32): seq<byte> { Store32(WordBetween(h, g)) }

  function X86(): Scheme<bv32> {
    Scheme(4, Step, Finish, Unstep, Solve, Unfinish)
  }

  /** The 32-bit hash that MurmurHash3_x86_32 computes. */
  function Digest(key: seq<byte>, seed: bv32): bv32 {
    Hash(X86(), seed, key)
  }

  // ---- a known answer, with the seed of the exported feature hash ----

  lemma KnownWords()
    ensures Le32(0, 1, 2, 3) == 0x03020100 && Le32(4, 5, 6, 0) == 0x00060504
    ensures MixK(0x03020100) == 0xe3fd86a5 && MixK(0x00060504) == 0x4e3cbfe0
  {
  }

  lemma KnownStep()
    ensures Step(141652681, [0, 1, 2, 3]) == 0xff187e99
  {
    KnownWords();
    hide Le32, MixK;
  }

  lemma KnownLength()
    ensures Length32(7) == 7
  {
    assert 7 % 0x1_0000_0000 == 7;
  }

  lemma KnownFinish()
    ensures Finish(0xff187e99, [4, 5, 6], 7) == 0xc26c2e79
  {
    KnownWords();
    KnownLength();
    hide Le32, MixK, Length32;
  }

  /** A known answer: one block and a tail of three bytes. */
  lemma KnownAnswer()
    ensures Digest([0, 1, 2, 3, 4, 5, 6], 141652681) == 0xc26c2e79
  {
    KnownStep();
    KnownFinish();
    hide Step, Finish;
    var block, rest: seq<byte> := [0, 1, 2, 3], [4, 5, 6];
    OneBlock(X86(), 141652681, block, rest);
    assert block + rest == [0, 1, 2, 3, 4, 5, 6];
  }

  lemma StepSolved(h: bv32, g: bv32, block: seq<byte>)
    ensures |Solve(h, g)| == 4 && Step(h, Solve(h, g)) == g
    ensures |block| == 4 ==> Solve(h, Step(h, block)) == block
  {
    hide Round, WordBetween, Load32, Store32;
    RoundSolved(h, g, Load32(block, 0));
    var b := Solve(h, g);
    assert b[0..4] == b;
    LoadStore32(b, 0, WordBetween(h, g));
    if |block| == 4 {
      StoreLoad32(block, 0);
      assert block[0..4] == block;
    }
  }

  lemma X86StepUndone()
    ensures StepUndone(X86())
  {
    forall s: bv32, b: seq<byte>
      ensures Unstep(Step(s, b), b) == s && Step(Unstep(s, b), b) == s
    {
      hide Round, Unround, Load32;
      RoundUndone(s, Load32(b, 0));
    }
  }

  lemma X86BlockSolved()
    ensures BlockSolved(X86())
  {
    hide Step, Solve;
    forall s: bv32, t: bv32
      ensures |Solve(s, t)| == 4 && Step(s, Solve(s, t)) == t
    {
      StepSolved(s, t, []);
    }
    forall s: bv32, b: seq<byte> | |b| == 4
      ensures Solve(s, Step(s, b)) == b
    {
      StepSolved(s, s, b);
    }
  }

  lemma X86FinishUndone()
    ensures BlockHash.FinishUndone(X86())
  {
    hide Finish, Unfinish;
    forall s: bv32, tail: seq<byte>, n: nat
      ensures Unfinish(Finish(s, tail, n), tail, n) == s && Finish(Unfinish(s, tail, n), tail, n) == s
    {
      FinishUndone(s, tail, n);
    }
  }

  lemma X86TailSeen()
    ensures TailSeen(X86())
  {
    hide Finish;
    forall s: bv32, t: seq<byte>, u: seq<byte>, n: nat | |t| == |u| < 4 && Finish(s, t, n) == Finish(s, u, n)
      ensures t == u
    {
      FinishSeesTail(s, t, u, n);
    }
  }

  lemma X86Lawful()
    ensures Lawful(X86())
  {
    hide StepUndone, BlockSolved, BlockHash.FinishUndone, TailSeen;
    X86StepUndone();
    X86BlockSolved();
    X86FinishUndone();
    X86TailSeen();
  }

  /** Two keys that differ only inside one aligned 4-byte block have different hashes, and every
      32-bit value is the hash of exactly one choice of that block. */
  lemma BlockTheorem(seed: bv32, p: seq<byte>, b: seq<byte>, c: seq<byte>, q: seq<byte>, h: bv32)
    requires |p| % 4 == 0 && |b| == |c| == 4
    ensures Digest(p + b + q, seed) == Digest(p + c + q, seed) <==> b == c
    ensures |BlockFor(X86(), seed, p, q, h)| == 4
    ensures Digest(p + b + q, seed) == h <==> b == BlockFor(X86(), seed, p, q, h)
  {
    X86Lawful();
    AlignedMultiple(4, |p| / 4);
    hide *;
    OneBlockDecides(X86(), seed, p, b, c, q);
    BlockBijective(X86(), seed, p, b, q, h);
  }

  lemma TailTheorem(seed: bv32, p: seq<byte>, t: seq<byte>, u: seq<byte>)
    requires |p| % 4 == 0 && |t| == |u| < 4
    ensures Digest(p + t, seed) == Digest(p + u, seed) <==> t == u
  {
    X86Lawful();
    AlignedMultiple(4, |p| / 4);
    TailDecides(X86(), seed, p, t, u);
  }

  /** For a fixed key, the seed and the hash determine each other: a bijection of 32-bit words. */
  lemma SeedTheorem(key: seq<byte>, seed: bv32, h: bv32)
    ensures Digest(key, seed) == h <==> seed == Unhash(X86(), h, key)
  {
    X86Lawful();
    hide Hash, Unhash, Lawful;
    HashUndone(X86(), seed, key);
    HashUndone(X86(), h, key);
  }

  // ---- the algorithm ----

  method BodyRound(w: bv32, h0: bv32) returns (h: bv32)
    ensures h == Round(h0, w)
  {
    hide Rotl32, Times32, Xor32, Affine32;
    var k1 := w;
    h := h0;
    k1 := Times32(k1, 0xcc9e2d51);
    k1 := Rotl32(k1, 15);
    k1 := Times32(k1, 0x1b873593);
    h := Xor32(h, k1);
    h := Rotl32(h, 13);
    h := Affine32(h, 0xe6546b64);
  }

  lemma BlockWord(key: array<byte>, at: nat, len: nat)
    requires at + 4 <= len <= key.Length
    ensures var rest := key[at..len];
            && rest[4..] == key[at + 4..len]
            && Le32(key[at], key[at + 1], key[at + 2], key[at + 3]) == Load32(rest[..4], 0)
  {
    hide Le32;
  }

  /** The body loop: the block pointer stands after the last whole block and i counts up to zero. */
  method BodyLoop(key: array<byte>, len: nat, seed: bv32) returns (h: bv32)
    requires len <= key.Length
    ensures h == Body(X86(), seed, key[..len])
    ensures Tail(4, key[..len]) == key[len / 4 * 4..len]
  {
    hide Round, Le32, Load32;
    var nblocks := len / 4;
    h := seed;
    var i := -nblocks;
    while i != 0
      invariant -nblocks <= i <= 0
      invariant Body(X86(), h, key[nblocks * 4 + 4 * i..len]) == Body(X86(), seed, key[..len])
      invariant Tail(4, key[nblocks * 4 + 4 * i..len]) == Tail(4, key[..len])
    {
      BlockWord(key, nblocks * 4 + 4 * i, len);
      var k1 := GetBlock32(key, nblocks * 4, i);
      h := BodyRound(k1, h);
      i := i + 1;
    }
  }

  lemma ZeroMixes(h: bv32)
    ensures MixK(0) == 0 && Xor32(h, 0) == h && Le32(0, 0, 0, 0) == 0
  {
  }

  /** The tail switch on `len & 3`, its cases falling through from the last byte to the first. */
  method TailSwitch(key: array<byte>, at: nat, r: nat, h0: bv32) returns (h: bv32)
    requires r < 4 && at + r <= key.Length
    ensures h == Xor32(h0, MixK(Load32(key[at..at + r], 0)))
  {
    hide Times32, Rotl32, Xor32, Le32, Put32;
    ghost var t := key[at..at + r];
    var k1 := 0;
    h := h0;
    if r >= 3 { k1 := Put32(k1, key[at + 2], 16); }
    if r >= 2 { k1 := Put32(k1, key[at + 1], 8); }
    if r >= 1 {
      k1 := Put32(k1, key[at], 0);
      assert k1 == Load32(t, 0) by {
        PutsOfZero32();
        Gathered32(Byte(t, 0), Byte(t, 1), Byte(t, 2), Byte(t, 3));
      }
      k1 := Times32(k1, 0xcc9e2d51);
      k1 := Rotl32(k1, 15);
      k1 := Times32(k1, 0x1b873593);
      h := Xor32(h, k1);
    } else {
      ZeroMixes(h);
    }
  }

  method MurmurHash3_x86_32(key: array<byte>, len: int, seed: bv32, out: array<bv32>)
    requires 0 <= len < 0x8000_0000 && len <= key.Length && 1 <= out.Length
    modifies out
    ensures out[0] == Digest(key[..len], seed)
    ensures out[1..] == old(out[1..])
  {
    hide Body, Tail, Fmix32, MixK, Xor32, Load32;
    var h1 := BodyLoop(key, len, seed);
    h1 := TailSwitch(key, len / 4 * 4, len % 4, h1);
    assert Length32(len) == len as bv32;
    h1 := Xor32(h1, len as bv32);
    h1 := FmixInPlace32(h1);
    out[0] := h1;
  }
}
