/** Hashes that absorb a key block by block: what follows for any such hash whose round,
    finish and block decoding can be undone. The three MurmurHash3 variants are instances. */
module BlockHash {
  import opened Bytes

  /** A block hash with state S. `step` absorbs one block of `width` bytes; `finish` absorbs the
      remaining tail and the key length and mixes the result. The other three fields undo them:
      `unstep` and `unfinish` recover the state, `solve` finds the block between two states. */
  datatype Scheme<!S> = Scheme(
    width: pos,
    step: (S, seq<byte>) -> S,
    finish: (S, seq<byte>, nat) -> S,
    unstep: (S, seq<byte>) -> S,
    solve: (S, S) -> seq<byte>,
    unfinish: (S, seq<byte>, nat) -> S
  )

  ghost predicate StepUndone<S(!new)>(a: Scheme<S>) {
    && (forall s: S, b {:trigger a.unstep(a.step(s, b), b)} :: a.unstep(a.step(s, b), b) == s)
    && (forall s: S, b {:trigger a.step(a.unstep(s, b), b)} :: a.step(a.unstep(s, b), b) == s)
  }

  ghost predicate BlockSolved<S(!new)>(a: Scheme<S>) {
    && (forall s: S, t: S {:trigger a.solve(s, t)} ::
          |a.solve(s, t)| == a.width && a.step(s, a.solve(s, t)) == t)
    && (forall s: S, b {:trigger a.solve(s, a.step(s, b))} ::
          |b| == a.width ==> a.solve(s, a.step(s, b)) == b)
  }

  ghost predicate FinishUndone<S(!new)>(a: Scheme<S>) {
    && (forall s: S, tail, n {:trigger a.unfinish(a.finish(s, tail, n), tail, n)} ::
          a.unfinish(a.finish(s, tail, n), tail, n) == s)
    && (forall s: S, tail, n {:trigger a.finish(a.unfinish(s, tail, n), tail, n)} ::
          a.finish(a.unfinish(s, tail, n), tail, n) == s)
  }

  ghost predicate TailSeen<S(!new)>(a: Scheme<S>) {
    forall s: S, t, u, n {:trigger a.finish(s, t, n), a.finish(s, u, n)} ::
      |t| == |u| < a.width && a.finish(s, t, n) == a.finish(s, u, n) ==> t == u
  }

  ghost predicate Lawful<S(!new)>(a: Scheme<S>) {
    StepUndone(a) && BlockSolved(a) && FinishUndone(a) && TailSeen(a)
  }

  /** The state after every whole block of key, in ascending order, starting from s. */
  function Body<S>(a: Scheme<S>, s: S, key: seq<byte>): S
    decreases |key|
  {
    if |key| < a.width then s else Body(a, a.step(s, key[..a.width]), key[a.width..])
  }

  /** The bytes left over when the whole blocks are taken away. */
  function Tail(width: pos, key: seq<byte>): (t: seq<byte>)
    ensures |t| < width
    decreases |key|
  {
    if |key| < width then key else Tail(width, key[width..])
  }

  function Hash<S>(a: Scheme<S>, s: S, key: seq<byte>): S
  {
    a.finish(Body(a, s, key), Tail(a.width, key), |key|)
  }

  lemma NoBlock<S>(a: Scheme<S>, s: S, key: seq<byte>)
    requires |key| < a.width
    ensures Hash(a, s, key) == a.finish(s, key, |key|)
  {
  }

  lemma OneBlock<S>(a: Scheme<S>, s: S, block: seq<byte>, rest: seq<byte>)
    requires |rest| < |block| == a.width
    ensures Hash(a, s, block + rest) == a.finish(a.step(s, block), rest, |block| + |rest|)
  {
    var key := block + rest;
    assert key[..a.width] == block && key[a.width..] == rest;
    assert Body(a, s, key) == Body(a, a.step(s, block), rest) == a.step(s, block);
    assert Tail(a.width, key) == Tail(a.width, rest) == rest;
  }

  function Unbody<S>(a: Scheme<S>, s: S, key: seq<byte>): S
    decreases |key|
  {
    if |key| < a.width then s else a.unstep(Unbody(a, s, key[a.width..]), key[..a.width])
  }

  /** A length is aligned when it is a number of whole blocks. */
  predicate Aligned(width: pos, n: nat)
  {
    n == 0 || (width <= n && Aligned(width, n - width))
  }

  lemma {:induction false} AlignedMultiple(width: pos, n: nat)
    ensures Aligned(width, width * n)
  {
    if n > 0 {
      AlignedMultiple(width, n - 1);
      assert width * n - width == width * (n - 1);
      assert width <= width * n;
    }
  }

  /** Body and tail read each byte of the key once, in order, and nothing else: absorbing by
      appending gives the key back. */
  lemma {:induction false} EachByteOnce(a: Scheme<seq<byte>>, s: seq<byte>, key: seq<byte>)
    requires forall t, b :: a.step(t, b) == t + b
    ensures Body(a, s, key) + Tail(a.width, key) == s + key
    decreases |key|
  {
    if |key| < a.width {
    } else {
      EachByteOnce(a, s + key[..a.width], key[a.width..]);
      assert s + key[..a.width] + key[a.width..] == s + key;
    }
  }

  lemma {:induction false} SplitAligned<S>(a: Scheme<S>, s: S, p: seq<byte>, q: seq<byte>)
    requires Aligned(a.width, |p|)
    ensures Body(a, s, p + q) == Body(a, Body(a, s, p), q)
    ensures Tail(a.width, p + q) == Tail(a.width, q)
    decreases |p|
  {
    var w := a.width;
    if |p| == 0 {
      assert p + q == q;
    } else {
      assert (p + q)[..w] == p[..w];
      assert (p + q)[w..] == p[w..] + q;
      SplitAligned(a, a.step(s, p[..w]), p[w..], q);
    }
  }

  lemma HashIs<S>(a: Scheme<S>, s: S, key: seq<byte>)
    ensures Hash(a, s, key) == a.finish(Body(a, s, key), Tail(a.width, key), |key|)
  {
    hide Body, Tail;
  }

  lemma HashSplit<S>(a: Scheme<S>, s: S, p: seq<byte>, q: seq<byte>)
    requires Aligned(a.width, |p|)
    ensures Hash(a, s, p + q) == a.finish(Body(a, Body(a, s, p), q), Tail(a.width, q), |p| + |q|)
  {
    hide *;
    HashIs(a, s, p + q);
    SplitAligned(a, s, p, q);
    assert |p + q| == |p| + |q|;
    assert Hash(a, s, p + q) == a.finish(Body(a, Body(a, s, p), q), Tail(a.width, q), |p| + |q|);
  }

  lemma {:induction false} BodyUndone<S(!new)>(a: Scheme<S>, s: S, key: seq<byte>)
    requires Lawful(a)
    ensures Unbody(a, Body(a, s, key), key) == s
    ensures Body(a, Unbody(a, s, key), key) == s
    decreases |key|
  {
    var w := a.width;
    if |key| >= w {
      BodyUndone(a, a.step(s, key[..w]), key[w..]);
      BodyUndone(a, s, key[w..]);
    }
  }

  /** For a fixed key the hash is a bijection of the initial state: Unhash inverts it. */
  function Unhash<S>(a: Scheme<S>, h: S, key: seq<byte>): S
  {
    Unbody(a, a.unfinish(h, Tail(a.width, key), |key|), key)
  }

  lemma HashUndone<S(!new)>(a: Scheme<S>, s: S, key: seq<byte>)
    requires Lawful(a)
    ensures Unhash(a, Hash(a, s, key), key) == s
    ensures Hash(a, Unhash(a, s, key), key) == s
  {
    BodyUndone(a, s, key);
    BodyUndone(a, a.unfinish(s, Tail(a.width, key), |key|), key);
  }

  /** Two keys of one length that share everything after an aligned point collide exactly when
      their states had already met at that point, whatever seeds they started from. */
  lemma CollideIffStatesMeet<S(!new)>(a: Scheme<S>, s: S, t: S, p: seq<byte>, r: seq<byte>, q: seq<byte>)
    requires Lawful(a) && |p| == |r| && Aligned(a.width, |p|)
    ensures Hash(a, s, p + q) == Hash(a, t, r + q) <==> Body(a, s, p) == Body(a, t, r)
  {
    hide Hash, Body, Tail, Unbody, Aligned;
    var n, tail := |p| + |q|, Tail(a.width, q);
    var x, y := Body(a, Body(a, s, p), q), Body(a, Body(a, t, r), q);
    assert a.unfinish(a.finish(x, tail, n), tail, n) == x;
    assert a.unfinish(a.finish(y, tail, n), tail, n) == y;
    HashSplit(a, s, p, q);
    HashSplit(a, t, r, q);
    BodyUndone(a, Body(a, s, p), q);
    BodyUndone(a, Body(a, t, r), q);
  }

  /** One more whole block is one more step. */
  lemma OneStep<S>(a: Scheme<S>, s: S, p: seq<byte>, b: seq<byte>)
    requires |b| == a.width && Aligned(a.width, |p|)
    ensures Body(a, s, p + b) == a.step(Body(a, s, p), b)
    ensures Aligned(a.width, |p + b|)
  {
    SplitAligned(a, s, p, b);
    assert b[..a.width] == b;
    assert b[a.width..] == [];
  }

  lemma BlockSeen<S(!new)>(a: Scheme<S>, s: S, b: seq<byte>, c: seq<byte>)
    requires Lawful(a) && |b| == |c| == a.width
    ensures a.step(s, b) == a.step(s, c) <==> b == c
  {
    assert a.solve(s, a.step(s, b)) == b && a.solve(s, a.step(s, c)) == c;
  }

  /** Changing one aligned block changes the hash. */
  lemma OneBlockDecides<S(!new)>(a: Scheme<S>, s: S, p: seq<byte>, b: seq<byte>, c: seq<byte>, q: seq<byte>)
    requires Lawful(a) && Aligned(a.width, |p|) && |b| == |c| == a.width
    ensures Hash(a, s, p + b + q) == Hash(a, s, p + c + q) <==> b == c
  {
    hide *;
    OneStep(a, s, p, b);
    OneStep(a, s, p, c);
    CollideIffStatesMeet(a, s, s, p + b, p + c, q);
    BlockSeen(a, Body(a, s, p), b, c);
  }

  lemma ShortKey<S>(a: Scheme<S>, s: S, t: seq<byte>)
    requires |t| < a.width
    ensures Body(a, s, t) == s && Tail(a.width, t) == t
  {
  }

  lemma TailIsSeen<S(!new)>(a: Scheme<S>, s: S, t: seq<byte>, u: seq<byte>, n: nat)
    requires Lawful(a) && |t| == |u| < a.width
    ensures a.finish(s, t, n) == a.finish(s, u, n) <==> t == u
  {
    hide StepUndone, BlockSolved, FinishUndone;
  }

  /** Changing the tail, at the same length, changes the hash. */
  lemma TailDecides<S(!new)>(a: Scheme<S>, s: S, p: seq<byte>, t: seq<byte>, u: seq<byte>)
    requires Lawful(a) && Aligned(a.width, |p|) && |t| == |u| < a.width
    ensures Hash(a, s, p + t) == Hash(a, s, p + u) <==> t == u
  {
    hide *;
    var m := Body(a, s, p);
    ShortKey(a, m, t);
    ShortKey(a, m, u);
    HashSplit(a, s, p, t);
    HashSplit(a, s, p, u);
    TailIsSeen(a, m, t, u, |p| + |t|);
  }

  /** The block that, put between p and q, makes the hash come out as h. */
  function BlockFor<S>(a: Scheme<S>, s: S, p: seq<byte>, q: seq<byte>, h: S): seq<byte>
  {
    var end := a.unfinish(h, Tail(a.width, q), |p| + a.width + |q|);
    a.solve(Body(a, s, p), Unbody(a, end, q))
  }

  lemma BlockReaches<S(!new)>(a: Scheme<S>, s: S, p: seq<byte>, q: seq<byte>, h: S)
    requires Lawful(a) && Aligned(a.width, |p|)
    ensures |BlockFor(a, s, p, q, h)| == a.width
    ensures Hash(a, s, p + BlockFor(a, s, p, q, h) + q) == h
  {
    hide Hash, Body, Tail, Unbody, Aligned;
    var end := a.unfinish(h, Tail(a.width, q), |p| + a.width + |q|);
    var c := BlockFor(a, s, p, q, h);
    assert |c| == a.width && a.step(Body(a, s, p), c) == Unbody(a, end, q);
    assert a.finish(end, Tail(a.width, q), |p| + a.width + |q|) == h;
    hide *;
    OneStep(a, s, p, c);
    HashSplit(a, s, p + c, q);
    BodyUndone(a, end, q);
  }

  /** With everything else fixed, the map from one aligned block to the hash is a bijection onto
      the hash values: BlockFor is the one block that reaches h. */
  lemma BlockBijective<S(!new)>(a: Scheme<S>, s: S, p: seq<byte>, b: seq<byte>, q: seq<byte>, h: S)
    requires Lawful(a) && Aligned(a.width, |p|) && |b| == a.width
    ensures |BlockFor(a, s, p, q, h)| == a.width
    ensures Hash(a, s, p + b + q) == h <==> b == BlockFor(a, s, p, q, h)
  {
    hide *;
    BlockReaches(a, s, p, q, h);
    OneBlockDecides(a, s, p, b, BlockFor(a, s, p, q, h), q);
  }
}
