/** Cutting a vector of 64-bit keys by equal key ranges with a chain of binary searches. */
module Slicer {

  const MAX: nat := 0xFFFF_FFFF_FFFF_FFFF

  type uint64 = n: nat | n <= 0xFFFF_FFFF_FFFF_FFFF

  /** The C++ int values that can count partitions. */
  predicate IsInt(range: int) { -0x8000_0000 <= range < 0x8000_0000 }

  /** Unsigned 64-bit multiplication. */
  function WrappingTimes(x: nat, y: nat): uint64 {
    x * y % (MAX + 1)
  }

  datatype KeyRange = KeyRange(begin: uint64, end: uint64)

  // ---- the partition of the key space ----

  /** The width of one range. */
  function Width(range: int): (w: nat)
    requires 0 < range && IsInt(range)
    ensures 0 < w
  {
    MAX / range
  }

  /** The first key above the last range; the keys from Top on belong to no range. */
  function Top(range: int): nat
    requires 0 < range && IsInt(range)
  {
    Width(range) * range
  }

  /** The index of the range that holds key, if key lies below Top. */
  function Owner(range: int, key: nat): nat
    requires 0 < range && IsInt(range)
  {
    key / Width(range)
  }

  lemma TimesMonotone(w: nat, i: nat, j: nat)
    requires i <= j
    ensures w * i <= w * j
  {
    assert w * j == w * i + w * (j - i);
  }

  lemma InRangeIffOwner(w: nat, i: nat, key: nat)
    requires 0 < w
    ensures w * i <= key < w * (i + 1) <==> key / w == i
  {
    var q := key / w;
    assert w * q <= key < w * (q + 1);
    if w * i <= key < w * (i + 1) {
      if q < i {
        TimesMonotone(w, q + 1, i);
      } else if i < q {
        TimesMonotone(w, i + 1, q);
      }
    }
  }

  lemma BoundFits(range: int, i: nat)
    requires 0 < range && IsInt(range) && i <= range
    ensures WrappingTimes(MAX / range, i) == Width(range) * i <= Top(range) <= MAX
  {
    TimesMonotone(Width(range), i, range);
    assert MAX == MAX / range * range + MAX % range;
  }

  /** Range i of an n-range partition, in exact arithmetic. */
  function RangeAt(range: int, i: nat): (r: KeyRange)
    requires 0 < range && IsInt(range) && i < range
    ensures r.begin == Width(range) * i && r.end == Width(range) * (i + 1)
  {
    BoundFits(range, i);
    BoundFits(range, i + 1);
    KeyRange(Width(range) * i, Width(range) * (i + 1))
  }

  /** For every range count the ranges are contiguous, of one size, and reach from 0 to Top. */
  lemma RangesTile(range: int)
    requires 0 < range && IsInt(range)
    ensures RangeAt(range, 0).begin == 0 && RangeAt(range, range - 1).end == Top(range)
    ensures forall i {:trigger RangeAt(range, i)} | 0 <= i < range ::
              RangeAt(range, i).end - RangeAt(range, i).begin == Width(range)
    ensures forall i, j | 0 <= i && j == i + 1 < range :: RangeAt(range, i).end == RangeAt(range, j).begin
  {
    hide Width;
    forall i | 0 <= i < range
      ensures RangeAt(range, i).end - RangeAt(range, i).begin == Width(range)
    {
      var w := Width(range);
      assert w * (i + 1) - w * i == w;
    }
  }

  /** Each key below Top lies in range Owner(key) and in no other; the others lie in none. */
  lemma OneRangeOwns(range: int, key: uint64)
    requires 0 < range && IsInt(range)
    ensures key < Top(range) <==> Owner(range, key) < range
    ensures forall i | 0 <= i < range ::
              RangeAt(range, i).begin <= key < RangeAt(range, i).end <==> i == Owner(range, key)
  {
    hide Width;
    var w, q := Width(range), Owner(range, key);
    forall i | 0 <= i < range
      ensures RangeAt(range, i).begin <= key < RangeAt(range, i).end <==> i == q
    {
      InRangeIffOwner(w, i, key);
    }
    InRangeIffOwner(w, q, key);
    if q < range {
      TimesMonotone(w, q + 1, range);
    } else {
      TimesMonotone(w, range, q);
    }
  }

  /** What stays uncovered is the last MAX % range + 1 keys, at most as many as there are ranges. */
  lemma UncoveredTop(range: int)
    requires 0 < range && IsInt(range)
    ensures MAX + 1 - Top(range) == MAX % range + 1 <= range
  {
    assert MAX == MAX / range * range + MAX % range;
  }

  // ---- std::lower_bound ----

  /** Where the binary search for v in keys[first..first + len] ends, sorted or not. */
  function LowerBoundAt(keys: seq<uint64>, first: nat, len: nat, v: nat): (p: nat)
    requires first + len <= |keys|
    ensures first <= p <= first + len
    decreases len
  {
    if len == 0 then first
    else
      var mid := first + len / 2;
      if keys[mid] < v then LowerBoundAt(keys, mid + 1, len - len / 2 - 1, v)
      else LowerBoundAt(keys, first, len / 2, v)
  }

  lemma SearchStep(keys: seq<uint64>, first: nat, len: nat, v: nat)
    requires first + len <= |keys| && 0 < len
    ensures LowerBoundAt(keys, first, len, v)
            == if keys[first + len / 2] < v then LowerBoundAt(keys, first + len / 2 + 1, len - len / 2 - 1, v)
               else LowerBoundAt(keys, first, len / 2, v)
  {
  }

  lemma SearchEnd(keys: seq<uint64>, first: nat, v: nat)
    requires first <= |keys|
    ensures LowerBoundAt(keys, first, 0, v) == first
  {
  }

  method LowerBound(keys: seq<uint64>, begin: nat, end: nat, v: nat) returns (p: nat)
    requires begin <= end <= |keys|
    ensures p == LowerBoundAt(keys, begin, end - begin, v)
  {
    hide LowerBoundAt;
    p := begin;
    var len := end - begin;
    while len > 0
      invariant 0 <= len && 0 <= p && p + len <= |keys|
      invariant LowerBoundAt(keys, p, len, v) == LowerBoundAt(keys, begin, end - begin, v)
    {
      SearchStep(keys, p, len, v);
      var half := len / 2;
      if keys[p + half] < v {
        p := p + half + 1;
        len := len - half - 1;
      } else {
        len := half;
      }
    }
    SearchEnd(keys, p, v);
  }

  ghost predicate Sorted(keys: seq<uint64>) {
    forall i, j | 0 <= i < j < |keys| :: keys[i] <= keys[j]
  }

  /** The keys below v come before the others: all that a search for v needs. */
  ghost predicate PartitionedAt(keys: seq<uint64>, v: nat) {
    forall i, j | 0 <= i < j < |keys| && keys[j] < v :: keys[i] < v
  }

  /** In the window keys[lo..hi], the keys before p are below v and the others are not. */
  ghost predicate SplitsAt(keys: seq<uint64>, lo: nat, hi: nat, v: nat, p: nat) {
    && lo <= p <= hi <= |keys|
    && (forall j | lo <= j < p :: keys[j] < v)
    && (forall j | p <= j < hi :: v <= keys[j])
  }

  /** On keys partitioned at v, as sorted ones are, the search splits the window into the keys below
      v and the rest. */
  lemma {:induction false} LowerBoundSplits(keys: seq<uint64>, first: nat, len: nat, v: nat)
    requires first + len <= |keys| && PartitionedAt(keys, v)
    ensures SplitsAt(keys, first, first + len, v, LowerBoundAt(keys, first, len, v))
    decreases len
  {
    hide LowerBoundAt, SplitsAt, PartitionedAt;
    var p := LowerBoundAt(keys, first, len, v);
    if len == 0 {
      SearchEnd(keys, first, v);
      SplitsNothing(keys, first, v);
    } else {
      SearchStep(keys, first, len, v);
      var half := len / 2;
      var mid := first + half;
      if keys[mid] < v {
        LowerBoundSplits(keys, mid + 1, len - half - 1, v);
        SplitGrowsDown(keys, first, mid, first + len, v, p);
      } else {
        LowerBoundSplits(keys, first, half, v);
        SplitGrowsUp(keys, first, mid, first + len, v, p);
      }
    }
    assert SplitsAt(keys, first, first + len, v, p);
  }

  lemma SplitsNothing(keys: seq<uint64>, p: nat, v: nat)
    requires p <= |keys|
    ensures SplitsAt(keys, p, p, v, p)
  {
  }

  lemma SplitGrowsDown(keys: seq<uint64>, lo: nat, mid: nat, hi: nat, v: nat, p: nat)
    requires PartitionedAt(keys, v) && lo <= mid < hi <= |keys| && keys[mid] < v
    requires SplitsAt(keys, mid + 1, hi, v, p)
    ensures SplitsAt(keys, lo, hi, v, p)
  {
  }

  lemma SplitGrowsUp(keys: seq<uint64>, lo: nat, mid: nat, hi: nat, v: nat, p: nat)
    requires PartitionedAt(keys, v) && lo <= mid < hi <= |keys| && v <= keys[mid]
    requires SplitsAt(keys, lo, mid, v, p)
    ensures SplitsAt(keys, lo, hi, v, p)
  {
  }

  lemma {:induction false} LowerBoundOfZero(keys: seq<uint64>, first: nat, len: nat)
    requires first + len <= |keys|
    ensures LowerBoundAt(keys, first, len, 0) == first
    decreases len
  {
    if len > 0 {
      LowerBoundOfZero(keys, first, len / 2);
    }
  }

  // ---- the slicer ----

  /** Position i of the chain of searches: each one starts where the previous one ended. */
  function Cut(keys: seq<uint64>, ranges: seq<KeyRange>, i: nat): (p: nat)
    requires 0 < |ranges| && i <= |ranges|
    ensures p <= |keys|
  {
    if i == 0 then LowerBoundAt(keys, 0, |keys|, ranges[0].begin)
    else
      var from := Cut(keys, ranges, i - 1);
      LowerBoundAt(keys, from, |keys| - from, ranges[i - 1].end)
  }

  lemma CutStarts(keys: seq<uint64>, ranges: seq<KeyRange>)
    requires 0 < |ranges|
    ensures Cut(keys, ranges, 0) == LowerBoundAt(keys, 0, |keys|, ranges[0].begin)
  {
  }

  lemma CutContinues(keys: seq<uint64>, ranges: seq<KeyRange>, i: nat)
    requires i < |ranges|
    ensures var from := Cut(keys, ranges, i);
            Cut(keys, ranges, i + 1) == LowerBoundAt(keys, from, |keys| - from, ranges[i].end)
  {
    hide LowerBoundAt;
  }

  lemma CutStep(keys: seq<uint64>, ranges: seq<KeyRange>, i: nat)
    requires i < |ranges|
    ensures Cut(keys, ranges, i) <= Cut(keys, ranges, i + 1)
  {
    hide LowerBoundAt;
  }

  /** What `slices.resize(n)` leaves of an output vector. */
  function Resized<T>(xs: seq<seq<T>>, n: nat): (r: seq<seq<T>>)
    ensures |r| == n
  {
    seq(n, i requires 0 <= i < n => if i < |xs| then xs[i] else [])
  }

  /** Slice i of the result; an empty slice leaves what the output vector held. */
  function SliceAt(keys: seq<uint64>, ranges: seq<KeyRange>, before: seq<seq<uint64>>, i: nat): seq<uint64>
    requires i < |ranges|
  {
    var lo, hi := Cut(keys, ranges, i), Cut(keys, ranges, i + 1);
    if lo == hi then Resized(before, |ranges|)[i] else keys[lo..hi]
  }

  /** The ranges built for a range count; none for a count that is not positive. */
  function Ranges(range: int): (r: seq<KeyRange>)
    requires IsInt(range)
    ensures |r| == if range < 0 then 0 else range
  {
    seq(if range < 0 then 0 else range, i requires 0 <= i < range => RangeAt(range, i))
  }

  class RangeSlicer {
    var ranges: seq<KeyRange>

    constructor (range: int)
      requires IsInt(range)
      ensures ranges == Ranges(range)
    {
      var rs: seq<KeyRange> := [];
      var i := 0;
      while i < range
        invariant 0 <= i && (i <= range || i == 0) && |rs| == i
        invariant forall j | 0 <= j < i :: rs[j] == RangeAt(range, j)
      {
        BoundFits(range, i);
        BoundFits(range, i + 1);
        rs := rs + [KeyRange(WrappingTimes(MAX / range, i), WrappingTimes(MAX / range, i + 1))];
        i := i + 1;
      }
      ranges := rs;
    }

    /** The iterator overload: writes the positions of the cuts. */
    method SlicePositions(keys: seq<uint64>, pos: array<nat>)
      requires pos.Length == |ranges| + 1
      modifies pos
      ensures |ranges| == 0 ==> pos[..] == old(pos[..])
      ensures |ranges| > 0 ==> forall i | 0 <= i <= |ranges| :: pos[i] == Cut(keys, ranges, i)
    {
      hide LowerBoundAt, Cut;
      var n := |ranges|;
      var begin := 0;
      for i := 0 to n
        invariant i == 0 ==> begin == 0 && pos[..] == old(pos[..])
        invariant i > 0 ==> begin == pos[i] <= |keys| && forall j | 0 <= j <= i :: pos[j] == Cut(keys, ranges, j)
      {
        if i == 0 {
          CutStarts(keys, ranges);
          pos[0] := LowerBound(keys, begin, |keys|, ranges[0].begin);
          begin := begin + pos[0];
        }
        CutContinues(keys, ranges, i);
        var p := LowerBound(keys, begin, |keys|, ranges[i].end);
        var len := p - begin;
        begin := begin + len;
        pos[i + 1] := pos[i] + len;
      }
    }

    /** The vector overload; `before` is what the output vector held. */
    method Slice(keys: seq<uint64>, before: seq<seq<uint64>>) returns (slices: seq<seq<uint64>>)
      ensures |slices| == |ranges|
      ensures forall i | 0 <= i < |ranges| :: slices[i] == SliceAt(keys, ranges, before, i)
    {
      hide Cut, Resized;
      slices := Resized(before, |ranges|);
      var n := |ranges|;
      var pos := new nat[n + 1](_ => 0);
      SlicePositions(keys, pos);
      if |keys| == 0 {
        return;
      }
      for i := 0 to n
        invariant |slices| == n
        invariant n > 0 ==> forall j | 0 <= j <= n :: pos[j] == Cut(keys, ranges, j)
        invariant forall j | 0 <= j < i :: slices[j] == SliceAt(keys, ranges, before, j)
        invariant forall j | i <= j < n :: slices[j] == Resized(before, n)[j]
      {
        if pos[i + 1] == pos[i] {
          continue;
        }
        CutStep(keys, ranges, i);
        slices := slices[i := keys[pos[i]..pos[i + 1]]];
      }
    }
  }

  // ---- any key vector ----

  lemma {:induction false} CutsAscend(keys: seq<uint64>, range: int, i: nat, j: nat)
    requires 0 < range && IsInt(range) && i <= j <= range
    ensures Cut(keys, Ranges(range), 0) == 0
    ensures Cut(keys, Ranges(range), i) <= Cut(keys, Ranges(range), j) <= |keys|
  {
    hide LowerBoundAt, Width;
    LowerBoundOfZero(keys, 0, |keys|);
    if i < j {
      CutsAscend(keys, range, i, j - 1);
      CutStep(keys, Ranges(range), j - 1);
    }
  }

  function Concat<T>(xs: seq<seq<T>>): seq<T> {
    if xs == [] then [] else Concat(xs[..|xs| - 1]) + xs[|xs| - 1]
  }

  /** The slices a call into a fresh output vector returns. */
  function Slices(keys: seq<uint64>, range: int): (s: seq<seq<uint64>>)
    requires 0 <= range && IsInt(range)
    ensures |s| == range
  {
    seq(range, i requires 0 <= i < range => SliceAt(keys, Ranges(range), [], i))
  }

  lemma FreshSlice(keys: seq<uint64>, range: int, i: nat)
    requires 0 < range && IsInt(range) && i < range
    ensures Cut(keys, Ranges(range), i) <= Cut(keys, Ranges(range), i + 1)
    ensures Slices(keys, range)[i] == keys[Cut(keys, Ranges(range), i)..Cut(keys, Ranges(range), i + 1)]
  {
    CutsAscend(keys, range, i, i + 1);
  }

  lemma {:induction false} PrefixConcat(keys: seq<uint64>, range: int, n: nat)
    requires 0 < range && IsInt(range) && n <= range
    ensures Concat(Slices(keys, range)[..n]) == keys[..Cut(keys, Ranges(range), n)]
  {
    hide Cut, SliceAt, Ranges;
    var s := Slices(keys, range);
    if n == 0 {
      CutsAscend(keys, range, 0, 0);
    } else {
      PrefixConcat(keys, range, n - 1);
      FreshSlice(keys, range, n - 1);
      assert s[..n][..n - 1] == s[..n - 1];
    }
  }

  /** Sorted or not, nothing is duplicated or reordered: the slices put together are exactly the
      keys before the last cut. */
  lemma SlicesConcat(keys: seq<uint64>, range: int)
    requires 0 < range && IsInt(range)
    ensures Concat(Slices(keys, range)) == keys[..Cut(keys, Ranges(range), range)]
  {
    PrefixConcat(keys, range, range);
    assert Slices(keys, range)[..range] == Slices(keys, range);
  }

  /** A reused output vector gives the fresh result exactly when it held nothing at the positions
      whose slice is empty: the copy loop skips those without clearing them. */
  lemma ReuseIffCleared(keys: seq<uint64>, range: int, before: seq<seq<uint64>>)
    requires 0 < range && IsInt(range)
    ensures (forall i | 0 <= i < range :: SliceAt(keys, Ranges(range), before, i) == Slices(keys, range)[i])
            <==> (forall i | 0 <= i < range && i < |before| && Slices(keys, range)[i] == [] :: before[i] == [])
  {
    forall i | 0 <= i < range
      ensures SliceAt(keys, Ranges(range), before, i)
              == if Slices(keys, range)[i] == [] then Resized(before, range)[i] else Slices(keys, range)[i]
    {
      FreshSlice(keys, range, i);
    }
  }

  /** An example: a slice of an earlier call survives a call with no keys. */
  lemma StaleSliceSurvives()
    ensures SliceAt([], Ranges(1), [[7]], 0) == [7] && Slices([], 1) == [[]]
  {
    CutsAscend([], 1, 0, 1);
    FreshSlice([], 1, 0);
  }

  // ---- keys that come range by range ----

  /** The keys of each range come before those of all later ranges and of the uncovered top. */
  ghost predicate Grouped(keys: seq<uint64>, range: int)
    requires 0 < range && IsInt(range)
  {
    forall i | 0 <= i <= range :: PartitionedAt(keys, Width(range) * i)
  }

  lemma SortedIsGrouped(keys: seq<uint64>, range: int)
    requires 0 < range && IsInt(range) && Sorted(keys)
    ensures Grouped(keys, range)
  {
    hide Width;
  }

  function CountBelow(keys: seq<uint64>, v: nat): (n: nat)
    ensures n <= |keys|
  {
    if keys == [] then 0
    else CountBelow(keys[..|keys| - 1], v) + if keys[|keys| - 1] < v then 1 else 0
  }

  lemma {:induction false} CountIsSplit(keys: seq<uint64>, v: nat, p: nat)
    requires p <= |keys|
    requires forall j | 0 <= j < p :: keys[j] < v
    requires forall j | p <= j < |keys| :: v <= keys[j]
    ensures CountBelow(keys, v) == p
  {
    if keys != [] {
      CountIsSplit(keys[..|keys| - 1], v, if p == |keys| then p - 1 else p);
    }
  }

  /** Every key before cut i is below the boundary Width*i and every later one is not. */
  lemma {:induction false} CutSplits(keys: seq<uint64>, range: int, i: nat)
    requires 0 < range && IsInt(range) && i <= range && Grouped(keys, range)
    ensures SplitsAt(keys, 0, |keys|, Width(range) * i, Cut(keys, Ranges(range), i))
  {
    hide LowerBoundAt, Width;
    if i == 0 {
      LowerBoundOfZero(keys, 0, |keys|);
    } else {
      CutSplits(keys, range, i - 1);
      var from := Cut(keys, Ranges(range), i - 1);
      LowerBoundSplits(keys, from, |keys| - from, Width(range) * i);
      TimesMonotone(Width(range), i - 1, i);
    }
  }

  /** The one-pass chain refines the simple form: on such keys position i is the number of keys
      below the start of range i, and the last position the number below the end of the last. */
  lemma CutIsCount(keys: seq<uint64>, range: int, i: nat)
    requires 0 < range && IsInt(range) && i <= range && Grouped(keys, range)
    ensures Cut(keys, Ranges(range), i) == CountBelow(keys, Width(range) * i)
  {
    hide Cut, CountBelow;
    CutSplits(keys, range, i);
    CountIsSplit(keys, Width(range) * i, Cut(keys, Ranges(range), i));
  }

  /** The keys below v, in their original order. */
  function KeepBelow(keys: seq<uint64>, v: nat): seq<uint64> {
    if keys == [] then []
    else
      var last := keys[|keys| - 1];
      KeepBelow(keys[..|keys| - 1], v) + if last < v then [last] else []
  }

  lemma {:induction false} AllKept(keys: seq<uint64>, v: nat)
    requires forall j | 0 <= j < |keys| :: keys[j] < v
    ensures KeepBelow(keys, v) == keys
  {
    if keys != [] {
      AllKept(keys[..|keys| - 1], v);
    }
  }

  /** Partitioned at v, the keys below v are a prefix. */
  lemma {:induction false} KeptIsPrefix(keys: seq<uint64>, v: nat)
    requires PartitionedAt(keys, v)
    ensures KeepBelow(keys, v) == keys[..CountBelow(keys, v)]
  {
    if keys != [] {
      var n := |keys| - 1;
      if keys[n] < v {
        AllKept(keys, v);
        CountIsSplit(keys, v, n + 1);
        assert keys[..n + 1] == keys;
      } else {
        KeptIsPrefix(keys[..n], v);
        assert keys[..n][..CountBelow(keys[..n], v)] == keys[..CountBelow(keys, v)];
      }
    }
  }

  lemma {:induction false} NoneKept(keys: seq<uint64>, v: nat)
    requires forall j | 0 <= j < |keys| :: keys[j] >= v
    ensures KeepBelow(keys, v) == []
  {
    if keys != [] {
      NoneKept(keys[..|keys| - 1], v);
    }
  }

  lemma {:induction false} KeptAtMost(keys: seq<uint64>, v: nat)
    ensures |KeepBelow(keys, v)| <= |keys|
  {
    if keys != [] {
      KeptAtMost(keys[..|keys| - 1], v);
    }
  }

  /** If the first p keys are below v and a later one is too, more than p are kept. */
  lemma {:induction false} OneMoreKept(keys: seq<uint64>, v: nat, p: nat, k: nat)
    requires p <= k < |keys| && keys[k] < v && forall j | 0 <= j < p :: keys[j] < v
    ensures |KeepBelow(keys, v)| > p
  {
    var n := |keys| - 1;
    if k < n {
      OneMoreKept(keys[..n], v, p, k);
    } else {
      KeptAtLeast(keys[..n], v, p);
    }
  }

  lemma {:induction false} KeptAtLeast(keys: seq<uint64>, v: nat, p: nat)
    requires p <= |keys| && forall j | 0 <= j < p :: keys[j] < v
    ensures |KeepBelow(keys, v)| >= p
  {
    if p > 0 {
      var n := |keys| - 1;
      KeptAtLeast(keys[..n], v, if p > n then n else p);
    }
  }

  /** The keys of range i, in their original order. */
  function OwnedBy(keys: seq<uint64>, range: int, i: nat): seq<uint64>
    requires 0 < range && IsInt(range)
  {
    if keys == [] then []
    else
      var last := keys[|keys| - 1];
      OwnedBy(keys[..|keys| - 1], range, i) + if Owner(range, last) == i then [last] else []
  }

  lemma LastOfSegment(keys: seq<uint64>, lo: nat, hi: nat)
    requires lo <= hi <= |keys| && keys != []
    ensures var n := |keys| - 1;
            keys[lo..hi] == if lo <= n < hi then keys[..n][lo..n] + [keys[n]]
                            else if lo <= n then keys[..n][lo..hi] else []
  {
  }

  lemma {:induction false} OwnedIsSegment(keys: seq<uint64>, range: int, i: nat, lo: nat, hi: nat)
    requires 0 < range && IsInt(range) && lo <= hi <= |keys|
    requires forall j | 0 <= j < |keys| :: lo <= j < hi <==> Owner(range, keys[j]) == i
    ensures OwnedBy(keys, range, i) == keys[lo..hi]
  {
    hide Owner;
    if keys != [] {
      var n := |keys| - 1;
      var lo', hi' := if lo > n then n else lo, if hi > n then n else hi;
      OwnedIsSegment(keys[..n], range, i, lo', hi');
      LastOfSegment(keys, lo, hi);
      assert lo <= n < hi <==> Owner(range, keys[n]) == i;
    }
  }

  /** On such keys slice i is exactly the in-order subsequence of the keys that range i owns. */
  lemma SliceIsOwned(keys: seq<uint64>, range: int, i: nat)
    requires 0 < range && IsInt(range) && i < range && Grouped(keys, range)
    ensures Slices(keys, range)[i] == OwnedBy(keys, range, i)
  {
    FreshSlice(keys, range, i);
    CutSplits(keys, range, i);
    CutSplits(keys, range, i + 1);
    var lo, hi := Cut(keys, Ranges(range), i), Cut(keys, Ranges(range), i + 1);
    forall j | 0 <= j < |keys|
      ensures lo <= j < hi <==> Owner(range, keys[j]) == i
    {
      InRangeIffOwner(Width(range), i, keys[j]);
    }
    OwnedIsSegment(keys, range, i, lo, hi);
  }

  /** Such keys are all sliced exactly when none of them lies in the uncovered top. */
  lemma AllSlicedIffBelowTop(keys: seq<uint64>, range: int)
    requires 0 < range && IsInt(range) && Grouped(keys, range)
    ensures Concat(Slices(keys, range)) == keys <==> (forall j | 0 <= j < |keys| :: keys[j] < Top(range))
  {
    hide Cut, Slices, Ranges, Width;
    SlicesConcat(keys, range);
    CutSplits(keys, range, range);
    var p := Cut(keys, Ranges(range), range);
    if p == |keys| {
      assert keys[..p] == keys;
    } else {
      assert |keys[..p]| == p && Top(range) <= keys[p];
    }
  }

  /** An example: the largest key is in no slice, whatever the range count. */
  lemma LargestKeyIsDropped(range: int)
    requires 0 < range && IsInt(range)
    ensures Concat(Slices([MAX], range)) == []
  {
    SortedIsGrouped([MAX], range);
    UncoveredTop(range);
    SlicesConcat([MAX], range);
    CutIsCount([MAX], range, range);
    assert CountBelow([MAX], Top(range)) == 0 by {
      assert [MAX][..0] == [];
    }
  }

  // ---- and only they are sliced by owner ----

  lemma {:induction false} PositionIsSliced(keys: seq<uint64>, range: int, n: nat, j: nat) returns (i: nat)
    requires 0 < range && IsInt(range) && n <= range && j < Cut(keys, Ranges(range), n)
    ensures i < n && Cut(keys, Ranges(range), i) <= j < Cut(keys, Ranges(range), i + 1)
  {
    hide Cut;
    CutsAscend(keys, range, 0, 0);
    if Cut(keys, Ranges(range), n - 1) <= j {
      i := n - 1;
    } else {
      i := PositionIsSliced(keys, range, n - 1, j);
    }
  }

  lemma {:induction false} OwnedAtLeast(keys: seq<uint64>, range: int, i: nat, lo: nat, hi: nat)
    requires 0 < range && IsInt(range) && lo <= hi <= |keys|
    requires forall x | lo <= x < hi :: Owner(range, keys[x]) == i
    ensures |OwnedBy(keys, range, i)| >= hi - lo
  {
    hide Owner;
    if lo < hi {
      var n := |keys| - 1;
      OwnedAtLeast(keys[..n], range, i, lo, if hi > n then n else hi);
    }
  }

  lemma {:induction false} OneMoreOwned(keys: seq<uint64>, range: int, i: nat, lo: nat, hi: nat, j: nat)
    requires 0 < range && IsInt(range) && lo <= hi <= j < |keys|
    requires Owner(range, keys[j]) == i && forall x | lo <= x < hi :: Owner(range, keys[x]) == i
    ensures |OwnedBy(keys, range, i)| > hi - lo
  {
    hide Owner;
    var n := |keys| - 1;
    if j == n {
      OwnedAtLeast(keys[..n], range, i, lo, hi);
    } else {
      OneMoreOwned(keys[..n], range, i, lo, hi, j);
    }
  }

  lemma {:induction false} OwnedKeys(keys: seq<uint64>, range: int, i: nat)
    requires 0 < range && IsInt(range)
    ensures forall j | 0 <= j < |OwnedBy(keys, range, i)| :: Owner(range, OwnedBy(keys, range, i)[j]) == i
  {
    hide Owner;
    if keys != [] {
      OwnedKeys(keys[..|keys| - 1], range, i);
    }
  }

  ghost predicate SlicedByOwner(keys: seq<uint64>, range: int)
    requires 0 < range && IsInt(range)
  {
    forall i | 0 <= i < range :: Slices(keys, range)[i] == OwnedBy(keys, range, i)
  }

  lemma SliceOfOwned(keys: seq<uint64>, range: int, i: nat)
    requires 0 < range && IsInt(range) && i < range && SlicedByOwner(keys, range)
    ensures Cut(keys, Ranges(range), i) <= Cut(keys, Ranges(range), i + 1)
    ensures OwnedBy(keys, range, i) == keys[Cut(keys, Ranges(range), i)..Cut(keys, Ranges(range), i + 1)]
  {
    hide Cut, Slices, OwnedBy, Ranges;
    FreshSlice(keys, range, i);
  }

  lemma SegmentOwned(keys: seq<uint64>, range: int, i: nat, lo: nat, hi: nat, j: nat)
    requires 0 < range && IsInt(range) && lo <= hi <= |keys| && OwnedBy(keys, range, i) == keys[lo..hi] && j < |keys|
    ensures lo <= j < hi ==> Owner(range, keys[j]) == i
    ensures hi <= j ==> Owner(range, keys[j]) != i
  {
    OwnedKeys(keys, range, i);
    hide Owner, OwnedBy;
    forall x | lo <= x < hi ensures Owner(range, keys[x]) == i {
      assert keys[lo..hi][x - lo] == keys[x];
    }
    if hi <= j && Owner(range, keys[j]) == i {
      OneMoreOwned(keys, range, i, lo, hi, j);
    }
  }

  /** If the slices are the owned keys, then the keys of slice i belong to range i, and no key at or
      after the end of slice i does. */
  lemma SliceSeparates(keys: seq<uint64>, range: int, i: nat, j: nat)
    requires 0 < range && IsInt(range) && i < range && j < |keys| && SlicedByOwner(keys, range)
    ensures Cut(keys, Ranges(range), i) <= j < Cut(keys, Ranges(range), i + 1) ==> Owner(range, keys[j]) == i
    ensures Cut(keys, Ranges(range), i + 1) <= j ==> Owner(range, keys[j]) != i
  {
    hide Cut, Owner, Slices, OwnedBy, SlicedByOwner, Ranges;
    SliceOfOwned(keys, range, i);
    SegmentOwned(keys, range, i, Cut(keys, Ranges(range), i), Cut(keys, Ranges(range), i + 1), j);
  }

  lemma BelowIffOwner(range: int, v: nat, key: nat)
    requires 0 < range && IsInt(range)
    ensures key < Width(range) * v <==> Owner(range, key) < v
  {
    var w, q := Width(range), Owner(range, key);
    InRangeIffOwner(w, q, key);
    if q < v {
      TimesMonotone(w, q + 1, v);
    } else {
      TimesMonotone(w, v, q);
    }
  }

  lemma SlicedIsPartitioned(keys: seq<uint64>, range: int, v: nat, j: nat, k: nat)
    requires 0 < range && IsInt(range) && v <= range && SlicedByOwner(keys, range)
    requires j < k < |keys| && keys[k] < Width(range) * v
    ensures keys[j] < Width(range) * v
  {
    BelowIffOwner(range, v, keys[k]);
    BelowIffOwner(range, v, keys[j]);
    var b := Owner(range, keys[k]);
    SliceSeparates(keys, range, b, k);
    var a := PositionIsSliced(keys, range, b + 1, j);
    SliceSeparates(keys, range, a, j);
  }

  /** For any request, sorted or not: each slice is exactly the in-order keys of its range if and only
      if the keys come range by range. */
  lemma SlicedByOwnerIffGrouped(keys: seq<uint64>, range: int)
    requires 0 < range && IsInt(range)
    ensures SlicedByOwner(keys, range) <==> Grouped(keys, range)
  {
    hide Slices, OwnedBy, Width;
    if Grouped(keys, range) {
      forall i | 0 <= i < range ensures Slices(keys, range)[i] == OwnedBy(keys, range, i) {
        SliceIsOwned(keys, range, i);
      }
    }
    if SlicedByOwner(keys, range) {
      forall v | 0 <= v <= range ensures PartitionedAt(keys, Width(range) * v) {
        forall j, k | 0 <= j < k < |keys| && keys[k] < Width(range) * v ensures keys[j] < Width(range) * v {
          SlicedIsPartitioned(keys, range, v, j, k);
        }
      }
    }
  }

  lemma SearchForLargest()
    ensures LowerBoundAt([5, MAX, 3], 0, 3, MAX) == 1
  {
    SearchStep([5, MAX, 3], 0, 3, MAX);
    SearchStep([5, MAX, 3], 0, 1, MAX);
    SearchEnd([5, MAX, 3], 1, MAX);
  }

  /** An example: in the request 5, MAX, 3 with one range, key 3 comes after the largest key and is
      dropped, although it lies below the top. */
  lemma KeyAfterTopIsDropped()
    ensures Slices([5, MAX, 3], 1) == [[5]] && 3 < Top(1) && !Grouped([5, MAX, 3], 1)
  {
    var keys := [5, MAX, 3];
    assert Width(1) == MAX;
    assert keys[2] < Width(1) * 1 <= keys[1];
    assert !PartitionedAt(keys, Width(1) * 1);
    hide LowerBoundAt, PartitionedAt;
    LowerBoundOfZero(keys, 0, 3);
    SearchForLargest();
    CutStarts(keys, Ranges(1));
    CutContinues(keys, Ranges(1), 0);
    FreshSlice(keys, 1, 0);
    hide Cut, Slices;
    assert keys[0..1] == [5];
    assert Slices(keys, 1) == [Slices(keys, 1)[0]];
  }
}
