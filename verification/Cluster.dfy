/** The cluster administrator: the cached model-server list, its update, and the round-robin pick. */
module Cluster {
  import opened Listing
  import Membership

  /** count_ is a uint64_t. */
  const WRAP: nat := 0x1_0000_0000_0000_0000

  class TGPClusterAdmin {
    var msCluster: seq<string>
    var count: nat

    ghost predicate Valid()
      reads this
    {
      count < WRAP
    }

    constructor ()
      ensures Valid() && msCluster == [] && count == 0
    {
      msCluster, count := [], 0;
    }

    /** `answers` are the server's answers to the up to three tries of this update's fetch. */
    method UpdateModelServerList(path: string, answers: seq<Reply>) returns (updated: bool)
      requires |answers| == ZK_GET_RETRIES && Valid()
      modifies this`msCluster
      ensures Valid()
      ensures updated <==> Code(path, answers) == TGP_OK && ListingOf(Deciding(answers).names) != []
      ensures updated ==> IsListing(msCluster, Deciding(answers).names) && msCluster != []
      ensures !updated ==> msCluster == old(msCluster)
    {
      var rc, children := GetChdnodes(path, answers, []);
      if rc != TGP_OK {
        return false;
      }
      ListingExact(Deciding(answers).names, children);
      if children == [] {
        return false;
      }
      msCluster := children;
      return true;
    }

    method GetOneMsAddr() returns (addr: string)
      requires Valid()
      modifies this`count
      ensures Valid()
      ensures msCluster == [] ==> addr == "" && count == old(count)
      ensures msCluster != [] ==> count == After(old(count), 1) && addr == msCluster[count % |msCluster|]
    {
      if msCluster == [] {
        return "";
      }
      count := (count + 1) % WRAP;
      assert After(old(count), 1) == (After(old(count), 0) + 1) % WRAP;
      var pos := count % |msCluster|;
      return msCluster[pos];
    }
  }

  /** An update that nothing overlaps leaves in the step system what the method leaves: its fetch is
      answered or fails, and then it installs the listing if there is one. */
  lemma UpdateAlone(s: Membership.State, u: nat, path: string, answers: seq<Reply>)
    requires s.versions != [] && u < |s.updates| && s.updates[u].Begun? && Membership.MutexFree(s, u)
    requires Code(path, answers) == TGP_OK ==> Membership.Enabled(s, Membership.Answer(u, Deciding(answers).names))
    ensures Code(path, answers) != TGP_OK ==>
              && Membership.Enabled(s, Membership.Fail(u))
              && var failed := Membership.Step(s, Membership.Fail(u));
                 failed.cached == s.cached && failed.updates[u].Finished?
    ensures Code(path, answers) == TGP_OK ==>
              var reply := Deciding(answers).names;
              var fetched := Membership.Step(s, Membership.Answer(u, reply));
              if ListingOf(reply) == [] then fetched.updates[u].Finished? && fetched.cached == s.cached
              else
                && Membership.Enabled(fetched, Membership.Install(u))
                && IsListing(Membership.Step(fetched, Membership.Install(u)).cached, reply)
                && Membership.Step(fetched, Membership.Install(u)).updates[u].Finished?
  {
    if Code(path, answers) == TGP_OK {
      var reply := Deciding(answers).names;
      ListingExact(reply, ListingOf(reply));
      hide ListingOf, IsListing, Code;
      var fetched := Membership.Step(s, Membership.Answer(u, reply));
      if ListingOf(reply) != [] {
        assert fetched.updates[u] == Membership.Holding(|s.fetched|);
        assert fetched.fetched[|s.fetched|].list == ListingOf(reply);
      }
    }
  }

  // ---- the turns of m calls ----

  /** The counter after m calls. */
  function After(count: nat, m: nat): nat {
    if m == 0 then count else (After(count, m - 1) + 1) % WRAP
  }

  /** The positions that m calls pick in a list of n addresses; the mutex makes the calls of any
      number of threads one such sequence. */
  function Turns(count: nat, n: nat, m: nat): (turns: seq<nat>)
    requires n > 0
    ensures |turns| == m
  {
    if m == 0 then [] else Turns(count, n, m - 1) + [After(count, m) % n]
  }

  lemma WrapsOnce(x: nat)
    ensures (x % WRAP + 1) % WRAP == (x + 1) % WRAP
  {
    assert x == x / WRAP * WRAP + x % WRAP;
    if x % WRAP + 1 < WRAP {
      DivMod(x + 1, WRAP, x / WRAP, x % WRAP + 1);
    } else {
      DivMod(x + 1, WRAP, x / WRAP + 1, 0);
    }
  }

  lemma {:induction false} AfterIs(count: nat, m: nat)
    requires count < WRAP
    ensures After(count, m) == (count + m) % WRAP
  {
    if m > 0 {
      AfterIs(count, m - 1);
      WrapsOnce(count + m - 1);
    }
  }

  lemma {:induction false} TurnAt(count: nat, n: nat, m: nat, k: nat)
    requires 0 < n && k < m && count < WRAP
    ensures Turns(count, n, m)[k] == (count + k + 1) % WRAP % n
  {
    if k == m - 1 {
      AfterIs(count, m);
    } else {
      TurnAt(count, n, m - 1, k);
    }
  }

  // ---- division ----

  lemma DivMod(x: int, n: nat, q: int, r: nat)
    requires r < n && x == q * n + r
    ensures x / n == q && x % n == r
  {
    var d := x / n - q;
    assert x == x / n * n + x % n;
    assert d * n == r - x % n by {
      assert d * n == x / n * n - q * n;
    }
    assert d >= 1 ==> d * n >= n;
    assert d <= -1 ==> d * n <= 0 - n;
  }

  lemma SameRemainder(x: int, y: int, n: nat, q: int)
    requires n > 0 && x == y + q * n
    ensures x % n == y % n
  {
    assert y == y / n * n + y % n;
    assert x == (y / n + q) * n + y % n;
    DivMod(x, n, y / n + q, y % n);
  }

  /** Counting up from d, the k-th number falls on p exactly if k falls on p - d. */
  lemma HitsWhen(d: int, k: nat, n: nat, p: nat)
    requires p < n
    ensures (d + k) % n == p <==> k % n == (p - d) % n
  {
    var a, b := d + k, p - d;
    assert a == a / n * n + a % n && k == k / n * n + k % n && b == b / n * n + b % n;
    if a % n == p {
      SameRemainder(k, b, n, a / n);
    }
    if k % n == b % n {
      var q := k / n - b / n;
      assert q * n == k / n * n - b / n * n;
      DivMod(a, n, q, p);
    }
  }

  // ---- fairness ----

  /** How often p is picked in m turns that count up from d: the full rounds, and once more if p
      comes early enough in the round under way. */
  function Share(d: int, n: nat, m: nat, p: nat): nat
    requires p < n
  {
    m / n + if (p - d) % n < m % n then 1 else 0
  }

  lemma ShareGrows(d: int, n: nat, m: nat, p: nat)
    requires p < n
    ensures Share(d, n, m + 1, p) == Share(d, n, m, p) + if (d + m) % n == p then 1 else 0
  {
    HitsWhen(d, m, n, p);
    assert m == m / n * n + m % n;
    if m % n + 1 < n {
      DivMod(m + 1, n, m / n, m % n + 1);
    } else {
      assert m + 1 == (m / n + 1) * n;
      DivMod(m + 1, n, m / n + 1, 0);
    }
  }

  /** The turns count up from d. */
  ghost predicate CountsUp(turns: seq<nat>, d: int, n: nat)
    requires n > 0
  {
    forall k | 0 <= k < |turns| :: turns[k] == (d + k) % n
  }

  lemma OneTurnMore(turns: seq<nat>, turn: nat, p: nat)
    ensures multiset(turns + [turn])[p] == multiset(turns)[p] + if turn == p then 1 else 0
  {
  }

  lemma NoShare(d: int, n: nat, p: nat)
    requires p < n
    ensures Share(d, n, 0, p) == 0
  {
    DivMod(0, n, 0, 0);
  }

  lemma LastTurn(turns: seq<nat>, d: int, n: nat)
    requires 0 < n && turns != [] && CountsUp(turns, d, n)
    ensures CountsUp(turns[..|turns| - 1], d, n) && turns[|turns| - 1] == (d + (|turns| - 1)) % n
    ensures turns == turns[..|turns| - 1] + [turns[|turns| - 1]]
  {
  }

  lemma {:induction false} TurnsShared(turns: seq<nat>, d: int, n: nat, p: nat)
    requires p < n && CountsUp(turns, d, n)
    ensures multiset(turns)[p] == Share(d, n, |turns|, p)
  {
    if turns == [] {
      NoShare(d, n, p);
    } else {
      LastTurn(turns, d, n);
      hide CountsUp, Share;
      var m := |turns| - 1;
      TurnsShared(turns[..m], d, n, p);
      OneTurnMore(turns[..m], turns[m], p);
      ShareGrows(d, n, m, p);
      assert multiset(turns)[p] == Share(d, n, m + 1, p);
    }
  }

  lemma TurnBeforeWrap(count: nat, n: nat, m: nat, k: nat)
    requires 0 < n && k < m && count + m < WRAP
    ensures Turns(count, n, m)[k] == (count + 1 + k) % n
  {
    TurnAt(count, n, m, k);
    DivMod(count + k + 1, WRAP, 0, count + k + 1);
  }

  /** While the counter does not wrap, each of n positions gets m / n of m calls, and exactly the
      m % n positions after the last one picked get one more. */
  lemma FairShare(count: nat, n: nat, m: nat, p: nat)
    requires p < n && count + m < WRAP
    ensures multiset(Turns(count, n, m))[p] == m / n + if (p - count - 1) % n < m % n then 1 else 0
  {
    assert CountsUp(Turns(count, n, m), count + 1, n) by {
      hide Turns;
      forall k | 0 <= k < m ensures Turns(count, n, m)[k] == (count + 1 + k) % n {
        TurnBeforeWrap(count, n, m, k);
      }
    }
    hide CountsUp, Turns;
    TurnsShared(Turns(count, n, m), count + 1, n, p);
    assert p - (count + 1) == p - count - 1;
  }

  /** Each position once. */
  ghost predicate OneRound(turns: seq<nat>, n: nat) {
    forall p | 0 <= p < n :: multiset(turns)[p] == 1
  }

  /** Where n calls in a row pick every position once: the counter does not wrap among them, or it
      wraps at their start, or n divides the counter's range. */
  predicate Unbroken(count: nat, n: nat)
    requires n > 0
  {
    count + n < WRAP || count == WRAP - 1 || WRAP % n == 0
  }

  /** Where the unbroken round counts up from. */
  function RoundStart(count: nat): nat {
    if count == WRAP - 1 then 0 else count + 1
  }

  lemma RemainderOfWrapped(x: nat, n: nat)
    requires 0 < n && WRAP % n == 0
    ensures x % WRAP % n == x % n
  {
    var q := WRAP / n;
    assert WRAP == q * n;
    assert x == x % WRAP + x / WRAP * (q * n);
    assert x / WRAP * (q * n) == x / WRAP * q * n;
    SameRemainder(x, x % WRAP, n, x / WRAP * q);
  }

  lemma TurnUnbroken(count: nat, n: nat, k: nat)
    requires 0 < n < WRAP && count < WRAP && Unbroken(count, n) && k < n
    ensures Turns(count, n, n)[k] == (RoundStart(count) + k) % n
  {
    if count + n < WRAP {
      TurnBeforeWrap(count, n, n, k);
    } else {
      TurnAt(count, n, n, k);
      if count == WRAP - 1 {
        DivMod(count + k + 1, WRAP, 1, k);
      } else {
        RemainderOfWrapped(count + k + 1, n);
      }
    }
  }

  lemma RoundIsComplete(count: nat, n: nat)
    requires 0 < n < WRAP && count < WRAP && Unbroken(count, n)
    ensures OneRound(Turns(count, n, n), n)
  {
    var d := RoundStart(count);
    assert CountsUp(Turns(count, n, n), d, n) by {
      hide Turns;
      forall k | 0 <= k < n ensures Turns(count, n, n)[k] == (d + k) % n {
        TurnUnbroken(count, n, k);
      }
    }
    hide CountsUp, Turns, Unbroken, RoundStart;
    DivMod(n, n, 1, 0);
    forall p | 0 <= p < n ensures multiset(Turns(count, n, n))[p] == 1 {
      TurnsShared(Turns(count, n, n), d, n, p);
    }
  }

  lemma TwiceIn(s: seq<nat>, i: nat, j: nat)
    requires i < j < |s| && s[i] == s[j]
    ensures multiset(s)[s[i]] >= 2
  {
    assert s == s[..j] + s[j..];
    assert s[i] == s[..j][i] && s[j] == s[j..][0];
    assert s[i] in multiset(s[..j]) && s[i] in multiset(s[j..]);
  }

  lemma LastRemainder(n: nat)
    requires 0 < n && WRAP % n != 0
    ensures (WRAP - 1) % n <= n - 2
  {
    if (WRAP - 1) % n == n - 1 {
      DivMod(WRAP, n, (WRAP - 1) / n + 1, 0);
    }
  }

  lemma TurnBack(count: nat, n: nat, back: nat)
    requires 0 < n && count < WRAP <= count + n && back < WRAP - 1 - count && back <= (WRAP - 1) % n
    ensures Turns(count, n, n)[WRAP - 2 - count - back] == (WRAP - 1) % n - back
  {
    var i, x := WRAP - 2 - count - back, WRAP - 1 - back;
    TurnAt(count, n, n, i);
    assert count + i + 1 == x;
    DivMod(x, WRAP, 0, x);
    DivMod(x, n, (WRAP - 1) / n, (WRAP - 1) % n - back);
  }

  lemma TurnOn(count: nat, n: nat, r: nat)
    requires 0 < n < WRAP && count < WRAP <= count + n && r < count + n + 1 - WRAP
    ensures Turns(count, n, n)[WRAP - 1 - count + r] == r
  {
    var j := WRAP - 1 - count + r;
    TurnAt(count, n, n, j);
    DivMod(count + j + 1, WRAP, 1, r);
    DivMod(r, n, 0, r);
  }

  /** When the counter wraps inside the n calls, the position of the last number before the wrap, or
      of an earlier one, comes again after it. */
  lemma RoundIsBroken(count: nat, n: nat)
    requires 0 < n < WRAP && count < WRAP && !Unbroken(count, n)
    ensures !OneRound(Turns(count, n, n), n)
  {
    var e, after := (WRAP - 1) % n, count + n + 1 - WRAP;
    LastRemainder(n);
    var back := if e < after then 0 else e - after + 1;
    TurnBack(count, n, back);
    TurnOn(count, n, e - back);
    var turns := Turns(count, n, n);
    hide Turns, Unbroken;
    TwiceIn(turns, WRAP - 2 - count - back, WRAP - 1 - count + (e - back));
    assert multiset(turns)[turns[WRAP - 2 - count - back]] != 1;
  }

  /** Any n calls in a row pick every position exactly once, exactly if the counter's wrap does not
      break the round. */
  lemma RoundIff(count: nat, n: nat)
    requires 0 < n < WRAP && count < WRAP
    ensures OneRound(Turns(count, n, n), n) <==> Unbroken(count, n)
  {
    if Unbroken(count, n) {
      RoundIsComplete(count, n);
    } else {
      RoundIsBroken(count, n);
    }
  }
}
