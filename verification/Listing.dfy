/** The model-server list read from ZooKeeper: fetched with retries, sorted by strcmp, and filtered
    to the names that look like addresses. */
module Listing {

  // ---- strcmp order ----

  /** strcmp(a, b) <= 0, for names without a NUL, read as unsigned chars. */
  predicate Before(a: string, b: string) {
    a == [] || (b != [] && (a[0] < b[0] || (a[0] == b[0] && Before(a[1..], b[1..]))))
  }

  lemma {:induction false} BeforeTotal(a: string, b: string)
    ensures Before(a, b) || Before(b, a)
  {
    if a != [] && b != [] && a[0] == b[0] {
      BeforeTotal(a[1..], b[1..]);
    }
  }

  lemma {:induction false} BeforeAntisymmetric(a: string, b: string)
    requires Before(a, b) && Before(b, a)
    ensures a == b
  {
    if a != [] {
      BeforeAntisymmetric(a[1..], b[1..]);
      assert a == [a[0]] + a[1..] && b == [b[0]] + b[1..];
    }
  }

  lemma {:induction false} BeforeTransitive(a: string, b: string, c: string)
    requires Before(a, b) && Before(b, c)
    ensures Before(a, c)
  {
    if a != [] && a[0] == b[0] == c[0] {
      BeforeTransitive(a[1..], b[1..], c[1..]);
    }
  }

  /** The first i characters are the same, and the texts end or differ there. */
  predicate DifferAt(a: string, b: string, i: nat) {
    && i <= |a| && i <= |b| && a[..i] == b[..i]
    && (i < |a| && i < |b| ==> a[i] != b[i])
  }

  /** The order is decided at the first position where the names differ: the smaller character comes
      first, and a name that ends there comes before one that goes on. */
  lemma {:induction false} FirstDifferenceDecides(a: string, b: string, i: nat)
    requires DifferAt(a, b, i)
    ensures Before(a, b) <==> i == |a| || (i < |b| && a[i] < b[i])
  {
    if i > 0 {
      assert a[0] == a[..i][0] == b[..i][0] == b[0];
      assert a[1..][..i - 1] == a[..i][1..] == b[..i][1..] == b[1..][..i - 1];
      FirstDifferenceDecides(a[1..], b[1..], i - 1);
    }
  }

  // ---- sorting ----

  ghost predicate Sorted(s: seq<string>) {
    forall i, j | 0 <= i < j < |s| :: Before(s[i], s[j])
  }

  function Insert(x: string, s: seq<string>): seq<string> {
    if s == [] || Before(x, s[0]) then [x] + s else [s[0]] + Insert(x, s[1..])
  }

  /** What qsort leaves, whatever its algorithm: SortedUnique says there is only one such list. */
  function Sort(s: seq<string>): seq<string> {
    if s == [] then [] else Insert(s[0], Sort(s[1..]))
  }

  lemma {:induction false} InsertSorts(x: string, s: seq<string>)
    requires Sorted(s)
    ensures multiset(Insert(x, s)) == multiset([x]) + multiset(s)
    ensures Sorted(Insert(x, s))
  {
    if s == [] {
    } else if Before(x, s[0]) {
      forall j | 0 <= j < |s| ensures Before(x, s[j]) {
        if j > 0 {
          BeforeTransitive(x, s[0], s[j]);
        }
      }
    } else {
      InsertSorts(x, s[1..]);
      BeforeTotal(x, s[0]);
      var t := Insert(x, s[1..]);
      assert s == [s[0]] + s[1..];
      forall j | 0 <= j < |t| ensures Before(s[0], t[j]) {
        assert t[j] in multiset(t);
        assert t[j] == x || t[j] in s[1..];
      }
    }
  }

  lemma {:induction false} SortSorts(s: seq<string>)
    ensures multiset(Sort(s)) == multiset(s)
    ensures Sorted(Sort(s))
  {
    if s != [] {
      SortSorts(s[1..]);
      InsertSorts(s[0], Sort(s[1..]));
      assert s == [s[0]] + s[1..];
    }
  }

  lemma {:induction false} SortedUnique(a: seq<string>, b: seq<string>)
    requires Sorted(a) && Sorted(b) && multiset(a) == multiset(b)
    ensures a == b
  {
    assert |multiset(a)| == |a| && |multiset(b)| == |b|;
    if a != [] {
      SameLeast(a, b);
      SameLeast(b, a);
      BeforeAntisymmetric(a[0], b[0]);
      SameTail(a, b);
      hide Before;
      SortedUnique(a[1..], b[1..]);
      assert a == [a[0]] + a[1..] == [b[0]] + b[1..] == b;
    }
  }

  lemma SameTail(a: seq<string>, b: seq<string>)
    requires a != [] && b != [] && a[0] == b[0] && multiset(a) == multiset(b)
    ensures multiset(a[1..]) == multiset(b[1..])
  {
    assert a == [a[0]] + a[1..] && b == [b[0]] + b[1..];
    assert multiset(a[1..]) == multiset(a) - multiset([a[0]]);
    assert multiset(b[1..]) == multiset(b) - multiset([b[0]]);
  }

  lemma SameLeast(a: seq<string>, b: seq<string>)
    requires a != [] && b != [] && Sorted(a) && multiset(a) == multiset(b)
    ensures Before(a[0], b[0])
  {
    assert b[0] in multiset(b);
    assert b[0] in a;
    var i :| 0 <= i < |a| && a[i] == b[0];
    if i == 0 {
      BeforeTotal(a[0], a[0]);
    }
  }

  // ---- the listing of a node's children ----

  /** A usable address: get_chdnodes drops the other names. */
  predicate IsAddress(name: string) { name != [] && ':' in name }

  function Keep(s: seq<string>): seq<string> {
    if s == [] then [] else (if IsAddress(s[0]) then [s[0]] else []) + Keep(s[1..])
  }

  function ListingOf(names: seq<string>): seq<string> {
    Keep(Sort(names))
  }

  lemma {:induction false} KeepAppends(s: seq<string>, x: string)
    ensures Keep(s + [x]) == Keep(s) + if IsAddress(x) then [x] else []
  {
    if s == [] {
      assert [x][1..] == [];
    } else {
      KeepAppends(s[1..], x);
      assert (s + [x])[1..] == s[1..] + [x];
    }
  }

  lemma {:induction false} KeepMembers(s: seq<string>)
    ensures forall x :: multiset(Keep(s))[x] == if IsAddress(x) then multiset(s)[x] else 0
  {
    if s != [] {
      KeepMembers(s[1..]);
      assert s == [s[0]] + s[1..];
    }
  }

  lemma {:induction false} KeepSorted(s: seq<string>)
    requires Sorted(s)
    ensures Sorted(Keep(s))
  {
    if s != [] {
      KeepSorted(s[1..]);
      KeepMembers(s[1..]);
      var t := Keep(s[1..]);
      forall j | 0 <= j < |t| ensures Before(s[0], t[j]) {
        assert t[j] in multiset(t);
        assert t[j] in s[1..];
      }
    }
  }

  /** Sorted, and exactly the addresses among the names, each as often as it occurs. */
  ghost predicate IsListing(l: seq<string>, names: seq<string>) {
    Sorted(l) && forall x :: multiset(l)[x] == if IsAddress(x) then multiset(names)[x] else 0
  }

  lemma ListingIsListing(names: seq<string>)
    ensures IsListing(ListingOf(names), names)
  {
    SortSorts(names);
    KeepMembers(Sort(names));
    KeepSorted(Sort(names));
  }

  lemma ListingExact(names: seq<string>, l: seq<string>)
    ensures IsListing(l, names) <==> l == ListingOf(names)
  {
    ListingIsListing(names);
    if IsListing(l, names) {
      hide ListingOf, Sorted, IsAddress;
      assert multiset(l) == multiset(ListingOf(names));
      SortedUnique(l, ListingOf(names));
    }
  }

  /** The order in which the server sends the names does not matter. */
  lemma ListingIgnoresOrder(names: seq<string>, reply: seq<string>)
    requires multiset(names) == multiset(reply)
    ensures ListingOf(names) == ListingOf(reply)
  {
    ListingExact(names, ListingOf(names));
    ListingExact(reply, ListingOf(names));
  }

  /** What an installed list always looks like. */
  ghost predicate Presentable(l: seq<string>) {
    Sorted(l) && forall i | 0 <= i < |l| :: IsAddress(l[i])
  }

  lemma ListingPresentable(names: seq<string>)
    ensures Presentable(ListingOf(names))
  {
    var l := ListingOf(names);
    ListingExact(names, l);
    forall i | 0 <= i < |l| ensures IsAddress(l[i]) {
      assert l[i] in multiset(l);
    }
  }

  /** An example: the name without a ':' is dropped, and the others are sorted. */
  lemma ListingExample()
    ensures ListingOf(["b:2", "seq", "a:1"]) == ["a:1", "b:2"]
  {
    var names: seq<string> := ["b:2", "seq", "a:1"];
    FirstDifferenceDecides("b:2", "a:1", 0);
    FirstDifferenceDecides("seq", "a:1", 0);
    FirstDifferenceDecides("b:2", "seq", 0);
    assert "b:2"[1] == ':' && "a:1"[1] == ':' && IsAddress("a:1") && IsAddress("b:2") && !IsAddress("seq");
    hide Before, IsAddress;
    assert names[1..] == ["seq", "a:1"] && names[1..][1..] == ["a:1"] && names[1..][1..][1..] == [];
    assert Sort(["a:1"]) == ["a:1"];
    assert ["a:1"][1..] == [] && Insert("seq", ["a:1"]) == ["a:1", "seq"];
    assert Sort(["seq", "a:1"]) == ["a:1", "seq"];
    assert ["a:1", "seq"][1..] == ["seq"] && Insert("b:2", ["seq"]) == ["b:2", "seq"];
    assert Sort(names) == Insert("b:2", ["a:1", "seq"]) == ["a:1", "b:2", "seq"];
    assert ["a:1", "b:2", "seq"][1..] == ["b:2", "seq"] && ["b:2", "seq"][1..] == ["seq"] && ["seq"][1..] == [];
    assert Keep(["seq"]) == [] && Keep(["b:2", "seq"]) == ["b:2"];
  }

  // ---- fetching with retries ----

  const ZK_GET_RETRIES := 3
  const TGP_OK := 0
  const TGP_ERR_PARAM := 1
  const TGP_ERR_ZOO_FAILED := 61
  const ZK_NODE_NOT_EXIST := -1

  /** One answer of zoo_wget_children. */
  datatype Reply = Children(names: seq<string>) | NoNode | InvalidState | MarshallingError | OtherError

  predicate Retried(r: Reply) { r.InvalidState? || r.MarshallingError? }

  /** The answer that decides a fetch: the first one that is not retried. */
  function Deciding(answers: seq<Reply>): Reply {
    if answers == [] then OtherError else if Retried(answers[0]) then Deciding(answers[1..]) else answers[0]
  }

  lemma {:induction false} DecidingIsFirst(answers: seq<Reply>, i: nat)
    requires i <= |answers| && forall j | 0 <= j < i :: Retried(answers[j])
    ensures i < |answers| && !Retried(answers[i]) ==> Deciding(answers) == answers[i]
    ensures i == |answers| ==> Deciding(answers) == OtherError
  {
    if i > 0 {
      assert Retried(answers[0]);
      forall j | 0 <= j < i - 1 ensures Retried(answers[1..][j]) {
        assert answers[1..][j] == answers[j + 1];
      }
      DecidingIsFirst(answers[1..], i - 1);
    }
  }

  function Code(path: string, answers: seq<Reply>): int {
    if path == "" then TGP_ERR_PARAM
    else match Deciding(answers)
      case Children(_) => TGP_OK
      case NoNode => ZK_NODE_NOT_EXIST
      case _ => TGP_ERR_ZOO_FAILED
  }

  /** A fetch succeeds exactly if one of the answers lists the children and those before it are all
      retried; and it finds the node missing exactly if one says so and those before it are retried. */
  lemma FetchedIff(path: string, answers: seq<Reply>)
    ensures Code(path, answers) == TGP_OK
            <==> path != "" && exists i: nat :: IsDeciding(answers, i) && answers[i].Children?
    ensures Code(path, answers) == ZK_NODE_NOT_EXIST
            <==> path != "" && exists i: nat :: IsDeciding(answers, i) && answers[i].NoNode?
  {
    var i := DecidingPlace(answers, 0);
    DecidingIsFirst(answers, i);
    assert i < |answers| ==> IsDeciding(answers, i);
    hide Deciding;
    forall j: nat | IsDeciding(answers, j) ensures j == i {
      OnlyOneDecides(answers, i, j);
    }
  }

  lemma OnlyOneDecides(answers: seq<Reply>, i: nat, j: nat)
    requires IsDeciding(answers, j)
    requires i <= |answers| && (i < |answers| ==> !Retried(answers[i])) && forall k | 0 <= k < i :: Retried(answers[k])
    ensures i == j
  {
  }

  ghost predicate IsDeciding(answers: seq<Reply>, i: nat) {
    && i < |answers| && !answers[i].InvalidState? && !answers[i].MarshallingError?
    && forall j | 0 <= j < i :: answers[j].InvalidState? || answers[j].MarshallingError?
  }

  /** How many of the answers from `from` on are retried before one that is not. */
  lemma {:induction false} DecidingPlace(answers: seq<Reply>, from: nat) returns (i: nat)
    requires from <= |answers| && forall j | 0 <= j < from :: Retried(answers[j])
    ensures from <= i <= |answers| && (i < |answers| ==> !Retried(answers[i]))
    ensures forall j | 0 <= j < i :: Retried(answers[j])
    decreases |answers| - from
  {
    if from == |answers| || !Retried(answers[from]) {
      i := from;
    } else {
      i := DecidingPlace(answers, from + 1);
    }
  }

  method ZkWgetChdnodes(path: string, answers: seq<Reply>) returns (rc: int, nodes: seq<string>)
    requires |answers| == ZK_GET_RETRIES
    ensures rc == Code(path, answers)
    ensures rc == TGP_OK ==> nodes == Sort(Deciding(answers).names)
  {
    nodes := [];
    if path == "" {
      return TGP_ERR_PARAM, nodes;
    }
    for i := 0 to ZK_GET_RETRIES
      invariant forall j | 0 <= j < i :: Retried(answers[j])
    {
      DecidingIsFirst(answers, i);
      match answers[i]
      case Children(names) => return TGP_OK, Sort(names);
      case NoNode => return ZK_NODE_NOT_EXIST, nodes;
      case InvalidState => continue;
      case MarshallingError => continue;
      case OtherError => return TGP_ERR_ZOO_FAILED, nodes;
    }
    DecidingIsFirst(answers, ZK_GET_RETRIES);
    return TGP_ERR_ZOO_FAILED, nodes;
  }

  /** An empty listing is reported as success but leaves the caller's list alone. */
  method GetChdnodes(path: string, answers: seq<Reply>, results: seq<string>) returns (rc: int, results': seq<string>)
    requires |answers| == ZK_GET_RETRIES
    ensures rc == Code(path, answers)
    ensures rc == TGP_OK && ListingOf(Deciding(answers).names) != [] ==> IsListing(results', Deciding(answers).names)
    ensures rc != TGP_OK || ListingOf(Deciding(answers).names) == [] ==> results' == results
  {
    results' := results;
    var children;
    rc, children := ZkWgetChdnodes(path, answers);
    if rc != TGP_OK {
      return;
    }
    var tResult := [];
    for i := 0 to |children|
      invariant tResult == Keep(children[..i])
    {
      var node := children[i];
      assert children[..i + 1] == children[..i] + [node];
      KeepAppends(children[..i], node);
      if node == [] || !(':' in node) {
        continue;
      }
      tResult := tResult + [node];
    }
    assert children[..|children|] == children;
    if tResult != [] {
      ListingExact(Deciding(answers).names, tResult);
      results' := tResult;
    }
  }
}
