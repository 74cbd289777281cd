/** Scatter and gather: slices of a sorted feature vector go to model servers, their replies come
    back in any order, and the answer puts the weights together in partition order. */
module Postman {
  import opened Slicer
  import opened Urls
  import Transfers

  datatype Result<T> = Ok(value: T) | Err(reason: string)

  // ---- messages, already parsed ----

  /** The request document as checkRequest sees it. */
  datatype Feature = Key(key: uint64) | NotUint64

  datatype Features = NoFeatures | NotAnArray | Listed(items: seq<Feature>)

  datatype CountField = NoCount | Int64(count: int)

  datatype Request = UnparsableRequest | Fields(count: CountField, features: Features)

  /** A model server's reply as decodeMSWeights sees it; W is a weight. */
  datatype Number<W> = Double(w: W) | NotDouble

  datatype Field<W> = Missing | Text(text: string) | Numbers(items: seq<Number<W>>) | OtherField

  datatype Response<W> = NoBytes | Unparsable | Document(reason: Field<W>, weights: Field<W>)

  // ---- checkRequest ----

  function CheckFeatures(items: seq<Feature>): (r: Result<seq<uint64>>)
    ensures r.Err? ==> r.reason == "please check, feature is not uint64"
  {
    if items == [] then Ok([])
    else
      var n := |items| - 1;
      match CheckFeatures(items[..n])
      case Err(e) => Err(e)
      case Ok(keys) =>
        if items[n].Key? then Ok(keys + [items[n].key]) else Err("please check, feature is not uint64")
  }

  /** The features after an acceptable request, or the first complaint; `held` are the features the
      postman holds already, none in a fresh one. */
  function Check(held: seq<uint64>, r: Request): Result<seq<uint64>> {
    match r
    case UnparsableRequest => Err("please check, wrong request json")
    case Fields(_, NoFeatures) => Err("please check, features is gone")
    case Fields(_, NotAnArray) => Err("please check, features is not array")
    case Fields(count, Listed(items)) =>
      match CheckFeatures(items)
      case Err(e) => Err(e)
      case Ok(more) =>
        var keys := held + more;
        if keys == [] then Err("please check, features is empty")
        else if count.Int64? && count.count != -1 && count.count != |keys| then
          Err("please check, features size != count")
        else Ok(keys)
  }

  lemma {:induction false} CheckFeaturesIff(items: seq<Feature>)
    ensures CheckFeatures(items).Ok? <==> forall i | 0 <= i < |items| :: items[i].Key?
    ensures CheckFeatures(items).Ok? ==>
              && |CheckFeatures(items).value| == |items|
              && forall i | 0 <= i < |items| :: items[i] == Key(CheckFeatures(items).value[i])
  {
    if items != [] {
      CheckFeaturesIff(items[..|items| - 1]);
    }
  }

  /** A request is accepted exactly when it lists features, all of them unsigned 64-bit numbers, so
      that the postman holds at least one, and its count, if it gives one other than -1, is how many
      it holds; the features are then taken over in order. */
  lemma CheckIff(held: seq<uint64>, r: Request)
    ensures Check(held, r).Ok? <==>
            && r.Fields? && r.features.Listed? && (held != [] || r.features.items != [])
            && (forall i | 0 <= i < |r.features.items| :: r.features.items[i].Key?)
            && (r.count.Int64? && r.count.count != -1 ==> r.count.count == |held| + |r.features.items|)
    ensures Check(held, r).Ok? ==>
              && |Check(held, r).value| == |held| + |r.features.items|
              && Check(held, r).value[..|held|] == held
              && forall i | 0 <= i < |r.features.items| :: r.features.items[i] == Key(Check(held, r).value[|held| + i])
  {
    if r.Fields? && r.features.Listed? {
      CheckFeaturesIff(r.features.items);
    }
  }

  /** The features a request's list holds before its first entry that is not a uint64. */
  function LeadingKeys(items: seq<Feature>): (keys: seq<uint64>)
    ensures |keys| <= |items|
  {
    if items == [] || items[0].NotUint64? then [] else [items[0].key] + LeadingKeys(items[1..])
  }

  lemma {:induction false} LeadingKeysSize(items: seq<Feature>)
    ensures items != [] && NotUint64 !in items ==> LeadingKeys(items) != []
  {
  }

  /** What is said of a request that is not accepted: the first complaint of these. */
  lemma CheckReason(held: seq<uint64>, r: Request)
    ensures r.UnparsableRequest? ==> Check(held, r) == Err("please check, wrong request json")
    ensures r.Fields? && r.features.NoFeatures? ==> Check(held, r) == Err("please check, features is gone")
    ensures r.Fields? && r.features.NotAnArray? ==> Check(held, r) == Err("please check, features is not array")
    ensures r.Fields? && r.features.Listed? && NotUint64 in r.features.items ==>
              Check(held, r) == Err("please check, feature is not uint64")
    ensures r.Fields? && r.features == Listed([]) && held == [] ==>
              Check(held, r) == Err("please check, features is empty")
    ensures r.Fields? && r.features.Listed? && NotUint64 !in r.features.items && Check(held, r).Err?
            && held + LeadingKeys(r.features.items) != [] ==>
              Check(held, r) == Err("please check, features size != count")
  {
    if r.Fields? && r.features.Listed? {
      CheckFeaturesIff(r.features.items);
      LeadingKeysSize(r.features.items);
    }
  }

  // ---- the reply callback ----

  datatype Outcome = NotOk | NoPartition | Throws | AssertionFails | Files(partition: nat)

  /** What MSReplyCallback does with a reply: `Throws` is std::stoi's exception and
      `AssertionFails` the range assertion of saveMCurlResult. */
  function CallbackOutcome(range: nat, url: string, httpCode: int): Outcome {
    if httpCode != 200 then NotOk
    else
      match PartitionOf(url)
      case Parsed(p) => if p == -1 then NoPartition else if 0 <= p < range then Files(p) else AssertionFails
      case InvalidArgument => Throws
      case OutOfRange => Throws
  }

  /** The table weights_ after a callback. */
  function FileReply<W>(range: nat, table: seq<Response<W>>, url: string,
      m: Transfers.Message<Response<W>>): seq<Response<W>> {
    match CallbackOutcome(range, url, m.httpCode)
    case Files(p) => if p < |table| then table[p := m.body] else table
    case _ => table
  }

  function Callback<W>(range: nat): (seq<Response<W>>, string, Transfers.Message<Response<W>>) -> seq<Response<W>> {
    (table: seq<Response<W>>, url, m) => FileReply(range, table, url, m)
  }

  function Blank<W>(range: nat): seq<Response<W>> {
    seq(range, _ => NoBytes)
  }

  /** For a URL built for a partition in range, a 200 reply is always filed under that partition:
      nothing is thrown and the assertion holds. For another partition the assertion fails, or
      std::stoi throws if it does not fit an int. */
  lemma RegisteredIsFiled(range: nat, host: string, name: string, version: string, partition: nat, httpCode: int)
    requires range < 0x8000_0000
    ensures CallbackOutcome(range, MsUrl(host, name, version, partition), httpCode)
            == if httpCode != 200 then NotOk
               else if partition < range then Files(partition)
               else if partition < 0x8000_0000 then AssertionFails else Throws
  {
    TagRoundTrip(host, name, version, partition);
  }

  // ---- answerRequest ----

  function Doubles<W>(items: seq<Number<W>>): (r: Result<seq<W>>)
    ensures r.Err? ==> r.reason == "tgp proxy fail, no double weight"
  {
    if items == [] then Ok([])
    else
      match Doubles(items[..|items| - 1])
      case Err(e) => Err(e)
      case Ok(ws) =>
        if items[|items| - 1].Double? then Ok(ws + [items[|items| - 1].w]) else Err("tgp proxy fail, no double weight")
  }

  /** decodeMSWeights. */
  function Decode<W>(r: Response<W>): Result<seq<W>> {
    match r
    case Document(Text(reason), Numbers(items)) => if reason != "ok" then Err(reason) else Doubles(items)
    case Document(_, _) => Err("tgp proxy fail, unkown ms weights format")
    case _ => Err("tgp proxy fail, can't decode ms weights")
  }

  lemma {:induction false} DoublesIff<W>(items: seq<Number<W>>)
    ensures Doubles(items).Ok? <==> NotDouble !in items
    ensures Doubles(items).Ok? ==> AreDoubles(items, Doubles(items).value)
  {
    if items != [] {
      var n := |items| - 1;
      DoublesIff(items[..n]);
      assert items == items[..n] + [items[n]];
    }
  }

  /** A reply is used exactly if its reason is "ok" and all its weights are doubles, which are then its
      weights in order. */
  lemma DecodeIff<W>(r: Response<W>, ws: seq<W>)
    ensures Decode(r) == Ok(ws) <==>
            r.Document? && r.reason == Text("ok") && r.weights.Numbers? && AreDoubles(r.weights.items, ws)
  {
    if r.Document? && r.weights.Numbers? {
      var items := r.weights.items;
      DoublesIff(items);
      if AreDoubles(items, ws) {
        assert Doubles(items).value == ws;
      }
    }
  }

  ghost predicate AreDoubles<W>(items: seq<Number<W>>, ws: seq<W>) {
    |items| == |ws| && forall i | 0 <= i < |ws| :: items[i] == Double(ws[i])
  }

  /** What is said of any other: another reason than "ok" is passed on. */
  lemma DecodeReason<W>(r: Response<W>)
    ensures !r.Document? ==> Decode(r) == Err("tgp proxy fail, can't decode ms weights")
    ensures r.Document? && !(r.reason.Text? && r.weights.Numbers?) ==>
              Decode(r) == Err("tgp proxy fail, unkown ms weights format")
    ensures r.Document? && r.reason.Text? && r.weights.Numbers? && r.reason.text != "ok" ==>
              Decode(r) == Err(r.reason.text)
    ensures r.Document? && r.reason == Text("ok") && r.weights.Numbers? && NotDouble in r.weights.items ==>
              Decode(r) == Err("tgp proxy fail, no double weight")
  {
    if r.Document? && r.weights.Numbers? {
      DoublesIff(r.weights.items);
    }
  }

  /** The weights of the first n partitions, or the first complaint in partition order. */
  function Gather<W>(slices: seq<seq<uint64>>, table: seq<Response<W>>, n: nat): Result<seq<W>>
    requires n <= |slices| <= |table|
  {
    if n == 0 then Ok([])
    else
      match Gather(slices, table, n - 1)
      case Err(e) => Err(e)
      case Ok(ws) =>
        if slices[n - 1] == [] then Ok(ws)
        else if table[n - 1].NoBytes? then Err("tgp proxy fail, ms response timout or no response")
        else
          match Decode(table[n - 1])
          case Err(e) => Err(e)
          case Ok(more) => Ok(ws + more)
  }

  function Answer<W>(slices: seq<seq<uint64>>, table: seq<Response<W>>): Result<seq<W>>
    requires |slices| <= |table|
  {
    match Gather(slices, table, |slices|)
    case Err(e) => Err(e)
    case Ok(ws) => if ws == [] then Err("tgp proxy fail, empty weights") else Ok(ws)
  }

  // ---- what the table holds after a run ----

  ghost predicate UniqueTag<B>(calls: seq<Transfers.Call<B>>, p: nat, k: nat) {
    && k < |calls|
    && PartitionOf(calls[k].url) == Parsed(p)
    && forall i | 0 <= i < |calls| && i != k :: PartitionOf(calls[i].url) != Parsed(p)
  }

  /** One callback fills its own partition's cell, if it is a 200 reply, and no other. */
  lemma FiledCell<W>(range: nat, table: seq<Response<W>>, url: string, m: Transfers.Message<Response<W>>, p: nat)
    requires p < range == |table|
    ensures |FileReply(range, table, url, m)| == range
    ensures FileReply(range, table, url, m)[p]
            == if PartitionOf(url) == Parsed(p) && m.httpCode == 200 then m.body else table[p]
  {
    hide PartitionOf;
  }

  lemma LastDelivered<W>(range: nat, calls: seq<Transfers.Call<Response<W>>>)
    requires calls != []
    ensures var n := |calls| - 1;
            Transfers.Deliver(Callback(range), Blank(range), calls)
            == FileReply(range, Transfers.Deliver(Callback(range), Blank(range), calls[..n]), calls[n].url, calls[n].m)
  {
    hide FileReply;
  }

  lemma FiledSize<W>(range: nat, table: seq<Response<W>>, url: string, m: Transfers.Message<Response<W>>)
    ensures |FileReply(range, table, url, m)| == |table|
  {
    hide PartitionOf;
  }

  lemma {:induction false} DeliverSize<W>(range: nat, calls: seq<Transfers.Call<Response<W>>>)
    ensures |Transfers.Deliver(Callback(range), Blank(range), calls)| == range
  {
    if calls != [] {
      var n := |calls| - 1;
      LastDelivered(range, calls);
      FiledSize(range, Transfers.Deliver(Callback(range), Blank(range), calls[..n]), calls[n].url, calls[n].m);
      hide FileReply, Transfers.Deliver;
      DeliverSize(range, calls[..n]);
    }
  }

  /** A partition no call is tagged with keeps its empty response. */
  lemma {:induction false} UntaggedCell<W>(range: nat, calls: seq<Transfers.Call<Response<W>>>, p: nat)
    requires p < range
    requires forall i | 0 <= i < |calls| :: PartitionOf(calls[i].url) != Parsed(p)
    ensures |Transfers.Deliver(Callback(range), Blank(range), calls)| == range
    ensures Transfers.Deliver(Callback(range), Blank(range), calls)[p] == NoBytes
  {
    if calls != [] {
      var n := |calls| - 1;
      LastDelivered(range, calls);
      hide FileReply, Transfers.Deliver, PartitionOf;
      UntaggedCell(range, calls[..n], p);
      FiledCell(range, Transfers.Deliver(Callback(range), Blank(range), calls[..n]), calls[n].url, calls[n].m, p);
    }
  }

  /** A partition exactly one call is tagged with holds that call's reply, wherever the call came
      in the order; unless it was not a 200 reply, which files nothing. */
  lemma {:induction false} TaggedCell<W>(range: nat, calls: seq<Transfers.Call<Response<W>>>, p: nat, k: nat)
    requires p < range && UniqueTag(calls, p, k)
    ensures |Transfers.Deliver(Callback(range), Blank(range), calls)| == range
    ensures Transfers.Deliver(Callback(range), Blank(range), calls)[p]
            == if calls[k].m.httpCode == 200 then calls[k].m.body else NoBytes
  {
    var n := |calls| - 1;
    LastDelivered(range, calls);
    hide FileReply, Transfers.Deliver, PartitionOf;
    if k == n {
      UntaggedCell(range, calls[..n], p);
    } else {
      TaggedCell(range, calls[..n], p, k);
    }
    FiledCell(range, Transfers.Deliver(Callback(range), Blank(range), calls[..n]), calls[n].url, calls[n].m, p);
  }

  // ---- every run gathers the same table ----

  /** The indices of the non-empty slices among the first n, ascending. */
  function Parts(slices: seq<seq<uint64>>, n: nat): (parts: seq<nat>)
    requires n <= |slices|
    ensures forall i | 0 <= i < |parts| :: parts[i] < n && slices[parts[i]] != []
    ensures forall i, j | 0 <= i < j < |parts| :: parts[i] < parts[j]
    ensures forall p: nat | p < n && slices[p] != [] :: p in parts
  {
    if n == 0 then []
    else Parts(slices, n - 1) + if slices[n - 1] == [] then [] else [n - 1]
  }

  lemma OneMorePart(slices: seq<seq<uint64>>, n: nat)
    requires n < |slices|
    ensures Parts(slices, n + 1) == if slices[n] == [] then Parts(slices, n) else Parts(slices, n) + [n]
  {
  }

  /** The URLs of the registrations, one per listed partition. */
  function UrlsFor(hosts: seq<string>, name: string, version: string, parts: seq<nat>): (urls: seq<string>)
    requires forall i | 0 <= i < |parts| :: parts[i] < |hosts|
    ensures |urls| == |parts|
  {
    seq(|parts|, k requires 0 <= k < |parts| => MsUrl(hosts[parts[k]], name, version, parts[k]))
  }

  type Actions<W> = seq<Transfers.Action<Response<W>>>

  /** A run of the transfers: the listed partitions were registered in order, as one-shot transfers,
      interleaved in any way with the library finishing transfers and the queue being drained. */
  ghost predicate RegisteredRun<W>(hosts: seq<string>, name: string, version: string, parts: seq<nat>,
      actions: Actions<W>): (registered: bool)
    ensures registered ==> Transfers.IsRun(Transfers.Initial(), actions)
  {
    && |hosts| < 0x8000_0000
    && (forall i | 0 <= i < |parts| :: parts[i] < |hosts|)
    && (forall i, j | 0 <= i < j < |parts| :: parts[i] < parts[j])
    && Transfers.IsRun(Transfers.Initial(), actions)
    && Transfers.OneShots(actions)
    && Transfers.CreatedUrls(actions) == UrlsFor(hosts, name, version, parts)
  }

  /** A complete one leaves no handle. */
  ghost predicate CompleteRun<W>(hosts: seq<string>, name: string, version: string, parts: seq<nat>,
      actions: Actions<W>): (complete: bool)
    ensures complete ==> Transfers.IsRun(Transfers.Initial(), actions)
  {
    && RegisteredRun(hosts, name, version, parts, actions)
    && Transfers.Run(Transfers.Initial(), actions).live == map[]
  }

  /** The table weights_ after a run. */
  ghost function Table<W>(range: nat, actions: Actions<W>): seq<Response<W>>
    requires Transfers.IsRun(Transfers.Initial(), actions)
  {
    Transfers.Deliver(Callback(range), Blank(range), Transfers.Run(Transfers.Initial(), actions).calls)
  }

  /** Each call of a complete run is tagged with the partition its handle was registered for. */
  lemma CallsTagged<W>(hosts: seq<string>, name: string, version: string, parts: seq<nat>,
      calls: seq<Transfers.Call<Response<W>>>)
    requires |hosts| < 0x8000_0000 && forall i | 0 <= i < |parts| :: parts[i] < |hosts|
    requires forall i | 0 <= i < |calls| ::
               calls[i].m.id < |parts| && calls[i].url == UrlsFor(hosts, name, version, parts)[calls[i].m.id]
    ensures forall i | 0 <= i < |calls| :: PartitionOf(calls[i].url) == Parsed(parts[calls[i].m.id])
  {
    forall i | 0 <= i < |calls|
      ensures PartitionOf(calls[i].url) == Parsed(parts[calls[i].m.id])
    {
      var id := calls[i].m.id;
      TagRoundTrip(hosts[parts[id]], name, version, parts[id]);
    }
  }

  /** The table cell of a partition, given calls with distinct ids. */
  lemma CellIsReply<W>(range: nat, parts: seq<nat>, calls: seq<Transfers.Call<Response<W>>>, p: nat)
    requires p < range && forall i, j | 0 <= i < j < |parts| :: parts[i] < parts[j]
    requires forall i | 0 <= i < |calls| :: calls[i].m.id < |parts|
    requires forall i | 0 <= i < |calls| :: PartitionOf(calls[i].url) == Parsed(parts[calls[i].m.id])
    requires forall i, j | 0 <= i < j < |calls| :: calls[i].m.id != calls[j].m.id
    ensures |Transfers.Deliver(Callback(range), Blank(range), calls)| == range
    ensures (forall k | 0 <= k < |calls| :: parts[calls[k].m.id] != p) ==>
              Transfers.Deliver(Callback(range), Blank(range), calls)[p] == NoBytes
    ensures forall k | 0 <= k < |calls| && parts[calls[k].m.id] == p ::
              Transfers.Deliver(Callback(range), Blank(range), calls)[p]
              == if calls[k].m.httpCode == 200 then calls[k].m.body else NoBytes
  {
    hide Transfers.Deliver, PartitionOf;
    DeliverSize<W>(range, calls);
    if forall k | 0 <= k < |calls| :: parts[calls[k].m.id] != p {
      UntaggedCell(range, calls, p);
    }
    forall k | 0 <= k < |calls| && parts[calls[k].m.id] == p
      ensures Transfers.Deliver(Callback(range), Blank(range), calls)[p]
              == if calls[k].m.httpCode == 200 then calls[k].m.body else NoBytes
    {
      TaggedCell(range, calls, p, k);
    }
  }

  /** The calls of a run. */
  ghost function Calls<W>(actions: Actions<W>): seq<Transfers.Call<Response<W>>>
    requires Transfers.IsRun(Transfers.Initial(), actions)
  {
    Transfers.Run(Transfers.Initial(), actions).calls
  }

  /** Whatever the interleaving, and whether it is over or not, the table of a run is decided by the
      callbacks made: a partition holds the body of its own reply, if that has come and was a 200
      reply, and otherwise nothing. */
  lemma TableIsCalls<W>(hosts: seq<string>, name: string, version: string, parts: seq<nat>, actions: Actions<W>, p: nat)
    requires RegisteredRun(hosts, name, version, parts, actions) && p < |hosts|
    ensures |Table(|hosts|, actions)| == |hosts|
    ensures forall k | 0 <= k < |Calls(actions)| :: Calls(actions)[k].m.id < |parts|
    ensures (forall k | 0 <= k < |Calls(actions)| :: parts[Calls(actions)[k].m.id] != p) ==>
              Table(|hosts|, actions)[p] == NoBytes
    ensures forall k | 0 <= k < |Calls(actions)| && parts[Calls(actions)[k].m.id] == p ::
              Table(|hosts|, actions)[p]
              == if Calls(actions)[k].m.httpCode == 200 then Calls(actions)[k].m.body else NoBytes
  {
    Transfers.OneShotRun(actions);
    var calls := Calls(actions);
    hide Transfers.Run, Transfers.IsRun, UrlsFor, Transfers.CreatedUrls, Transfers.OneShots;
    CallsTagged(hosts, name, version, parts, calls);
    CellIsReply(|hosts|, parts, calls, p);
  }

  /** In a complete run each registered partition got exactly one reply and holds its body, or nothing
      if it was not a 200 reply; the other partitions hold nothing. */
  lemma TableIsReplies<W>(hosts: seq<string>, name: string, version: string, parts: seq<nat>, actions: Actions<W>,
      p: nat)
    requires CompleteRun(hosts, name, version, parts, actions) && p < |hosts|
    ensures |Table(|hosts|, actions)| == |hosts|
    ensures p !in parts ==> Table(|hosts|, actions)[p] == NoBytes
    ensures forall m | m in Transfers.FinishedMessages(actions) :: m.id < |parts|
    ensures forall m | m in Transfers.FinishedMessages(actions) && m.id < |parts| && parts[m.id] == p ::
              Table(|hosts|, actions)[p] == if m.httpCode == 200 then m.body else NoBytes
  {
    TableIsCalls(hosts, name, version, parts, actions, p);
    hide Table, RegisteredRun;
    forall m | m in Transfers.FinishedMessages(actions)
      ensures exists k :: 0 <= k < |Calls(actions)| && Calls(actions)[k].m == m
    {
      var k := FinishedIsCalled(actions, m);
    }
  }

  lemma FinishedIsCalled<W>(actions: Actions<W>, m: Transfers.Message<Response<W>>) returns (k: nat)
    requires Transfers.IsRun(Transfers.Initial(), actions) && Transfers.OneShots(actions)
    requires Transfers.Run(Transfers.Initial(), actions).live == map[] && m in Transfers.FinishedMessages(actions)
    ensures k < |Calls(actions)| && Calls(actions)[k].m == m
  {
    Transfers.CompleteOneShots(actions);
    hide Transfers.Run, Transfers.IsRun, Transfers.FinishedMessages, Transfers.OneShots, Transfers.CallsKnown;
    var ms := Transfers.Messages(Calls(actions));
    assert m in multiset(Transfers.FinishedMessages(actions));
    assert m in multiset(ms);
    k :| 0 <= k < |ms| && ms[k] == m;
  }

  lemma CalledIsFinished<W>(actions: Actions<W>, k: nat)
    requires Transfers.IsRun(Transfers.Initial(), actions) && Transfers.OneShots(actions)
    requires Transfers.Run(Transfers.Initial(), actions).live == map[] && k < |Calls(actions)|
    ensures Calls(actions)[k].m in Transfers.FinishedMessages(actions)
  {
    Transfers.CompleteOneShots(actions);
    hide Transfers.Run, Transfers.IsRun, Transfers.FinishedMessages, Transfers.OneShots, Transfers.CallsKnown;
    var ms := Transfers.Messages(Calls(actions));
    assert ms[k] in multiset(ms);
    assert ms[k] in multiset(Transfers.FinishedMessages(actions));
  }

  lemma EveryoneReplied<W>(hosts: seq<string>, name: string, version: string, parts: seq<nat>, actions: Actions<W>,
      id: nat)
    requires CompleteRun(hosts, name, version, parts, actions) && id < |parts|
    ensures exists m :: m in Transfers.FinishedMessages(actions) && m.id == id
  {
    Transfers.CompleteOneShots(actions);
    var s := Transfers.Run(Transfers.Initial(), actions);
    assert |s.urls| == |parts| && id !in s.live;
    hide Transfers.Run, Transfers.IsRun, Transfers.FinishedMessages, UrlsFor, Transfers.CreatedUrls;
    var k :| 0 <= k < |s.calls| && s.calls[k].m.id == id;
    CalledIsFinished(actions, k);
  }

  // ---- scatter/gather equals scoring in one place ----

  /** The weights of keys scored one by one, each with the score of its owning partition. */
  function ScoreAll<W>(score: (nat, uint64) -> W, range: int, keys: seq<uint64>): (ws: seq<W>)
    requires 0 < range && IsInt(range)
    ensures |ws| == |keys|
  {
    seq(|keys|, j requires 0 <= j < |keys| => score(Owner(range, keys[j]), keys[j]))
  }

  /** A model server's weights for its slice. */
  function Scores<W>(score: (nat, uint64) -> W, p: nat, slice: seq<uint64>): seq<W> {
    seq(|slice|, j requires 0 <= j < |slice| => score(p, slice[j]))
  }

  function AsNumbers<W>(ws: seq<W>): seq<Number<W>> {
    seq(|ws|, j requires 0 <= j < |ws| => Double(ws[j]))
  }

  /** A reply that says "ok" and holds these weights. */
  function OkReply<W>(ws: seq<W>): Response<W> {
    Document(Text("ok"), Numbers(AsNumbers(ws)))
  }

  /** The reply of a healthy model server: "ok" and one weight per key of its slice. */
  function HealthyReply<W>(score: (nat, uint64) -> W, p: nat, slice: seq<uint64>): Response<W> {
    OkReply(Scores(score, p, slice))
  }

  lemma {:induction false} DoublesOfNumbers<W>(ws: seq<W>)
    ensures Doubles(AsNumbers(ws)) == Ok(ws)
  {
    if ws != [] {
      var n := |ws| - 1;
      DoublesOfNumbers(ws[..n]);
      assert AsNumbers(ws)[..n] == AsNumbers(ws[..n]);
      assert ws == ws[..n] + [ws[n]];
    }
  }

  lemma OkReplyDecodes<W>(ws: seq<W>)
    ensures Decode(OkReply(ws)) == Ok(ws) && OkReply(ws).Document?
  {
    DoublesOfNumbers(ws);
  }

  lemma SliceDecodes<W>(score: (nat, uint64) -> W, range: int, keys: seq<uint64>, p: nat)
    requires 0 < range && IsInt(range) && Grouped(keys, range) && p < range
    ensures Decode(HealthyReply(score, p, Slices(keys, range)[p])) == Ok(ScoreAll(score, range, Slices(keys, range)[p]))
  {
    var slice := Slices(keys, range)[p];
    SliceIsOwned(keys, range, p);
    OwnedKeys(keys, range, p);
    DoublesOfNumbers(Scores(score, p, slice));
    hide Slices, OwnedBy, Owner, Doubles, AsNumbers;
    assert Scores(score, p, slice) == ScoreAll(score, range, slice);
  }

  lemma ScoreAllConcat<W>(score: (nat, uint64) -> W, range: int, a: seq<uint64>, b: seq<uint64>)
    requires 0 < range && IsInt(range)
    ensures ScoreAll(score, range, a + b) == ScoreAll(score, range, a) + ScoreAll(score, range, b)
  {
    hide Owner;
  }

  /** With a healthy reply for every non-empty slice, the first n partitions gather the scores of
      their keys in the original order. */
  lemma {:induction false} HealthyGather<W>(score: (nat, uint64) -> W, range: int, keys: seq<uint64>,
      table: seq<Response<W>>, n: nat)
    requires 0 < range && IsInt(range) && Grouped(keys, range) && n <= range == |table|
    requires forall p | 0 <= p < range && Slices(keys, range)[p] != [] ::
               table[p] == HealthyReply(score, p, Slices(keys, range)[p])
    ensures Gather(Slices(keys, range), table, n) == Ok(ScoreAll(score, range, Concat(Slices(keys, range)[..n])))
  {
    hide Slices, HealthyReply, ScoreAll, Decode;
    var slices := Slices(keys, range);
    if n == 0 {
      assert ScoreAll(score, range, []) == [];
    } else {
      HealthyGather(score, range, keys, table, n - 1);
      assert slices[..n][..n - 1] == slices[..n - 1];
      var head, last := Concat(slices[..n - 1]), slices[n - 1];
      assert Concat(slices[..n]) == head + last;
      ScoreAllConcat(score, range, head, last);
      if last == [] {
        assert head + last == head;
      } else {
        HealthyIsDocument(score, n - 1, last);
        SliceDecodes(score, range, keys, n - 1);
      }
    }
  }

  lemma HealthyIsDocument<W>(score: (nat, uint64) -> W, p: nat, slice: seq<uint64>)
    ensures HealthyReply(score, p, slice).Document?
  {
  }

  /** A complete run in which every registered partition answers 200 with one weight per key. */
  ghost predicate HealthyRun<W>(score: (nat, uint64) -> W, keys: seq<uint64>, hosts: seq<string>,
      name: string, version: string, actions: Actions<W>): (healthy: bool)
    requires 0 < |hosts| && IsInt(|hosts|)
    ensures healthy ==> Transfers.IsRun(Transfers.Initial(), actions)
  {
    var slices := Slices(keys, |hosts|);
    var parts := Parts(slices, |hosts|);
    && CompleteRun(hosts, name, version, parts, actions)
    && forall m | m in Transfers.FinishedMessages(actions) && m.id < |parts| ::
         m.httpCode == 200 && m.body == HealthyReply(score, parts[m.id], slices[parts[m.id]])
  }

  lemma HealthyCells<W>(score: (nat, uint64) -> W, keys: seq<uint64>, hosts: seq<string>, name: string,
      version: string, actions: Actions<W>)
    requires 0 < |hosts| && IsInt(|hosts|) && HealthyRun(score, keys, hosts, name, version, actions)
    ensures |Table(|hosts|, actions)| == |hosts|
    ensures forall p | 0 <= p < |hosts| && Slices(keys, |hosts|)[p] != [] ::
              Table(|hosts|, actions)[p] == HealthyReply(score, p, Slices(keys, |hosts|)[p])
  {
    var slices := Slices(keys, |hosts|);
    var parts := Parts(slices, |hosts|);
    hide Slices, Parts, Table, HealthyReply, CompleteRun;
    TableIsReplies(hosts, name, version, parts, actions, 0);
    forall p | 0 <= p < |hosts| && slices[p] != []
      ensures Table(|hosts|, actions)[p] == HealthyReply(score, p, slices[p])
    {
      TableIsReplies(hosts, name, version, parts, actions, p);
      var id :| 0 <= id < |parts| && parts[id] == p;
      EveryoneReplied(hosts, name, version, parts, actions, id);
      var m :| m in Transfers.FinishedMessages(actions) && m.id == id;
    }
  }

  /** There are such runs, for any keys: serve the slices one after the other. */
  lemma HealthyRunExists<W>(score: (nat, uint64) -> W, keys: seq<uint64>, hosts: seq<string>, name: string,
      version: string)
    requires 0 < |hosts| && IsInt(|hosts|)
    ensures exists actions: Actions<W> :: HealthyRun(score, keys, hosts, name, version, actions)
  {
    var slices := Slices(keys, |hosts|);
    var parts := Parts(slices, |hosts|);
    var bodies := seq(|parts|, k requires 0 <= k < |parts| => HealthyReply(score, parts[k], slices[parts[k]]));
    var actions, ms := Transfers.ServeAll(UrlsFor(hosts, name, version, parts), 200, bodies);
    hide Slices, Parts, UrlsFor, HealthyReply, Transfers.IsRun, Transfers.Run, Transfers.OneShots,
      Transfers.CreatedUrls, Transfers.FinishedMessages;
    assert CompleteRun(hosts, name, version, parts, actions);
    assert HealthyRun(score, keys, hosts, name, version, actions);
  }

  /** The distributed answer is the local one, for sorted keys and every healthy run: it lists, in
      the original order, the score of every key before the uncovered top of the key space. */
  lemma ScatterGather<W>(score: (nat, uint64) -> W, keys: seq<uint64>, hosts: seq<string>, name: string,
      version: string, actions: Actions<W>)
    requires 0 < |hosts| && IsInt(|hosts|) && Grouped(keys, |hosts|)
    requires HealthyRun(score, keys, hosts, name, version, actions)
    ensures |Table(|hosts|, actions)| == |hosts|
    ensures var served := keys[..CountBelow(keys, Top(|hosts|))];
            Answer(Slices(keys, |hosts|), Table(|hosts|, actions))
            == if served == [] then Err("tgp proxy fail, empty weights") else Ok(ScoreAll(score, |hosts|, served))
  {
    var range := |hosts|;
    hide Slices, Table, HealthyReply, HealthyRun, Grouped, Concat, Gather, Cut, CountBelow;
    HealthyCells(score, keys, hosts, name, version, actions);
    HealthyGather(score, range, keys, Table(range, actions), range);
    assert Slices(keys, range)[..range] == Slices(keys, range);
    SlicesConcat(keys, range);
    CutIsCount(keys, range, range);
  }

  /** Hence every key of the request is answered, each at its own position, exactly when there is a
      key and none lies in the uncovered top. */
  lemma AllAnsweredIffBelowTop<W>(score: (nat, uint64) -> W, keys: seq<uint64>, hosts: seq<string>, name: string,
      version: string, actions: Actions<W>)
    requires 0 < |hosts| && IsInt(|hosts|) && Grouped(keys, |hosts|)
    requires HealthyRun(score, keys, hosts, name, version, actions)
    ensures |Table(|hosts|, actions)| == |hosts|
    ensures Answer(Slices(keys, |hosts|), Table(|hosts|, actions)) == Ok(ScoreAll(score, |hosts|, keys))
            <==> keys != [] && forall j | 0 <= j < |keys| :: keys[j] < Top(|hosts|)
  {
    ScatterGather(score, keys, hosts, name, version, actions);
    var n := Cut(keys, Ranges(|hosts|), |hosts|);
    CutIsCount(keys, |hosts|, |hosts|);
    SlicesConcat(keys, |hosts|);
    AllSlicedIffBelowTop(keys, |hosts|);
    hide Answer, Slices, Table, HealthyRun, Grouped, Concat, Cut, CountBelow, Top, ScoreAll;
    if n == |keys| {
      assert keys[..n] == keys;
    } else {
      assert |keys[..n]| == n && |ScoreAll(score, |hosts|, keys[..n])| == n;
      assert |ScoreAll(score, |hosts|, keys)| == |keys|;
    }
  }

  // ---- any request, sorted or not ----

  /** What the healthy replies for the first n slices hold, one after the other. */
  function Scored<W>(score: (nat, uint64) -> W, slices: seq<seq<uint64>>, n: nat): seq<W>
    requires n <= |slices|
  {
    if n == 0 then [] else Scored(score, slices, n - 1) + Scores(score, n - 1, slices[n - 1])
  }

  lemma HealthyDecodes<W>(score: (nat, uint64) -> W, p: nat, slice: seq<uint64>)
    ensures Decode(HealthyReply(score, p, slice)) == Ok(Scores(score, p, slice))
  {
    DoublesOfNumbers(Scores(score, p, slice));
  }

  lemma {:induction false} HealthyScored<W>(score: (nat, uint64) -> W, slices: seq<seq<uint64>>,
      table: seq<Response<W>>, n: nat)
    requires n <= |slices| <= |table|
    requires forall p | 0 <= p < |slices| && slices[p] != [] :: table[p] == HealthyReply(score, p, slices[p])
    ensures Gather(slices, table, n) == Ok(Scored(score, slices, n))
  {
    if n > 0 {
      HealthyScored(score, slices, table, n - 1);
      var slice := slices[n - 1];
      if slice == [] {
        assert Scores(score, n - 1, slice) == [];
        assert Scored(score, slices, n) == Scored(score, slices, n - 1);
      } else {
        HealthyDecodes(score, n - 1, slice);
        HealthyIsDocument(score, n - 1, slice);
      }
      hide HealthyReply, Decode;
    }
  }

  /** A scoring that tells everything: which partition scored which key. */
  function Tagged(p: nat, key: uint64): (nat, uint64) { (p, key) }

  lemma {:induction false} ScoredSize(keys: seq<uint64>, range: int, n: nat)
    requires 0 < range && IsInt(range) && n <= range
    ensures |Scored(Tagged, Slices(keys, range), n)| == Cut(keys, Ranges(range), n)
  {
    hide Cut, Slices, Ranges;
    CutsAscend(keys, range, 0, 0);
    if n > 0 {
      ScoredSize(keys, range, n - 1);
      FreshSlice(keys, range, n - 1);
    }
  }

  /** The key at a position of slice i has been scored by partition i. */
  lemma {:induction false} ScoredAt(keys: seq<uint64>, range: int, n: nat, i: nat, j: nat)
    requires 0 < range && IsInt(range) && i < n <= range
    requires Cut(keys, Ranges(range), i) <= j < Cut(keys, Ranges(range), i + 1)
    ensures j < |keys| && j < |Scored(Tagged, Slices(keys, range), n)|
    ensures Scored(Tagged, Slices(keys, range), n)[j] == (i, keys[j])
  {
    hide Cut, Slices, Ranges;
    ScoredSize(keys, range, n - 1);
    FreshSlice(keys, range, n - 1);
    CutsAscend(keys, range, i + 1, n);
    if i == n - 1 {
      var slice, at := Slices(keys, range)[i], j - Cut(keys, Ranges(range), i);
      assert slice[at] == keys[j] && Scores(Tagged, i, slice)[at] == Tagged(i, slice[at]);
    } else {
      ScoredAt(keys, range, n - 1, i, j);
    }
  }

  /** If the replies score `served`, each key by its owner, then served's key at j is the request's, and
      lies in the slice of its owner. */
  lemma OwnSlice(keys: seq<uint64>, range: int, served: seq<uint64>, j: nat) returns (i: nat)
    requires 0 < range && IsInt(range) && j < |served|
    requires Scored(Tagged, Slices(keys, range), range) == ScoreAll(Tagged, range, served)
    ensures i < range && Cut(keys, Ranges(range), i) <= j < Cut(keys, Ranges(range), i + 1)
    ensures j < |keys| && served[j] == keys[j] && Owner(range, keys[j]) == i
  {
    assert ScoreAll(Tagged, range, served)[j] == (Owner(range, served[j]), served[j]);
    hide Cut, Slices, Ranges, Scored, Owner, ScoreAll;
    ScoredSize(keys, range, range);
    i := PositionIsSliced(keys, range, range, j);
    ScoredAt(keys, range, range, i, j);
  }

  lemma OwnersAscend(keys: seq<uint64>, range: int, served: seq<uint64>, j: nat, k: nat)
    requires 0 < range && IsInt(range) && j < k < |served| <= |keys|
    requires Scored(Tagged, Slices(keys, range), range) == ScoreAll(Tagged, range, served)
    ensures Owner(range, keys[j]) <= Owner(range, keys[k])
  {
    hide Cut, Slices, Ranges, Scored, Owner, ScoreAll;
    var a := OwnSlice(keys, range, served, j);
    var b := OwnSlice(keys, range, served, k);
    if b < a {
      CutsAscend(keys, range, b + 1, a);
    }
  }

  /** Only the first keys are served, and none of the others lies below the top. */
  ghost predicate RestAboveTop(keys: seq<uint64>, range: int, n: nat)
    requires 0 < range && IsInt(range)
  {
    n <= |keys| && forall k | n <= k < |keys| :: keys[k] >= Slicer.Top(range)
  }

  lemma ScoredIsPartitioned(keys: seq<uint64>, range: int, served: seq<uint64>, v: nat)
    requires 0 < range && IsInt(range) && v <= range && RestAboveTop(keys, range, |served|)
    requires Scored(Tagged, Slices(keys, range), range) == ScoreAll(Tagged, range, served)
    ensures PartitionedAt(keys, Width(range) * v)
  {
    TimesMonotone(Width(range), v, range);
    assert Width(range) * v <= Slicer.Top(range);
    hide Slices, Scored, Owner, ScoreAll, Width, Slicer.Top;
    forall j, k | 0 <= j < k < |keys| && keys[k] < Width(range) * v ensures keys[j] < Width(range) * v {
      assert k < |served|;
      OwnersAscend(keys, range, served, j, k);
      BelowIffOwner(range, v, keys[j]);
      BelowIffOwner(range, v, keys[k]);
    }
  }

  /** If the replies score exactly the first keys, each by its owner, and the rest lies above the top,
      then the keys come range by range. */
  lemma ScoredByOwner(keys: seq<uint64>, range: int, served: seq<uint64>)
    requires 0 < range && IsInt(range) && RestAboveTop(keys, range, |served|)
    requires Scored(Tagged, Slices(keys, range), range) == ScoreAll(Tagged, range, served)
    ensures Grouped(keys, range) && forall j | 0 <= j < |served| :: keys[j] < Slicer.Top(range)
  {
    hide Slices, Scored, Owner, ScoreAll, Width, PartitionedAt, Slicer.Top, Cut, RestAboveTop;
    forall v | 0 <= v <= range ensures PartitionedAt(keys, Width(range) * v) {
      ScoredIsPartitioned(keys, range, served, v);
    }
    assert |served| <= |keys| by { ServedFits(keys, range, served); }
    forall j | 0 <= j < |served| ensures keys[j] < Slicer.Top(range) {
      var i := OwnSlice(keys, range, served, j);
      OneRangeOwns(range, keys[j]);
    }
  }

  lemma ServedFits(keys: seq<uint64>, range: int, served: seq<uint64>)
    requires 0 < range && IsInt(range) && RestAboveTop(keys, range, |served|)
    ensures |served| <= |keys|
  {
  }

  /** For any request, sorted or not, and every healthy run: each key is answered at its own position by
      its own partition exactly when there is a key, the keys come range by range, and none lies in
      the uncovered top. */
  lemma AnsweredByOwnerIff(keys: seq<uint64>, hosts: seq<string>, name: string, version: string,
      actions: Actions<(nat, uint64)>)
    requires 0 < |hosts| && IsInt(|hosts|)
    requires HealthyRun(Tagged, keys, hosts, name, version, actions)
    ensures |Table(|hosts|, actions)| == |hosts|
    ensures Answer(Slices(keys, |hosts|), Table(|hosts|, actions)) == Ok(ScoreAll(Tagged, |hosts|, keys))
            <==> keys != [] && Grouped(keys, |hosts|) && forall j | 0 <= j < |keys| :: keys[j] < Slicer.Top(|hosts|)
  {
    var range := |hosts|;
    var slices := Slices(keys, range);
    HealthyCells(Tagged, keys, hosts, name, version, actions);
    HealthyScored(Tagged, slices, Table(range, actions), range);
    hide Slices, Table, HealthyRun, Gather, Grouped, Scored, Slicer.Top;
    if Grouped(keys, range) {
      AllAnsweredIffBelowTop(Tagged, keys, hosts, name, version, actions);
    }
    if Answer(slices, Table(range, actions)) == Ok(ScoreAll(Tagged, range, keys)) {
      assert keys != [];
      ScoredByOwner(keys, range, keys);
    }
  }

  /** What is below the top of the key space, in the order of the request. */
  function Served(keys: seq<uint64>, range: int): seq<uint64>
    requires 0 < range && IsInt(range)
  {
    KeepBelow(keys, Slicer.Top(range))
  }

  /** The answer that scores `served`, each key by its owner; an error if there is none. */
  function AnswerFor<W>(score: (nat, uint64) -> W, range: int, served: seq<uint64>): Result<seq<W>>
    requires 0 < range && IsInt(range)
  {
    if served == [] then Err("tgp proxy fail, empty weights") else Ok(ScoreAll(score, range, served))
  }

  lemma ServedLocally<W>(score: (nat, uint64) -> W, keys: seq<uint64>, hosts: seq<string>, name: string,
      version: string,
      actions: Actions<W>)
    requires 0 < |hosts| && IsInt(|hosts|) && Grouped(keys, |hosts|)
    requires HealthyRun(score, keys, hosts, name, version, actions)
    ensures |Table(|hosts|, actions)| == |hosts|
    ensures Answer(Slices(keys, |hosts|), Table(|hosts|, actions)) == AnswerFor(score, |hosts|, Served(keys, |hosts|))
  {
    var top := Slicer.Top(|hosts|);
    assert PartitionedAt(keys, top) by {
      assert PartitionedAt(keys, Width(|hosts|) * |hosts|);
    }
    ScatterGather(score, keys, hosts, name, version, actions);
    hide Answer, Slices, Table, HealthyRun, PartitionedAt, ScoreAll, Slicer.Top, Grouped;
    KeptIsPrefix(keys, top);
  }

  lemma NothingServed(keys: seq<uint64>, range: int)
    requires 0 < range && IsInt(range) && Served(keys, range) == []
    ensures Grouped(keys, range)
  {
    forall k | 0 <= k < |keys| ensures keys[k] >= Slicer.Top(range) {
      if keys[k] < Slicer.Top(range) {
        OneMoreKept(keys, Slicer.Top(range), 0, k);
      }
    }
    hide Width;
    forall v | 0 <= v <= range ensures PartitionedAt(keys, Width(range) * v) {
      TimesMonotone(Width(range), v, range);
    }
  }

  lemma ServedIsPrefix(keys: seq<uint64>, range: int)
    requires 0 < range && IsInt(range)
    requires Scored(Tagged, Slices(keys, range), range) == ScoreAll(Tagged, range, Served(keys, range))
    ensures RestAboveTop(keys, range, |Served(keys, range)|)
  {
    var served, top := Served(keys, range), Slicer.Top(range);
    KeptAtMost(keys, top);
    hide Scored, ScoreAll, Slices, Slicer.Top, Cut, Owner;
    forall j | 0 <= j < |served| ensures keys[j] < top {
      var i := OwnSlice(keys, range, served, j);
      OneRangeOwns(range, keys[j]);
    }
    forall k | |served| <= k < |keys| ensures keys[k] >= top {
      if keys[k] < top {
        OneMoreKept(keys, top, |served|, k);
      }
    }
  }

  /** For any request, sorted or not, and every healthy run: the answer is the local one for the keys
      below the top, each by its own partition and in the request's order, exactly when the keys come
      range by range. */
  lemma ServedByOwnerIff(keys: seq<uint64>, hosts: seq<string>, name: string, version: string,
      actions: Actions<(nat, uint64)>)
    requires 0 < |hosts| && IsInt(|hosts|)
    requires HealthyRun(Tagged, keys, hosts, name, version, actions)
    ensures |Table(|hosts|, actions)| == |hosts|
    ensures Answer(Slices(keys, |hosts|), Table(|hosts|, actions)) == AnswerFor(Tagged, |hosts|, Served(keys, |hosts|))
            <==> Grouped(keys, |hosts|)
  {
    var range := |hosts|;
    var slices, served := Slices(keys, range), Served(keys, range);
    HealthyCells(Tagged, keys, hosts, name, version, actions);
    HealthyScored(Tagged, slices, Table(range, actions), range);
    hide Slices, Served, Table, HealthyRun, Gather, Grouped, Scored;
    if Grouped(keys, range) {
      ServedLocally(Tagged, keys, hosts, name, version, actions);
    } else if Answer(slices, Table(range, actions)) == AnswerFor(Tagged, range, served) {
      if served == [] {
        NothingServed(keys, range);
      } else {
        ServedIsPrefix(keys, range);
        ScoredByOwner(keys, range, served);
      }
    }
  }

  /** A request whose keys come range by range is answered with an error, by healthy model servers, only
      if no key lies below the top; keys in the top are otherwise left out without one. */
  lemma ErrorIffNothingServed<W>(score: (nat, uint64) -> W, keys: seq<uint64>, hosts: seq<string>, name: string,
      version: string,
      actions: Actions<W>)
    requires 0 < |hosts| && IsInt(|hosts|) && Grouped(keys, |hosts|)
    requires HealthyRun(score, keys, hosts, name, version, actions)
    ensures |Table(|hosts|, actions)| == |hosts|
    ensures Answer(Slices(keys, |hosts|), Table(|hosts|, actions)).Err?
            <==> forall j | 0 <= j < |keys| :: keys[j] >= Slicer.Top(|hosts|)
  {
    var top := Slicer.Top(|hosts|);
    ServedLocally(score, keys, hosts, name, version, actions);
    hide Answer, Slices, Table, HealthyRun, Slicer.Top, Grouped;
    forall k | 0 <= k < |keys| && keys[k] < top ensures Served(keys, |hosts|) != [] {
      OneMoreKept(keys, top, 0, k);
    }
    if forall j | 0 <= j < |keys| :: keys[j] >= top {
      NoneKept(keys, top);
    }
  }

  /** What is complained of in partition p's response. */
  function Complaint<W>(r: Response<W>): Result<seq<W>> {
    if r.NoBytes? then Err("tgp proxy fail, ms response timout or no response") else Decode(r)
  }

  /** The answer is the complaint of the first partition that has keys and no usable reply. */
  lemma {:induction false} FirstComplaint<W>(slices: seq<seq<uint64>>, table: seq<Response<W>>, n: nat, p: nat)
    requires p < n <= |slices| <= |table| && slices[p] != [] && Complaint(table[p]).Err?
    requires forall q | 0 <= q < p && slices[q] != [] :: Complaint(table[q]).Ok?
    ensures Gather(slices, table, n) == Complaint(table[p])
  {
    hide Decode;
    if p < n - 1 {
      FirstComplaint(slices, table, n - 1, p);
    } else {
      NoComplaint(slices, table, p);
    }
  }

  lemma {:induction false} NoComplaint<W>(slices: seq<seq<uint64>>, table: seq<Response<W>>, n: nat)
    requires n <= |slices| <= |table| && forall q | 0 <= q < n && slices[q] != [] :: Complaint(table[q]).Ok?
    ensures Gather(slices, table, n).Ok?
  {
    hide Decode;
    if n > 0 {
      NoComplaint(slices, table, n - 1);
    }
  }

  // ---- the number of weights ----

  /** The weights of a partition's reply, none for an empty slice. */
  function ReplyWeights<W>(slices: seq<seq<uint64>>, table: seq<Response<W>>, p: nat): seq<W>
    requires p < |slices| <= |table|
  {
    if slices[p] != [] && Decode(table[p]).Ok? then Decode(table[p]).value else []
  }

  function TotalWeights<W>(slices: seq<seq<uint64>>, table: seq<Response<W>>, n: nat): nat
    requires n <= |slices| <= |table|
  {
    if n == 0 then 0 else TotalWeights(slices, table, n - 1) + |ReplyWeights(slices, table, n - 1)|
  }

  /** Gathering succeeds exactly when the response of every non-empty slice decodes; the number of
      weights is then whatever the replies contained: it is not compared with the number of keys. */
  lemma {:induction false} GatherOkIff<W>(slices: seq<seq<uint64>>, table: seq<Response<W>>, n: nat)
    requires n <= |slices| <= |table|
    ensures Gather(slices, table, n).Ok? <==> forall p | 0 <= p < n && slices[p] != [] :: Decode(table[p]).Ok?
    ensures Gather(slices, table, n).Ok? ==> |Gather(slices, table, n).value| == TotalWeights(slices, table, n)
  {
    hide Doubles;
    if n > 0 {
      GatherOkIff(slices, table, n - 1);
    }
  }

  /** In a run that is over or not, a partition whose slice is not empty and whose reply has not come,
      or was not a 200 reply, makes the answer an error. */
  lemma UnansweredIsError<W>(keys: seq<uint64>, hosts: seq<string>, name: string, version: string,
      actions: Actions<W>, p: nat)
    requires 0 < |hosts| && IsInt(|hosts|) && p < |hosts| && Slices(keys, |hosts|)[p] != []
    requires RegisteredRun(hosts, name, version, Parts(Slices(keys, |hosts|), |hosts|), actions)
    requires var parts := Parts(Slices(keys, |hosts|), |hosts|);
             forall k | 0 <= k < |Calls(actions)| && Calls(actions)[k].m.id < |parts|
                        && parts[Calls(actions)[k].m.id] == p ::
               Calls(actions)[k].m.httpCode != 200
    ensures |Table(|hosts|, actions)| == |hosts|
    ensures Answer(Slices(keys, |hosts|), Table(|hosts|, actions)).Err?
  {
    var slices := Slices(keys, |hosts|);
    var parts := Parts(slices, |hosts|);
    hide Slices, Parts, Table, Calls, RegisteredRun, Gather;
    TableIsCalls(hosts, name, version, parts, actions, p);
    assert Table(|hosts|, actions)[p] == NoBytes;
    GatherOkIff(slices, Table(|hosts|, actions), |hosts|);
  }

  // ---- which weight answers which key ----

  /** Where slice p begins among the keys that are sliced. */
  function Offset(slices: seq<seq<uint64>>, p: nat): nat
    requires p <= |slices|
  {
    if p == 0 then 0 else Offset(slices, p - 1) + |slices[p - 1]|
  }

  /** Every key of slice p is answered, at its own position, by the weight its partition's reply has
      for it. */
  ghost predicate SliceAnswered<W>(slices: seq<seq<uint64>>, table: seq<Response<W>>, ws: seq<W>, p: nat)
    requires p < |slices| <= |table|
  {
    var reply, from := ReplyWeights(slices, table, p), Offset(slices, p);
    |slices[p]| <= |reply| && from + |slices[p]| <= |ws| && ws[from..from + |slices[p]|] == reply[..|slices[p]|]
  }

  /** So is every key, and every weight belongs to one. */
  ghost predicate LinedUp<W>(slices: seq<seq<uint64>>, table: seq<Response<W>>, ws: seq<W>, n: nat)
    requires n <= |slices| <= |table|
  {
    |ws| == Offset(slices, n) && forall p | 0 <= p < n :: SliceAnswered(slices, table, ws, p)
  }

  ghost predicate LengthsMatch<W>(slices: seq<seq<uint64>>, table: seq<Response<W>>, n: nat)
    requires n <= |slices| <= |table|
  {
    forall p | 0 <= p < n :: |ReplyWeights(slices, table, p)| == |slices[p]|
  }

  lemma GatherStep<W>(slices: seq<seq<uint64>>, table: seq<Response<W>>, n: nat)
    requires 0 < n <= |slices| <= |table| && Gather(slices, table, n).Ok?
    ensures Gather(slices, table, n - 1).Ok?
    ensures Gather(slices, table, n).value == Gather(slices, table, n - 1).value + ReplyWeights(slices, table, n - 1)
  {
    hide Doubles;
  }

  lemma StillAnswered<W>(slices: seq<seq<uint64>>, table: seq<Response<W>>, ws: seq<W>, more: seq<W>, p: nat)
    requires p < |slices| <= |table| && SliceAnswered(slices, table, ws, p)
    ensures SliceAnswered(slices, table, ws + more, p)
  {
    hide ReplyWeights, Offset;
    var from, n := Offset(slices, p), |slices[p]|;
    assert (ws + more)[from..from + n] == ws[from..from + n];
  }

  lemma NowAnswered<W>(slices: seq<seq<uint64>>, table: seq<Response<W>>, ws: seq<W>, p: nat)
    requires p < |slices| <= |table| && |ws| == Offset(slices, p) && |ReplyWeights(slices, table, p)| == |slices[p]|
    ensures SliceAnswered(slices, table, ws + ReplyWeights(slices, table, p), p)
  {
    hide ReplyWeights, Offset;
    var reply := ReplyWeights(slices, table, p);
    assert (ws + reply)[|ws|..|ws| + |reply|] == reply == reply[..|slices[p]|];
  }

  lemma OneMoreLinesUp<W>(slices: seq<seq<uint64>>, table: seq<Response<W>>, ws: seq<W>, n: nat)
    requires n < |slices| <= |table| && LinedUp(slices, table, ws, n)
    requires |ReplyWeights(slices, table, n)| == |slices[n]|
    ensures LinedUp(slices, table, ws + ReplyWeights(slices, table, n), n + 1)
  {
    var reply := ReplyWeights(slices, table, n);
    NowAnswered(slices, table, ws, n);
    assert |ws + reply| == Offset(slices, n + 1);
    hide ReplyWeights, SliceAnswered, Offset;
    forall p | 0 <= p < n ensures SliceAnswered(slices, table, ws + reply, p) {
      StillAnswered(slices, table, ws, reply, p);
    }
    assert LinedUp(slices, table, ws + reply, n + 1);
  }

  /** With replies of the right lengths, the first n slices line up. */
  lemma {:induction false} MatchingLinesUp<W>(slices: seq<seq<uint64>>, table: seq<Response<W>>, n: nat, ws: seq<W>)
    requires n <= |slices| <= |table| && Gather(slices, table, n) == Ok(ws) && LengthsMatch(slices, table, n)
    ensures LinedUp(slices, table, ws, n)
  {
    hide *;
    if n == 0 {
      NothingLinesUp(slices, table, ws);
    } else {
      GatherStep(slices, table, n);
      FewerMatch(slices, table, n);
      var before := Gather(slices, table, n - 1).value;
      MatchingLinesUp(slices, table, n - 1, before);
      OneMoreLinesUp(slices, table, before, n - 1);
    }
  }

  lemma NothingLinesUp<W>(slices: seq<seq<uint64>>, table: seq<Response<W>>, ws: seq<W>)
    requires |slices| <= |table| && Gather(slices, table, 0) == Ok(ws)
    ensures LinedUp(slices, table, ws, 0)
  {
  }

  lemma FewerMatch<W>(slices: seq<seq<uint64>>, table: seq<Response<W>>, n: nat)
    requires 0 < n <= |slices| <= |table| && LengthsMatch(slices, table, n)
    ensures LengthsMatch(slices, table, n - 1) && |ReplyWeights(slices, table, n - 1)| == |slices[n - 1]|
  {
    hide ReplyWeights;
  }

  /** If no reply is too short and there are as many weights as keys, then every reply has the right
      length. */
  lemma {:induction false} NoneTooLong<W>(slices: seq<seq<uint64>>, table: seq<Response<W>>, n: nat)
    requires n <= |slices| <= |table| && Gather(slices, table, n).Ok?
    requires forall p | 0 <= p < n :: |ReplyWeights(slices, table, p)| >= |slices[p]|
    ensures |Gather(slices, table, n).value| >= Offset(slices, n)
    ensures |Gather(slices, table, n).value| == Offset(slices, n) ==> LengthsMatch(slices, table, n)
  {
    if n > 0 {
      GatherStep(slices, table, n);
      hide Gather, ReplyWeights;
      NoneTooLong(slices, table, n - 1);
    }
  }

  /** The weights line up with the keys exactly when every non-empty slice's reply has as many weights
      as the slice has keys; a total that is right is not enough. */
  lemma LinedUpIffLengthsMatch<W>(slices: seq<seq<uint64>>, table: seq<Response<W>>)
    requires |slices| <= |table| && Gather(slices, table, |slices|).Ok?
    ensures LinedUp(slices, table, Gather(slices, table, |slices|).value, |slices|)
            <==> LengthsMatch(slices, table, |slices|)
  {
    var n, ws := |slices|, Gather(slices, table, |slices|).value;
    hide Gather, ReplyWeights, Offset, LengthsMatch;
    if LengthsMatch(slices, table, n) {
      MatchingLinesUp(slices, table, n, ws);
    }
    if LinedUp(slices, table, ws, n) {
      forall p | 0 <= p < n ensures |ReplyWeights(slices, table, p)| >= |slices[p]| {
        assert SliceAnswered(slices, table, ws, p);
      }
      NoneTooLong(slices, table, n);
    }
  }

  lemma GatherNext<W>(slices: seq<seq<uint64>>, table: seq<Response<W>>, n: nat, ws: seq<W>, more: seq<W>)
    requires n < |slices| <= |table| && slices[n] != [] && table[n].Document?
    requires Gather(slices, table, n) == Ok(ws) && Decode(table[n]) == Ok(more)
    ensures Gather(slices, table, n + 1) == Ok(ws + more)
  {
    hide Decode;
  }

  /** Three keys with a partition each, and replies of two, no and one weight. */
  const THREE_SLICES: seq<seq<uint64>> := [[1], [2], [3]]

  function UnevenReplies<W>(x: W, y: W, z: W): seq<Response<W>> {
    [OkReply([x, y]), OkReply([]), OkReply([z])]
  }

  lemma UnevenWeights<W>(x: W, y: W, z: W)
    ensures ReplyWeights(THREE_SLICES, UnevenReplies(x, y, z), 0) == [x, y]
    ensures ReplyWeights(THREE_SLICES, UnevenReplies(x, y, z), 1) == []
    ensures ReplyWeights(THREE_SLICES, UnevenReplies(x, y, z), 2) == [z]
  {
    OkReplyDecodes([x, y]);
    OkReplyDecodes<W>([]);
    OkReplyDecodes([z]);
    hide Decode, OkReply;
  }

  lemma UnevenGather<W>(x: W, y: W, z: W)
    ensures Gather(THREE_SLICES, UnevenReplies(x, y, z), 3) == Ok([x, y, z])
  {
    var table, none: seq<W> := UnevenReplies(x, y, z), [];
    OkReplyDecodes([x, y]);
    OkReplyDecodes(none);
    OkReplyDecodes([z]);
    assert none + [x, y] == [x, y] && [x, y] + none == [x, y] && [x, y] + [z] == [x, y, z];
    assert Gather(THREE_SLICES, table, 0) == Ok(none);
    hide Decode, OkReply, Gather;
    GatherNext(THREE_SLICES, table, 0, none, [x, y]);
    GatherNext(THREE_SLICES, table, 1, [x, y], none);
    GatherNext(THREE_SLICES, table, 2, [x, y], [z]);
    assert Gather(THREE_SLICES, table, 3) == Ok([x, y, z]);
  }

  /** An example: the total is right and the first and the third key get their own weight, but the
      second key gets one of the first partition's. */
  lemma UnevenRepliesExample<W>(x: W, y: W, z: W)
    ensures var table, ws := UnevenReplies(x, y, z), [x, y, z];
            && Gather(THREE_SLICES, table, 3) == Ok(ws) && !LengthsMatch(THREE_SLICES, table, 3)
            && SliceAnswered(THREE_SLICES, table, ws, 0) && SliceAnswered(THREE_SLICES, table, ws, 2)
            && !SliceAnswered(THREE_SLICES, table, ws, 1)
  {
    UnevenGather(x, y, z);
    UnevenWeights(x, y, z);
    hide Gather, ReplyWeights;
    assert Offset(THREE_SLICES, 1) == 1 && Offset(THREE_SLICES, 2) == 2;
    var table, ws := UnevenReplies(x, y, z), [x, y, z];
    assert ws[0..1] == [x, y][..1] && ws[2..3] == [z][..1];
    assert |ReplyWeights(THREE_SLICES, table, 1)| != |THREE_SLICES[1]|;
  }

  // ---- what arrives while a request is served ----

  type Bursts<W> = seq<Transfers.Burst<Response<W>>>

  /** The entries for the listed partitions. */
  function Picked<T>(xs: seq<T>, parts: seq<nat>): (ys: seq<T>)
    requires forall i | 0 <= i < |parts| :: parts[i] < |xs|
    ensures |ys| == |parts|
  {
    seq(|parts|, k requires 0 <= k < |parts| => xs[parts[k]])
  }

  /** The transfers after a request: `accepted[p]` is what the library says to partition p's, and
      `arrivals[p]` happens while it is being registered, and `rest` in the event loop. */
  ghost function AfterRequest<W>(slices: seq<seq<uint64>>, hosts: seq<string>, name: string, version: string,
      accepted: seq<bool>, arrivals: Bursts<W>, rest: Bursts<W>): Transfers.State<Response<W>>
    requires |slices| == |hosts| == |accepted| == |arrivals|
  {
    var parts := Parts(slices, |slices|);
    Transfers.AfterAll(UrlsFor(hosts, name, version, parts), Picked(accepted, parts), Picked(arrivals, parts), rest)
  }

  /** What happens from the k-th registration on. */
  ghost function From<W>(parts: seq<nat>, arrivals: Bursts<W>, rest: Bursts<W>, k: nat): Bursts<W>
    requires k <= |parts| && forall i | 0 <= i < |parts| :: parts[i] < |arrivals|
  {
    Picked(arrivals, parts)[k..] + rest
  }

  /** Every partition with keys is accepted, and is replied to, in whatever way. */
  ghost predicate AllArrive<W>(slices: seq<seq<uint64>>, accepted: seq<bool>, arrivals: Bursts<W>, rest: Bursts<W>)
    requires |slices| == |accepted| == |arrivals|
  {
    var parts := Parts(slices, |slices|);
    forall k: nat | k < |parts| :: accepted[parts[k]] && Transfers.Arrives(From(parts, arrivals, rest, k), k)
  }

  /** Every reply is healthy. */
  ghost predicate HealthyArrivals<W>(score: (nat, uint64) -> W, slices: seq<seq<uint64>>, arrivals: Bursts<W>,
      rest: Bursts<W>)
    requires |slices| == |arrivals|
  {
    var parts := Parts(slices, |slices|);
    forall m | m in Transfers.MentionedIn(From(parts, arrivals, rest, 0)) && m.id < |parts| ::
      m.httpCode == 200 && m.body == HealthyReply(score, parts[m.id], slices[parts[m.id]])
  }

  /** Then the transfers all complete, wherever the replies arrive. */
  lemma ArrivedIsComplete<W>(slices: seq<seq<uint64>>, hosts: seq<string>, name: string, version: string,
      accepted: seq<bool>, arrivals: Bursts<W>, rest: Bursts<W>)
    requires |slices| == |hosts| == |accepted| == |arrivals| && AllArrive(slices, accepted, arrivals, rest)
    ensures AfterRequest(slices, hosts, name, version, accepted, arrivals, rest).live == map[]
  {
    var parts := Parts(slices, |slices|);
    var urls := UrlsFor(hosts, name, version, parts);
    hide Parts, UrlsFor, Transfers.AfterAll, Transfers.Arrives;
    forall k: nat | k < |urls|
      ensures Picked(accepted, parts)[k] && Transfers.Arrives(Picked(arrivals, parts)[k..] + rest, k)
    {
      assert Transfers.Arrives(From(parts, arrivals, rest, k), k);
    }
    hide Picked;
    Transfers.AllServed(urls, Picked(accepted, parts), Picked(arrivals, parts), rest);
  }

  /** What leads there is a run that registers the slices, and a complete one if all replies arrive. */
  lemma RequestRun<W>(slices: seq<seq<uint64>>, hosts: seq<string>, name: string, version: string,
      accepted: seq<bool>, arrivals: Bursts<W>, rest: Bursts<W>, actions: Actions<W>)
    requires |slices| == |hosts| == |accepted| == |arrivals| && |hosts| < 0x8000_0000
    requires Transfers.IsRun(Transfers.Initial(), actions) && Transfers.OneShots(actions)
    requires Transfers.Run(Transfers.Initial(), actions)
             == AfterRequest(slices, hosts, name, version, accepted, arrivals, rest)
    ensures RegisteredRun(hosts, name, version, Parts(slices, |slices|), actions)
    ensures AllArrive(slices, accepted, arrivals, rest) ==>
              CompleteRun(hosts, name, version, Parts(slices, |slices|), actions)
  {
    var parts := Parts(slices, |slices|);
    Transfers.OneShotRun(actions);
    hide Parts, UrlsFor, Transfers.AfterAll, Transfers.IsRun, Transfers.Run, Transfers.OneShots, Transfers.CreatedUrls,
      Transfers.CallsKnown, AllArrive;
    Transfers.AfterAllHandles(UrlsFor(hosts, name, version, parts), Picked(accepted, parts), Picked(arrivals, parts),
      rest);
    if AllArrive(slices, accepted, arrivals, rest) {
      ArrivedIsComplete(slices, hosts, name, version, accepted, arrivals, rest);
    }
  }

  ghost predicate ServedHealthily<W>(score: (nat, uint64) -> W, keys: seq<uint64>, hosts: seq<string>,
      accepted: seq<bool>, arrivals: Bursts<W>, rest: Bursts<W>)
    requires |hosts| == |accepted| == |arrivals| && IsInt(|hosts|)
  {
    && 0 < |hosts|
    && AllArrive(Slices(keys, |hosts|), accepted, arrivals, rest)
    && HealthyArrivals(score, Slices(keys, |hosts|), arrivals, rest)
  }

  /** If every partition is accepted and replied to, and all replies are healthy, then what was done is
      a healthy run, and so the theorems about healthy runs hold of its answer. */
  lemma ArrivalsAreHealthy<W>(score: (nat, uint64) -> W, keys: seq<uint64>, hosts: seq<string>, name: string,
      version: string, accepted: seq<bool>, arrivals: Bursts<W>, rest: Bursts<W>, actions: Actions<W>)
    requires |hosts| == |accepted| == |arrivals| && IsInt(|hosts|)
    requires ServedHealthily(score, keys, hosts, accepted, arrivals, rest)
    requires RegisteredRun(hosts, name, version, Parts(Slices(keys, |hosts|), |hosts|), actions)
    requires Transfers.Run(Transfers.Initial(), actions)
             == AfterRequest(Slices(keys, |hosts|), hosts, name, version, accepted, arrivals, rest)
    ensures HealthyRun(score, keys, hosts, name, version, actions)
  {
    var slices := Slices(keys, |hosts|);
    var parts := Parts(slices, |slices|);
    ArrivedIsComplete(slices, hosts, name, version, accepted, arrivals, rest);
    forall m | m in Transfers.FinishedMessages(actions)
      ensures m in Transfers.MentionedIn(From(parts, arrivals, rest, 0))
    {
      var k := FinishedIsCalled(actions, m);
      assert Transfers.Messages(Calls(actions))[k] == m;
      var urls := UrlsFor(hosts, name, version, parts);
      Transfers.CalledIsMentioned(urls, Picked(accepted, parts), Picked(arrivals, parts), rest, m);
    }
  }

  /** Hence the answer is the local one. */
  lemma ArrivalsAreServed<W>(score: (nat, uint64) -> W, keys: seq<uint64>, hosts: seq<string>, name: string,
      version: string, accepted: seq<bool>, arrivals: Bursts<W>, rest: Bursts<W>, actions: Actions<W>)
    requires |hosts| == |accepted| == |arrivals| && IsInt(|hosts|)
    requires ServedHealthily(score, keys, hosts, accepted, arrivals, rest) && Grouped(keys, |hosts|)
    requires RegisteredRun(hosts, name, version, Parts(Slices(keys, |hosts|), |hosts|), actions)
    requires Transfers.Run(Transfers.Initial(), actions)
             == AfterRequest(Slices(keys, |hosts|), hosts, name, version, accepted, arrivals, rest)
    ensures |Table(|hosts|, actions)| == |hosts|
    ensures Answer(Slices(keys, |hosts|), Table(|hosts|, actions)) == AnswerFor(score, |hosts|, Served(keys, |hosts|))
  {
    assert 0 < |hosts|;
    hide *;
    ArrivalsAreHealthy(score, keys, hosts, name, version, accepted, arrivals, rest, actions);
    ServedLocally(score, keys, hosts, name, version, actions);
  }

  lemma LostIsUncalled<W>(slices: seq<seq<uint64>>, hosts: seq<string>, name: string, version: string,
      accepted: seq<bool>, arrivals: Bursts<W>, rest: Bursts<W>, actions: Actions<W>, k: nat)
    requires |slices| == |hosts| == |accepted| == |arrivals|
    requires Transfers.IsRun(Transfers.Initial(), actions) && Transfers.OneShots(actions)
    requires Transfers.Run(Transfers.Initial(), actions)
             == AfterRequest(slices, hosts, name, version, accepted, arrivals, rest)
    requires var parts := Parts(slices, |slices|);
             k < |parts| && (accepted[parts[k]] ==> !Transfers.Mentions(From(parts, arrivals, rest, k), k))
    ensures forall i | 0 <= i < |Calls(actions)| :: Calls(actions)[i].m.id != k
  {
    var parts := Parts(slices, |slices|);
    var urls := UrlsFor(hosts, name, version, parts);
    Transfers.OneShotRun(actions);
    hide Parts, UrlsFor, Transfers.Run, Transfers.IsRun, Transfers.AfterAll, Transfers.Mentions, Transfers.Arrives;
    Transfers.AfterAllFate(urls, Picked(accepted, parts), Picked(arrivals, parts), rest, k);
    assert k in Transfers.Run(Transfers.Initial(), actions).live;
  }

  /** If a partition with keys is not accepted, or no reply to it is ever mentioned from then on, the
      answer is an error. */
  lemma LostIsError<W>(keys: seq<uint64>, hosts: seq<string>, name: string, version: string, accepted: seq<bool>,
      arrivals: Bursts<W>, rest: Bursts<W>, actions: Actions<W>, k: nat)
    requires 0 < |hosts| == |accepted| == |arrivals| && IsInt(|hosts|)
    requires var parts := Parts(Slices(keys, |hosts|), |hosts|);
             && RegisteredRun(hosts, name, version, parts, actions) && k < |parts|
             && (accepted[parts[k]] ==> !Transfers.Mentions(From(parts, arrivals, rest, k), k))
    requires Transfers.Run(Transfers.Initial(), actions)
             == AfterRequest(Slices(keys, |hosts|), hosts, name, version, accepted, arrivals, rest)
    ensures |Table(|hosts|, actions)| == |hosts|
    ensures Answer(Slices(keys, |hosts|), Table(|hosts|, actions)).Err?
  {
    var slices := Slices(keys, |hosts|);
    var parts := Parts(slices, |slices|);
    hide Slices, Parts, AfterRequest, From, Transfers.Run, Transfers.IsRun, Transfers.OneShots, Transfers.CreatedUrls,
      UrlsFor, Answer, Table, Calls;
    LostIsUncalled(slices, hosts, name, version, accepted, arrivals, rest, actions, k);
    UnansweredIsError(keys, hosts, name, version, actions, parts[k]);
  }

  /** The listed partitions' transfers are registered one after the other. */
  ghost function AfterSlices<W>(s: Transfers.State<Response<W>>, parts: seq<nat>, hosts: seq<string>, name: string,
      version: string, accepted: seq<bool>, arrivals: Bursts<W>): (t: Transfers.State<Response<W>>)
    requires Transfers.Tracked(s) && Transfers.Below(s) && |hosts| == |accepted| == |arrivals|
    requires forall i | 0 <= i < |parts| :: parts[i] < |hosts|
    ensures Transfers.Tracked(t) && Transfers.Below(t)
  {
    Transfers.RegisterAll(s, UrlsFor(hosts, name, version, parts), Picked(accepted, parts), Picked(arrivals, parts))
  }

  /** So are those of the first n slices. */
  ghost function AfterFirst<W>(s: Transfers.State<Response<W>>, slices: seq<seq<uint64>>, n: nat, hosts: seq<string>,
      name: string, version: string, accepted: seq<bool>, arrivals: Bursts<W>): (t: Transfers.State<Response<W>>)
    requires Transfers.Tracked(s) && Transfers.Below(s)
    requires n <= |slices| == |hosts| == |accepted| == |arrivals|
    ensures Transfers.Tracked(t) && Transfers.Below(t)
  {
    AfterSlices(s, Parts(slices, n), hosts, name, version, accepted, arrivals)
  }

  lemma NoneRegistered<W>(s: Transfers.State<Response<W>>, slices: seq<seq<uint64>>, hosts: seq<string>, name: string,
      version: string, accepted: seq<bool>, arrivals: Bursts<W>)
    requires Transfers.Tracked(s) && Transfers.Below(s) && |slices| == |hosts| == |accepted| == |arrivals|
    ensures AfterFirst(s, slices, 0, hosts, name, version, accepted, arrivals) == s
  {
    hide Transfers.Tracked, Transfers.Below;
    Transfers.RegisterNone(s, Picked(accepted, []), Picked(arrivals, []));
  }

  lemma AllRegistered<W>(s: Transfers.State<Response<W>>, slices: seq<seq<uint64>>, hosts: seq<string>, name: string,
      version: string, accepted: seq<bool>, arrivals: Bursts<W>)
    requires Transfers.Tracked(s) && Transfers.Below(s) && |slices| == |hosts| == |accepted| == |arrivals|
    ensures AfterFirst(s, slices, |slices|, hosts, name, version, accepted, arrivals)
            == AfterSlices(s, Parts(slices, |slices|), hosts, name, version, accepted, arrivals)
  {
    hide Transfers.Tracked, Transfers.Below, AfterSlices, Parts;
  }

  lemma OneMoreRegistered<W>(s: Transfers.State<Response<W>>, parts: seq<nat>, p: nat, hosts: seq<string>,
      name: string, version: string, accepted: seq<bool>, arrivals: Bursts<W>)
    requires Transfers.Tracked(s) && Transfers.Below(s) && p < |hosts| == |accepted| == |arrivals|
    requires forall i | 0 <= i < |parts| :: parts[i] < |hosts|
    ensures var before := AfterSlices(s, parts, hosts, name, version, accepted, arrivals);
            var added := Transfers.AfterRegister(before, MsUrl(hosts[p], name, version, p), accepted[p]);
            && Transfers.Tracked(added)
            && AfterSlices(s, parts + [p], hosts, name, version, accepted, arrivals)
               == Transfers.Fire(added, arrivals[p])
  {
    var urls := UrlsFor(hosts, name, version, parts);
    assert UrlsFor(hosts, name, version, parts + [p]) == urls + [MsUrl(hosts[p], name, version, p)];
    assert Picked(accepted, parts + [p]) == Picked(accepted, parts) + [accepted[p]];
    assert Picked(arrivals, parts + [p]) == Picked(arrivals, parts) + [arrivals[p]];
    hide UrlsFor, Picked, MsUrl, Transfers.Tracked, Transfers.Below, Transfers.RegisterAll, Transfers.AfterRegister;
    Transfers.RegisterPush(s, urls, Picked(accepted, parts), Picked(arrivals, parts),
      MsUrl(hosts[p], name, version, p), accepted[p], arrivals[p]);
  }

  /** The next slice's transfer is registered, and something arrives, unless the slice is empty. */
  lemma NextRegistered<W>(s: Transfers.State<Response<W>>, slices: seq<seq<uint64>>, n: nat, hosts: seq<string>,
      name: string, version: string, accepted: seq<bool>, arrivals: Bursts<W>)
    requires Transfers.Tracked(s) && Transfers.Below(s)
    requires n < |slices| == |hosts| == |accepted| == |arrivals|
    ensures var before := AfterFirst(s, slices, n, hosts, name, version, accepted, arrivals);
            var after := AfterFirst(s, slices, n + 1, hosts, name, version, accepted, arrivals);
            var added := Transfers.AfterRegister(before, MsUrl(hosts[n], name, version, n), accepted[n]);
            && Transfers.Tracked(added)
            && after == if slices[n] == [] then before else Transfers.Fire(added, arrivals[n])
  {
    OneMorePart(slices, n);
    hide Parts, AfterSlices, Transfers.Tracked, Transfers.Below, Transfers.AfterRegister, Transfers.Fire;
    OneMoreRegistered(s, Parts(slices, n), n, hosts, name, version, accepted, arrivals);
  }

  lemma AllSlices(keys: seq<uint64>, range: int, slices: seq<seq<uint64>>)
    requires 0 <= range && IsInt(range) && |slices| == range
    requires forall i | 0 <= i < range :: slices[i] == SliceAt(keys, Ranges(range), [], i)
    ensures slices == Slices(keys, range)
  {
  }

  // ---- the postman ----

  class TGProxyPostman<W> {
    const range: nat
    const name: string
    const version: string
    const slicer: RangeSlicer
    const hub: Transfers.MultiCURL<Response<W>, seq<Response<W>>>
    var features: seq<uint64>
    var slices: seq<seq<uint64>>

    ghost predicate Valid()
      reads this, slicer, hub
    {
      && IsInt(range)
      && slicer.ranges == Ranges(range)
      && hub.Valid() && hub.callback == Callback(range) && hub.start == Blank(range)
      && Transfers.OneShots(hub.log)
    }

    constructor (range: nat, name: string, version: string)
      requires IsInt(range)
      ensures Valid() && fresh(slicer) && fresh(hub)
      ensures this.range == range && this.name == name && this.version == version
      ensures features == [] && slices == [] && hub.log == []
    {
      this.range, this.name, this.version := range, name, version;
      slicer := new RangeSlicer(range);
      hub := new Transfers.MultiCURL(Callback(range), Blank(range));
      features, slices := [], [];
    }

    /** Takes over the features of an acceptable request, or reports the first complaint. */
    method CheckRequest(r: Request) returns (ok: bool, out: string)
      modifies this`features
      ensures ok == Check(old(features), r).Ok?
      ensures !ok ==> out == Check(old(features), r).reason
      ensures features == old(features) + if r.Fields? && r.features.Listed? then LeadingKeys(r.features.items) else []
      ensures ok ==> features == Check(old(features), r).value
    {
      hide CheckFeatures, LeadingKeys;
      out := "";
      if r.UnparsableRequest? {
        return false, "please check, wrong request json";
      }
      var count := -1;
      if r.count.Int64? {
        count := r.count.count;
      }
      if r.features.NoFeatures? {
        return false, "please check, features is gone";
      }
      if r.features.NotAnArray? {
        return false, "please check, features is not array";
      }
      var pushed := PushFeatures(r.features.items);
      if !pushed {
        return false, "please check, feature is not uint64";
      }
      if features == [] {
        return false, "please check, features is empty";
      }
      if count != -1 && count != |features| {
        return false, "please check, features size != count";
      }
      ok := true;
    }

    /** The loop over the listed features. */
    method PushFeatures(items: seq<Feature>) returns (ok: bool)
      modifies this`features
      ensures features == old(features) + LeadingKeys(items)
      ensures if ok then CheckFeatures(items) == Ok(LeadingKeys(items))
              else CheckFeatures(items) == Err("please check, feature is not uint64")
    {
      hide CheckFeatures, LeadingKeys;
      ghost var keys: seq<uint64> := [];
      NoKeys(items);
      for i := 0 to |items|
        invariant features == old(features) + keys
        invariant CheckFeatures(items[..i]) == Ok(keys)
        invariant LeadingKeys(items) == keys + LeadingKeys(items[i..])
      {
        if items[i].NotUint64? {
          CheckFails(items, i);
          return false;
        }
        NextKey(items, i, keys);
        features := features + [items[i].key];
        keys := keys + [items[i].key];
      }
      AllKeys(items);
      assert keys + [] == keys;
      ok := true;
    }

    lemma NoKeys(items: seq<Feature>)
      ensures CheckFeatures(items[..0]) == Ok([]) && items[0..] == items
    {
    }

    lemma AllKeys(items: seq<Feature>)
      ensures items[..|items|] == items && LeadingKeys(items[|items|..]) == []
    {
    }

    lemma NextKey(items: seq<Feature>, i: nat, keys: seq<uint64>)
      requires i < |items| && items[i].Key? && CheckFeatures(items[..i]) == Ok(keys)
      ensures CheckFeatures(items[..i + 1]) == Ok(keys + [items[i].key])
      ensures LeadingKeys(items[i..]) == [items[i].key] + LeadingKeys(items[i + 1..])
    {
      assert items[..i + 1][..i] == items[..i];
      assert items[i..][1..] == items[i + 1..];
    }

    lemma CheckFails(items: seq<Feature>, i: nat)
      requires i < |items| && items[i].NotUint64?
      ensures CheckFeatures(items) == Err("please check, feature is not uint64") && LeadingKeys(items[i..]) == []
    {
      CheckFeaturesIff(items);
    }

    /** The library finishes some of the running transfers and the message queue is drained: what
        can happen inside a registration and whenever the event loop runs. */
    method Arrivals(burst: Transfers.Burst<Response<W>>)
      requires Valid()
      modifies hub
      ensures Valid() && hub.Model() == Transfers.Fire(old(hub.Model()), burst)
    {
      hub.SocketAction(burst);
      Transfers.GrownOneShots(old(hub.log), hub.log);
    }

    lemma HubTracks()
      requires Valid()
      ensures Transfers.Tracked(hub.Model()) && Transfers.Below(hub.Model())
    {
    }

    /** EventHub::register_event, and what happens inside it. */
    method Register(url: string, accepted: bool, burst: Transfers.Burst<Response<W>>)
      requires Valid()
      modifies hub
      ensures Valid() && Transfers.Tracked(Transfers.AfterRegister(old(hub.Model()), url, accepted))
      ensures hub.Model() == Transfers.Fire(Transfers.AfterRegister(old(hub.Model()), url, accepted), burst)
    {
      HubTracks();
      Transfers.RegisterTracks(hub.Model(), url, accepted);
      hide Transfers.IsRun, Transfers.Run, Transfers.Deliver, Transfers.Tracked, Transfers.Below, Transfers.Fire;
      hub.RegisterEvent(url, accepted);
      hide Transfers.AfterRegister;
      Arrivals(burst);
    }

    /** Registers a transfer for every non-empty slice; `accepted[i]` is what the library says to it,
        and `arrivals[i]` what it completes while slice i is being registered. */
    method RegisterSlices(cut: seq<seq<uint64>>, hosts: seq<string>, accepted: seq<bool>, arrivals: Bursts<W>)
      requires Valid() && |cut| == |hosts| == |accepted| == |arrivals|
      modifies hub
      ensures Valid()
      ensures hub.Model() == AfterSlices(old(hub.Model()), Parts(cut, |cut|), hosts, name, version, accepted, arrivals)
    {
      HubTracks();
      hide *;
      ghost var before := hub.Model();
      NoneRegistered(before, cut, hosts, name, version, accepted, arrivals);
      for i := 0 to |cut|
        invariant Valid()
        invariant hub.Model() == AfterFirst(before, cut, i, hosts, name, version, accepted, arrivals)
      {
        NextRegistered(before, cut, i, hosts, name, version, accepted, arrivals);
        if cut[i] == [] {
          continue;
        }
        Register(MsUrl(hosts[i], name, version, i), accepted[i], arrivals[i]);
      }
      AllRegistered(before, cut, hosts, name, version, accepted, arrivals);
    }

    /** Cuts the features and registers the slices. */
    method TransferRequest(hosts: seq<string>, accepted: seq<bool>, arrivals: Bursts<W>)
      requires Valid() && features != []
      requires |hosts| == range == |accepted| == |arrivals|
      modifies this`slices, hub
      ensures Valid() && |slices| == range
      ensures forall i | 0 <= i < range :: slices[i] == SliceAt(features, Ranges(range), old(slices), i)
      ensures hub.Model()
              == AfterSlices(old(hub.Model()), Parts(slices, range), hosts, name, version, accepted, arrivals)
    {
      slices := slicer.Slice(features, slices);
      hide Slices, Parts, UrlsFor, SliceAt, Ranges, AfterSlices;
      RegisterSlices(slices, hosts, accepted, arrivals);
    }

    method DecodeMSWeights(r: Response<W>, before: seq<W>) returns (ok: bool, weights: seq<W>, out: string)
      ensures ok == Decode(r).Ok?
      ensures ok ==> weights == before + Decode(r).value
      ensures !ok ==> out == Decode(r).reason
    {
      weights, out := before, "";
      match r
      case Document(Text(reason), Numbers(items)) =>
        if reason != "ok" {
          return false, weights, reason;
        }
        for i := 0 to |items|
          invariant Doubles(items[..i]).Ok? && weights == before + Doubles(items[..i]).value
        {
          assert items[..i + 1][..i] == items[..i];
          if items[i].NotDouble? {
            DoublesFail(items, i);
            return false, weights, "tgp proxy fail, no double weight";
          }
          weights := weights + [items[i].w];
        }
        assert items[..|items|] == items;
        ok := true;
      case Document(_, _) =>
        return false, weights, "tgp proxy fail, unkown ms weights format";
      case _ =>
        return false, weights, "tgp proxy fail, can't decode ms weights";
    }

    lemma {:induction false} DoublesFail(items: seq<Number<W>>, i: nat)
      requires i < |items| && items[i].NotDouble?
      ensures Doubles(items) == Err("tgp proxy fail, no double weight")
      decreases |items|
    {
      var n := |items| - 1;
      if i < n {
        DoublesFail(items[..n], i);
      }
    }

    /** EventHub::start: the event loop delivers the rest. */
    method Start(rest: Bursts<W>)
      requires Valid()
      modifies hub
      ensures Valid() && hub.Model() == Transfers.FireAll(old(hub.Model()), rest)
    {
      hide Transfers.IsRun, Transfers.Run, Transfers.Deliver, Transfers.OneShots, Transfers.Tracked, Transfers.Below,
        Transfers.Fire, Transfers.FireAll, Transfers.Onward;
      Transfers.FireNone(hub.Model());
      for i := 0 to |rest|
        invariant Valid() && hub.Model() == Transfers.FireAll(old(hub.Model()), rest[..i])
      {
        Transfers.FirePush(old(hub.Model()), rest[..i], rest[i]);
        assert rest[..i] + [rest[i]] == rest[..i + 1];
        Arrivals(rest[i]);
      }
      assert rest[..|rest|] == rest;
    }

    /** Puts the weights together in partition order. */
    method CollectWeights(table: seq<Response<W>>) returns (answer: Result<seq<W>>)
      requires |slices| <= |table|
      ensures answer == Answer(slices, table)
    {
      hide Decode;
      var weights: seq<W> := [];
      for i := 0 to |slices|
        invariant Gather(slices, table, i) == Ok(weights)
      {
        if slices[i] == [] {
          continue;
        }
        if table[i].NoBytes? {
          GatherFails(slices, table, i + 1);
          return Err("tgp proxy fail, ms response timout or no response");
        }
        var ok, more, out := DecodeMSWeights(table[i], weights);
        if !ok {
          GatherFails(slices, table, i + 1);
          return Err(out);
        }
        weights := more;
      }
      if weights == [] {
        return Err("tgp proxy fail, empty weights");
      }
      answer := Ok(weights);
    }

    method AnswerRequest(rest: Bursts<W>) returns (answer: Result<seq<W>>)
      requires Valid() && |slices| == range
      modifies hub
      ensures Valid() && |hub.user| == range
      ensures hub.Model() == Transfers.FireAll(old(hub.Model()), rest)
      ensures answer == Answer(slices, hub.user)
    {
      Start(rest);
      DeliverSize<W>(range, hub.calls);
      answer := CollectWeights(hub.user);
    }

    /** The first complaint is the answer. */
    lemma {:induction false} GatherFails(slices: seq<seq<uint64>>, table: seq<Response<W>>, n: nat)
      requires n <= |slices| <= |table| && Gather(slices, table, n).Err?
      ensures Gather(slices, table, |slices|) == Gather(slices, table, n)
      decreases |slices| - n
    {
      hide Decode;
      if n < |slices| {
        GatherFails(slices, table, n + 1);
      }
    }

    lemma FreshHub()
      requires Valid() && hub.log == []
      ensures hub.Model() == Transfers.Initial() && IsInt(range)
    {
    }

    /** The table is what the callbacks made of it. */
    lemma HubRuns()
      requires Valid()
      ensures Transfers.IsRun(Transfers.Initial(), hub.log) && Transfers.OneShots(hub.log)
      ensures hub.Model() == Transfers.Run(Transfers.Initial(), hub.log) && hub.user == Table(range, hub.log)
    {
    }

    /** One request from cut to answer. Whatever the library accepts, completes and when, what was done
        to the transfers is a run that registers the slices of the features, and the answer is the
        answer of that run's table. The run is complete, and the answer that of healthy model servers, if
        every slice is accepted and replied to, while the transfers are registered or in the loop. */
    method Express(hosts: seq<string>, accepted: seq<bool>, arrivals: Bursts<W>, rest: Bursts<W>)
      returns (answer: Result<seq<W>>)
      requires Valid() && features != [] && slices == [] && hub.log == []
      requires |hosts| == range == |accepted| == |arrivals|
      modifies this`slices, hub
      ensures RegisteredRun(hosts, name, version, Parts(Slices(features, range), range), hub.log)
      ensures Transfers.Run(Transfers.Initial(), hub.log)
              == AfterRequest(Slices(features, range), hosts, name, version, accepted, arrivals, rest)
      ensures |Table(range, hub.log)| == range
      ensures answer == Answer(Slices(features, range), Table(range, hub.log))
      ensures AllArrive(Slices(features, range), accepted, arrivals, rest) ==>
                CompleteRun(hosts, name, version, Parts(Slices(features, range), range), hub.log)
      ensures forall score: (nat, uint64) -> W |
                ServedHealthily(score, features, hosts, accepted, arrivals, rest) && Grouped(features, range) ::
                answer == AnswerFor(score, range, Served(features, range))
    {
      FreshHub();
      hide *;
      TransferRequest(hosts, accepted, arrivals);
      AllSlices(features, range, slices);
      answer := AnswerRequest(rest);
      HubRuns();
      RequestRun(slices, hosts, name, version, accepted, arrivals, rest, hub.log);
      forall score: (nat, uint64) -> W |
        ServedHealthily(score, features, hosts, accepted, arrivals, rest) && Grouped(features, range)
        ensures answer == AnswerFor(score, range, Served(features, range))
      {
        ArrivalsAreServed(score, features, hosts, name, version, accepted, arrivals, rest, hub.log);
      }
    }
  }
}
