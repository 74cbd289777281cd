/** The cached model-server list as a system of steps: a ZooKeeper node with versions and a one-shot
    child watch, updates that fetch under the session's mutex and install under the cache's mutex,
    and everything between the two. */
module Membership {
  import opened Listing

  /** The watched node: gone, or there with its children in the server's order. */
  datatype Node = Absent | Present(names: seq<string>)

  /** An update: before its fetch, holding the list of a fetch, or over. */
  datatype Update = Begun | Holding(ticket: nat) | Finished

  /** A list some update got: at which version of the node, and the list. */
  datatype Fetch = Fetch(version: nat, list: seq<string>)

  datatype Latest = NoFetch | Failed | Got(fetch: Fetch)

  /** Who runs an update: the session's watcher on a connected event, which holds the session's mutex
      from before its fetch until after its install; the child watcher; or the refresh loop. Both
      watchers run on the client library's one completion thread, and the loop is one thread too. */
  datatype Origin = ConnectedEvent | ChildEvent | RefreshLoop

  /** `versions` is the node's history, the last being current. `armed` says that a child watch is
      set, and `pending` are the events not yet delivered, by the watcher they are for. `origins` says
      who runs each of the `updates`. `fetched` holds the non-empty lists in the
      order they were fetched, their positions being the tickets; `installs` the tickets in the
      order they were installed. */
  datatype State = State(
    versions: seq<Node>, live: bool, armed: bool, pending: seq<Origin>, updates: seq<Update>, origins: seq<Origin>,
    fetched: seq<Fetch>, latest: Latest, installs: seq<nat>, cached: seq<string>)

  function Initial(node: Node): State {
    State([node], false, false, [], [], [], [], NoFetch, [], [])
  }

  datatype Action =
    | Change(node: Node)                // another client changes the node
    | Open                              // a session is established; its connected event is pending
    | Lose                              // the session is closed, with its watch and its events
    | Report(origin: Origin)            // the client reports a session event to a watcher
    | Deliver                           // an event reaches its watcher, which begins an update
    | Begin                             // the refresh loop begins an update
    | Answer(u: nat, reply: seq<string>)  // an update's fetch succeeds
    | Fail(u: nat)                      // an update's fetch fails
    | Install(u: nat)                   // an update installs the list it holds

  function Current(s: State): Node
    requires s.versions != []
  {
    s.versions[|s.versions| - 1]
  }

  /** All updates of this origin are over. */
  predicate NoneUnderWay(s: State, o: Origin) {
    forall u | 0 <= u < |s.updates| && u < |s.origins| && s.origins[u] == o :: s.updates[u].Finished?
  }

  /** No connected event's update holds the session's mutex, unless it is this one. */
  predicate MutexFree(s: State, u: nat) {
    forall v | 0 <= v < |s.updates| && v < |s.origins| && v != u && s.origins[v].ConnectedEvent? ::
      s.updates[v].Finished?
  }

  /** A session is opened, and a list is fetched, under the session's mutex. The completion thread
      delivers an event when its last update is over, and the loop begins an update likewise. The
      server answers with the current children in some order; a fetch without a session, or of a node
      that is gone, can only fail. */
  predicate Enabled(s: State, a: Action) {
    && s.versions != []
    && match a
       case Change(_) => true
       case Open => !s.live && NoneUnderWay(s, ConnectedEvent)
       case Lose => s.live
       case Report(o) => s.live && !o.RefreshLoop?
       case Deliver => s.live && s.pending != [] && NoneUnderWay(s, ConnectedEvent) && NoneUnderWay(s, ChildEvent)
       case Begin => NoneUnderWay(s, RefreshLoop)
       case Answer(u, reply) =>
         && u < |s.updates| && s.updates[u].Begun? && MutexFree(s, u)
         && s.live && Current(s).Present? && multiset(reply) == multiset(Current(s).names)
       case Fail(u) => u < |s.updates| && s.updates[u].Begun? && MutexFree(s, u)
       case Install(u) => u < |s.updates| && s.updates[u].Holding? && s.updates[u].ticket < |s.fetched|
  }

  function Step(s: State, a: Action): State
    requires Enabled(s, a)
  {
    match a
    case Change(node) =>
      s.(versions := s.versions + [node], armed := false,
         pending := if s.armed then s.pending + [ChildEvent] else s.pending)
    case Open => s.(live := true, armed := false, pending := [ConnectedEvent])
    case Lose => s.(live := false, armed := false, pending := [])
    case Report(o) => s.(pending := s.pending + [o])
    case Deliver =>
      s.(pending := s.pending[1..], updates := s.updates + [Begun], origins := s.origins + [s.pending[0]])
    case Begin => s.(updates := s.updates + [Begun], origins := s.origins + [RefreshLoop])
    case Answer(u, reply) =>
      var f := Fetch(|s.versions| - 1, ListingOf(reply));
      if f.list == [] then
        s.(armed := true, latest := Got(f), updates := s.updates[u := Finished])
      else
        s.(armed := true, latest := Got(f), updates := s.updates[u := Holding(|s.fetched|)], fetched := s.fetched + [f])
    case Fail(u) => s.(latest := Failed, updates := s.updates[u := Finished])
    case Install(u) =>
      var ticket := s.updates[u].ticket;
      s.(installs := s.installs + [ticket], cached := s.fetched[ticket].list, updates := s.updates[u := Finished])
  }

  predicate IsRun(s: State, actions: seq<Action>)
    decreases |actions|
  {
    actions == [] || (Enabled(s, actions[0]) && IsRun(Step(s, actions[0]), actions[1..]))
  }

  function Run(s: State, actions: seq<Action>): State
    requires IsRun(s, actions)
    decreases |actions|
  {
    if actions == [] then s else Run(Step(s, actions[0]), actions[1..])
  }

  /** One step more in front of a run. */
  lemma Preceded(s: State, a: Action, t: State, rest: seq<Action>) returns (actions: seq<Action>)
    requires Enabled(s, a) && Step(s, a) == t && IsRun(t, rest)
    ensures IsRun(s, actions) && Run(s, actions) == Run(t, rest)
  {
    hide Step, Enabled;
    actions := [a] + rest;
    assert actions[1..] == rest;
  }

  // ---- no change is lost ----

  ghost predicate SomeBegun(us: seq<Update>) {
    exists u :: 0 <= u < |us| && us[u].Begun?
  }

  /** While the session lives, the latest successful fetch is of the current version and its watch
      is set, or else an event is pending or an update has yet to fetch. */
  ghost predicate Watched(s: State) {
    && s.versions != []
    && (s.live && s.latest.Got? ==>
          || (s.armed && s.latest.fetch.version == |s.versions| - 1)
          || s.pending != []
          || SomeBegun(s.updates))
  }

  lemma WatchedKeeps(s: State, a: Action)
    requires Watched(s) && Enabled(s, a)
    ensures Watched(Step(s, a))
  {
    hide ListingOf;
    match a
    case Deliver => assert Step(s, a).updates[|s.updates|].Begun?;
    case Begin => assert Step(s, a).updates[|s.updates|].Begun?;
    case Install(u) =>
      if SomeBegun(s.updates) {
        var v :| 0 <= v < |s.updates| && s.updates[v].Begun?;
        assert Step(s, a).updates[v].Begun?;
      }
    case _ =>
  }

  // ---- what is fetched, held, installed and cached ----

  ghost predicate FetchFits(versions: seq<Node>, f: Fetch) {
    f.version < |versions| && versions[f.version].Present? && f.list == ListingOf(versions[f.version].names)
  }

  ghost predicate AllFit(versions: seq<Node>, fetched: seq<Fetch>) {
    forall t | 0 <= t < |fetched| :: FetchFits(versions, fetched[t]) && fetched[t].list != []
  }

  ghost predicate LatestFits(versions: seq<Node>, fetched: seq<Fetch>, latest: Latest) {
    latest.Got? ==>
      && FetchFits(versions, latest.fetch)
      && (latest.fetch.list != [] ==> fetched != [] && fetched[|fetched| - 1] == latest.fetch)
  }

  ghost predicate FetchesFit(s: State) {
    AllFit(s.versions, s.fetched) && LatestFits(s.versions, s.fetched, s.latest)
  }

  /** Every ticket held is one of a fetched list. */
  ghost predicate TicketsValid(s: State) {
    forall u | 0 <= u < |s.updates| && s.updates[u].Holding? :: s.updates[u].ticket < |s.fetched|
  }

  /** And every ticket has been installed or is held by an update. */
  ghost predicate TicketsKept(s: State) {
    TicketsValid(s) && forall t | 0 <= t < |s.fetched| :: t in s.installs || Holding(t) in s.updates
  }

  ghost predicate CacheFits(s: State) {
    && (forall i | 0 <= i < |s.installs| :: s.installs[i] < |s.fetched|)
    && s.cached == if s.installs == [] then [] else s.fetched[s.installs[|s.installs| - 1]].list
  }

  /** At most one watcher's update is under way, and at most one of the loop's. */
  ghost predicate ThreadsFit(s: State) {
    && |s.origins| == |s.updates|
    && (forall i | 0 <= i < |s.pending| :: !s.pending[i].RefreshLoop?)
    && forall u, v | 0 <= u < v < |s.updates| && !s.updates[u].Finished? && !s.updates[v].Finished? ::
         s.origins[u].RefreshLoop? != s.origins[v].RefreshLoop?
  }

  /** The list a connected event's update holds is the last one fetched: no other fetch gets the
      mutex before it is installed. */
  ghost predicate ConnectedIsLast(s: State) {
    forall u | 0 <= u < |s.updates| && u < |s.origins| && s.origins[u].ConnectedEvent? && s.updates[u].Holding? ::
      s.updates[u].ticket == |s.fetched| - 1
  }

  ghost predicate Inv(s: State) {
    Watched(s) && FetchesFit(s) && TicketsKept(s) && CacheFits(s) && ThreadsFit(s) && ConnectedIsLast(s)
  }

  lemma OneMoreFits(versions: seq<Node>, fetched: seq<Fetch>, f: Fetch)
    requires AllFit(versions, fetched) && FetchFits(versions, f)
    ensures f.list != [] ==> AllFit(versions, fetched + [f]) && LatestFits(versions, fetched + [f], Got(f))
    ensures f.list == [] ==> LatestFits(versions, fetched, Got(f))
  {
    hide FetchFits;
  }

  lemma AnswerKeepsFetches(s: State, u: nat, reply: seq<string>)
    requires FetchesFit(s) && Enabled(s, Answer(u, reply))
    ensures FetchesFit(Step(s, Answer(u, reply)))
  {
    var f := Fetch(|s.versions| - 1, ListingOf(reply));
    ListingIgnoresOrder(Current(s).names, reply);
    OneMoreFits(s.versions, s.fetched, f);
    hide FetchFits, AllFit, LatestFits, ListingOf;
    assert FetchesFit(Step(s, Answer(u, reply)));
  }

  lemma ChangeKeepsFetches(s: State, node: Node)
    requires FetchesFit(s) && Enabled(s, Change(node))
    ensures FetchesFit(Step(s, Change(node)))
  {
    var t := Step(s, Change(node));
    forall f | FetchFits(s.versions, f) ensures FetchFits(t.versions, f) {
      assert t.versions[f.version] == s.versions[f.version];
    }
    hide FetchFits;
    assert FetchesFit(t);
  }

  lemma FetchesKeep(s: State, a: Action)
    requires FetchesFit(s) && Enabled(s, a)
    ensures FetchesFit(Step(s, a))
  {
    match a
    case Answer(u, reply) => AnswerKeepsFetches(s, u, reply);
    case Change(node) => ChangeKeepsFetches(s, node);
    case _ => hide FetchFits, AllFit, LatestFits;
  }

  lemma TicketsKeep(s: State, a: Action)
    requires Inv(s) && Enabled(s, a)
    ensures TicketsKept(Step(s, a))
  {
    hide ListingOf, FetchesFit, CacheFits, Watched;
    var s' := Step(s, a);
    forall t | 0 <= t < |s'.fetched| ensures t in s'.installs || Holding(t) in s'.updates {
      if t < |s.fetched| && t !in s.installs {
        var u :| 0 <= u < |s.updates| && s.updates[u] == Holding(t);
        if a == Install(u) {
          assert s'.installs[|s.installs|] == t;
        } else {
          assert s'.updates[u] == Holding(t);
        }
      } else if t == |s.fetched| {
        assert s'.updates[a.u] == Holding(t);
      } else {
        var i :| 0 <= i < |s.installs| && s.installs[i] == t;
        assert s'.installs[i] == t;
      }
    }
  }

  lemma CacheKeeps(s: State, a: Action)
    requires CacheFits(s) && Enabled(s, a)
    ensures CacheFits(Step(s, a))
  {
    hide ListingOf;
  }

  lemma BeginKeepsThreads(s: State, a: Action)
    requires ThreadsFit(s) && Enabled(s, a) && (a.Begin? || a.Deliver?)
    ensures ThreadsFit(Step(s, a))
  {
    hide ListingOf;
    var t := Step(s, a);
    assert forall i | 0 <= i < |t.pending| :: t.pending[i] == if a.Deliver? then s.pending[i + 1] else s.pending[i];
  }

  lemma ThreadsKeep(s: State, a: Action)
    requires ThreadsFit(s) && Enabled(s, a)
    ensures ThreadsFit(Step(s, a))
  {
    hide ListingOf;
    match a
    case Begin => BeginKeepsThreads(s, a);
    case Deliver => BeginKeepsThreads(s, a);
    case _ =>
  }

  lemma ConnectedStaysLast(s: State, a: Action)
    requires ThreadsFit(s) && ConnectedIsLast(s) && Enabled(s, a)
    ensures ConnectedIsLast(Step(s, a))
  {
    hide ListingOf;
  }

  lemma StepKeeps(s: State, a: Action)
    requires Inv(s) && Enabled(s, a)
    ensures Inv(Step(s, a))
  {
    WatchedKeeps(s, a);
    FetchesKeep(s, a);
    TicketsKeep(s, a);
    CacheKeeps(s, a);
    ThreadsKeep(s, a);
    ConnectedStaysLast(s, a);
    hide ListingOf, Watched, FetchesFit, TicketsKept, CacheFits, ThreadsFit, ConnectedIsLast, Step, Enabled;
    assert Inv(Step(s, a));
  }

  lemma {:induction false} RunKeeps(s: State, actions: seq<Action>)
    requires Inv(s) && IsRun(s, actions)
    ensures Inv(Run(s, actions))
    decreases |actions|
  {
    hide Inv, Step, Enabled;
    if actions != [] {
      StepKeeps(s, actions[0]);
      RunKeeps(Step(s, actions[0]), actions[1..]);
    }
  }

  lemma Reachable(node: Node, actions: seq<Action>)
    requires IsRun(Initial(node), actions)
    ensures Inv(Run(Initial(node), actions))
  {
    RunKeeps(Initial(node), actions);
  }

  /** Without a session there is no event on its way and no watch set. */
  ghost predicate EventsHaveSession(s: State) {
    !s.live ==> s.pending == [] && !s.armed
  }

  /** The events of a closed session are dropped, and it leaves no watch. */
  lemma {:induction false} ClosedIsSilent(s: State, actions: seq<Action>)
    requires EventsHaveSession(s) && IsRun(s, actions)
    ensures EventsHaveSession(Run(s, actions))
    decreases |actions|
  {
    hide ListingOf;
    if actions != [] {
      ClosedIsSilent(Step(s, actions[0]), actions[1..]);
    }
  }

  /** The whole listing of one version of the node, with only addresses, sorted. */
  ghost predicate OneVersion(versions: seq<Node>, list: seq<string>) {
    && Presentable(list)
    && exists v :: 0 <= v < |versions| && versions[v].Present? && IsListing(list, versions[v].names)
  }

  lemma FetchIsOneVersion(versions: seq<Node>, f: Fetch)
    requires FetchFits(versions, f)
    ensures OneVersion(versions, f.list) && Presentable(f.list)
  {
    ListingPresentable(versions[f.version].names);
    ListingIsListing(versions[f.version].names);
    hide Presentable, IsListing, ListingOf;
    assert OneVersion(versions, f.list);
  }

  lemma NothingIsPresentable()
    ensures Presentable([])
  {
  }

  lemma CacheIsOneVersion(s: State)
    requires FetchesFit(s) && CacheFits(s)
    ensures s.cached == [] <==> s.installs == []
    ensures Presentable(s.cached)
    ensures s.cached != [] ==> OneVersion(s.versions, s.cached)
  {
    hide FetchFits, LatestFits, OneVersion, Presentable;
    NothingIsPresentable();
    if s.installs != [] {
      FetchIsOneVersion(s.versions, s.fetched[s.installs[|s.installs| - 1]]);
    }
  }

  /** Whatever overlaps: the cached list is empty exactly before the first install, and afterwards it
      is the listing of one version. */
  lemma CachedIsSomeListing(node: Node, actions: seq<Action>)
    requires IsRun(Initial(node), actions)
    ensures var s := Run(Initial(node), actions);
            && (s.cached == [] <==> s.installs == [])
            && Presentable(s.cached)
            && (s.cached != [] ==> OneVersion(s.versions, s.cached))
  {
    hide IsRun, Run, Watched, TicketsKept, FetchesFit, CacheFits, OneVersion, Presentable;
    Reachable(node, actions);
    CacheIsOneVersion(Run(Initial(node), actions));
  }

  /** A list once cached is never lost. */
  lemma {:induction false} NeverEmptyAgain(s: State, actions: seq<Action>)
    requires Inv(s) && s.cached != [] && IsRun(s, actions)
    ensures Run(s, actions).cached != []
    decreases |actions|
  {
    if actions != [] {
      StepKeeps(s, actions[0]);
      StaysNonEmpty(s, actions[0]);
      hide Inv, Step, Enabled;
      NeverEmptyAgain(Step(s, actions[0]), actions[1..]);
    }
  }

  lemma StaysNonEmpty(s: State, a: Action)
    requires Inv(s) && s.cached != [] && Enabled(s, a)
    ensures Step(s, a).cached != []
  {
    hide ListingOf, Watched, TicketsKept;
  }

  // ---- when the cached list is fresh ----

  /** A session lives, no event is pending, no update is under way, and the latest fetch worked. */
  ghost predicate Quiet(s: State) {
    s.live && s.pending == [] && s.latest.Got? && forall u | 0 <= u < |s.updates| :: s.updates[u].Finished?
  }

  /** The last non-empty list that was fetched. */
  function LastFetched(s: State): seq<string>
    requires s.fetched != []
  {
    s.fetched[|s.fetched| - 1].list
  }

  /** The latest install was of the latest non-empty fetch: no update has overtaken another. */
  predicate InOrder(s: State) {
    if s.installs == [] then s.fetched == [] else s.installs[|s.installs| - 1] == |s.fetched| - 1
  }

  lemma LatestIsCurrent(s: State)
    requires Inv(s) && Quiet(s)
    ensures s.versions != [] && Current(s).Present? && s.latest.fetch.list == ListingOf(Current(s).names)
    ensures s.latest.fetch.list != [] ==> s.fetched != [] && s.latest.fetch.list == LastFetched(s)
  {
    hide ListingOf, AllFit, CacheFits, TicketsKept;
    assert s.latest.fetch.version == |s.versions| - 1;
  }

  lemma InOrderCachesLast(s: State)
    requires Inv(s) && InOrder(s)
    ensures s.cached == if s.fetched == [] then [] else LastFetched(s)
  {
    hide Watched, FetchesFit, TicketsKept;
  }

  /** No membership change is lost: in a quiet state the latest fetch got the current children. If
      the installs kept the order of the fetches, then what is cached is their listing; or there is
      no address among them, and the last non-empty listing is kept. */
  lemma QuietIsFresh(node: Node, actions: seq<Action>)
    requires IsRun(Initial(node), actions) && Quiet(Run(Initial(node), actions))
    ensures var s := Run(Initial(node), actions);
            && s.versions != [] && Current(s).Present?
            && IsListing(s.latest.fetch.list, Current(s).names)
            && (InOrder(s) && ListingOf(Current(s).names) != [] ==> IsListing(s.cached, Current(s).names))
            && (InOrder(s) && ListingOf(Current(s).names) == [] ==>
                  s.cached == if s.fetched == [] then [] else LastFetched(s))
  {
    Reachable(node, actions);
    var s := Run(Initial(node), actions);
    LatestIsCurrent(s);
    ListingIsListing(Current(s).names);
    hide IsRun, Run, ListingOf, IsListing, Inv, InOrder;
    if InOrder(s) {
      InOrderCachesLast(s);
    }
  }

  // ---- updates that do not overlap ----

  /** A fetch happens only while no other update holds a list. */
  predicate Serial(s: State, a: Action) {
    a.Answer? ==> forall u | 0 <= u < |s.updates| :: !s.updates[u].Holding?
  }

  predicate IsSerialRun(s: State, actions: seq<Action>)
    requires IsRun(s, actions)
    decreases |actions|
  {
    actions == [] || (Serial(s, actions[0]) && IsSerialRun(Step(s, actions[0]), actions[1..]))
  }

  /** The tickets have been installed in order, all but at most the last, which one update holds. */
  ghost predicate Ordered(s: State) {
    && (InOrder(s) || forall t | Holding(t) in s.updates :: t == |s.fetched| - 1)
    && (InOrder(s) ==> forall u | 0 <= u < |s.updates| :: !s.updates[u].Holding?)
    && (!InOrder(s) ==> exists u :: 0 <= u < |s.updates| && s.updates[u].Holding?)
    && (forall u, v | 0 <= u < v < |s.updates| :: !(s.updates[u].Holding? && s.updates[v].Holding?))
  }

  lemma AnswerKeepsOrder(s: State, a: Action)
    requires Ordered(s) && Enabled(s, a) && Serial(s, a) && a.Answer?
    ensures Ordered(Step(s, a))
  {
    hide ListingOf;
    var s' := Step(s, a);
    assert InOrder(s);
    assert s'.updates[a.u].Finished? || s'.updates[a.u] == Holding(|s.fetched|);
    assert Ordered(s');
  }

  lemma InstallKeepsOrder(s: State, u: nat)
    requires Ordered(s) && Enabled(s, Install(u))
    ensures Ordered(Step(s, Install(u)))
  {
    hide ListingOf;
    assert s.updates[u] == Holding(s.updates[u].ticket);
    assert Ordered(Step(s, Install(u)));
  }

  lemma OthersKeepOrder(s: State, a: Action)
    requires Ordered(s) && Enabled(s, a) && !a.Answer? && !a.Install?
    ensures Ordered(Step(s, a))
  {
    hide ListingOf;
    var s' := Step(s, a);
    if !InOrder(s) {
      var u :| 0 <= u < |s.updates| && s.updates[u].Holding?;
      assert s'.updates[u].Holding?;
    }
    assert Ordered(s');
  }

  lemma OrderedKeeps(s: State, a: Action)
    requires Ordered(s) && Enabled(s, a) && Serial(s, a)
    ensures Ordered(Step(s, a))
  {
    hide Ordered, Step, Serial;
    match a
    case Answer(_, _) => AnswerKeepsOrder(s, a);
    case Install(u) => InstallKeepsOrder(s, u);
    case _ => OthersKeepOrder(s, a);
  }

  lemma {:induction false} SerialRunOrdered(s: State, actions: seq<Action>)
    requires Ordered(s) && IsRun(s, actions) && IsSerialRun(s, actions)
    ensures Ordered(Run(s, actions))
    decreases |actions|
  {
    hide Ordered, Step, Enabled, Serial;
    if actions != [] {
      OrderedKeeps(s, actions[0]);
      SerialRunOrdered(Step(s, actions[0]), actions[1..]);
    }
  }

  /** With updates that do not overlap, a quiet state's cached list is the listing of the current
      children; or there is no address among them, and the last non-empty listing is kept. */
  lemma SerialIsFresh(node: Node, actions: seq<Action>)
    requires IsRun(Initial(node), actions) && IsSerialRun(Initial(node), actions)
    requires Quiet(Run(Initial(node), actions))
    ensures var s := Run(Initial(node), actions);
            && s.versions != [] && Current(s).Present?
            && (ListingOf(Current(s).names) != [] ==> IsListing(s.cached, Current(s).names))
            && (ListingOf(Current(s).names) == [] ==>
                  s.cached == if s.fetched == [] then [] else LastFetched(s))
  {
    QuietIsFresh(node, actions);
    SerialRunOrdered(Initial(node), actions);
    Reachable(node, actions);
    var s := Run(Initial(node), actions);
    hide IsRun, IsSerialRun, Run, ListingOf, IsListing;
    ListingExact(Current(s).names, s.latest.fetch.list);
    assert InOrder(s);
  }

  // ---- the refresh loop makes the difference ----

  /** The refresh loop begins no update. */
  predicate NoLoop(actions: seq<Action>) {
    forall i | 0 <= i < |actions| :: !actions[i].Begin?
  }

  ghost predicate NoLoopUpdate(s: State) {
    forall u | 0 <= u < |s.origins| :: !s.origins[u].RefreshLoop?
  }

  lemma WatchersAreSerial(s: State, a: Action)
    requires ThreadsFit(s) && NoLoopUpdate(s) && Enabled(s, a) && !a.Begin?
    ensures Serial(s, a) && NoLoopUpdate(Step(s, a))
  {
    hide ListingOf;
  }

  lemma {:induction false} NoLoopIsSerial(s: State, actions: seq<Action>)
    requires Inv(s) && NoLoopUpdate(s) && IsRun(s, actions) && NoLoop(actions)
    ensures IsSerialRun(s, actions)
    decreases |actions|
  {
    if actions != [] {
      var a, rest := actions[0], actions[1..];
      WatchersAreSerial(s, a);
      StepKeeps(s, a);
      forall i | 0 <= i < |rest| ensures !rest[i].Begin? {
        assert rest[i] == actions[i + 1];
      }
      assert NoLoop(rest);
      hide Inv, NoLoopUpdate, Serial, Step, Enabled, NoLoop;
      NoLoopIsSerial(Step(s, a), rest);
    }
  }

  /** The watchers alone never overlap: if the refresh loop begins no update, a quiet state's cached
      list is the listing of the current children; or there is no address among them, and the last
      non-empty listing is kept. */
  lemma WatchersAloneAreFresh(node: Node, actions: seq<Action>)
    requires IsRun(Initial(node), actions) && NoLoop(actions) && Quiet(Run(Initial(node), actions))
    ensures var s := Run(Initial(node), actions);
            && s.versions != [] && Current(s).Present?
            && (ListingOf(Current(s).names) != [] ==> IsListing(s.cached, Current(s).names))
            && (ListingOf(Current(s).names) == [] ==>
                  s.cached == if s.fetched == [] then [] else LastFetched(s))
  {
    InitialFits(node);
    hide IsRun, IsSerialRun, Run, ListingOf, IsListing, Inv, Initial, NoLoop, Quiet;
    NoLoopIsSerial(Initial(node), actions);
    SerialIsFresh(node, actions);
  }

  lemma InitialFits(node: Node)
    ensures Inv(Initial(node)) && NoLoopUpdate(Initial(node))
  {
  }

  /** A connected event's update is never overtaken: as long as it holds its list, that is the last one
      fetched. */
  lemma ConnectedNeverOvertaken(node: Node, actions: seq<Action>)
    requires IsRun(Initial(node), actions)
    ensures ConnectedIsLast(Run(Initial(node), actions)) && ThreadsFit(Run(Initial(node), actions))
  {
    Reachable(node, actions);
    hide IsRun, Run, ConnectedIsLast, ThreadsFit, Watched, FetchesFit, TicketsKept, CacheFits;
  }

  // ---- updates that overlap: what the installs still to come can do ----

  /** Nothing is left to happen but installs: a session lives, no event is pending, every update has
      fetched, the latest fetch worked, and some list has been fetched. */
  ghost predicate Settling(s: State) {
    && s.live && s.pending == [] && s.latest.Got? && s.fetched != []
    && forall u | 0 <= u < |s.updates| :: !s.updates[u].Begun?
  }

  predicate OnlyInstalls(actions: seq<Action>) {
    forall i | 0 <= i < |actions| :: actions[i].Install?
  }

  /** A completion: the updates install what they hold, in some order, until all is quiet. */
  ghost predicate Completes(s: State, actions: seq<Action>): (completes: bool)
    ensures completes ==> IsRun(s, actions)
  {
    OnlyInstalls(actions) && IsRun(s, actions) && Quiet(Run(s, actions))
  }

  /** Some update holds this list. */
  ghost predicate Holds(s: State, list: seq<string>) {
    exists t: nat :: t < |s.fetched| && Holding(t) in s.updates && s.fetched[t].list == list
  }

  ghost predicate NoneHolds(s: State) {
    forall u | 0 <= u < |s.updates| :: !s.updates[u].Holding?
  }

  lemma InstallKeepsRest(s: State, u: nat)
    requires Enabled(s, Install(u))
    ensures var s' := Step(s, Install(u));
            && s'.fetched == s.fetched && s'.latest == s.latest && s'.versions == s.versions
            && Holds(s, s'.cached)
            && (forall list | Holds(s', list) :: Holds(s, list))
            && (Settling(s) ==> Settling(s'))
  {
    var s' := Step(s, Install(u));
    assert s.updates[u] == Holding(s.updates[u].ticket);
    forall t: nat | Holding(t) in s'.updates ensures Holding(t) in s.updates {
      var v :| 0 <= v < |s'.updates| && s'.updates[v] == Holding(t);
      assert s.updates[v] == Holding(t);
    }
  }

  /** A completion caches a list that some update held, or installs nothing. */
  lemma {:induction false} CompletionCachesHeld(s: State, actions: seq<Action>)
    requires IsRun(s, actions) && OnlyInstalls(actions)
    ensures Run(s, actions).fetched == s.fetched && Run(s, actions).versions == s.versions
    ensures actions == [] || Holds(s, Run(s, actions).cached)
    decreases |actions|
  {
    if actions != [] {
      var u := actions[0].u;
      InstallKeepsRest(s, u);
      forall i | 0 <= i < |actions[1..]| ensures actions[1..][i].Install? {
        assert actions[1..][i] == actions[i + 1];
      }
      assert OnlyInstalls(actions[1..]);
      hide Step, Enabled, Holds, OnlyInstalls, Settling;
      CompletionCachesHeld(Step(s, Install(u)), actions[1..]);
    }
  }

  lemma {:induction false} InstallsEndWith(s: State, keep: nat, i: nat) returns (actions: seq<Action>)
    requires s.versions != [] && Settling(s) && TicketsValid(s)
    requires keep < |s.updates| && s.updates[keep].Holding? && i <= |s.updates|
    requires forall u | 0 <= u < i && u != keep :: !s.updates[u].Holding?
    ensures Completes(s, actions) && Run(s, actions).cached == s.fetched[s.updates[keep].ticket].list
    decreases |s.updates| - i
  {
    if i == |s.updates| {
      InstallKeepsRest(s, keep);
      actions := [Install(keep)];
      assert actions[1..] == [];
      assert Run(s, actions) == Run(Step(s, Install(keep)), actions[1..]);
    } else if i == keep || !s.updates[i].Holding? {
      actions := InstallsEndWith(s, keep, i + 1);
    } else {
      InstallKeepsRest(s, i);
      var s' := Step(s, Install(i));
      assert TicketsValid(s') && s'.updates[keep] == s.updates[keep];
      var rest := InstallsEndWith(s', keep, i + 1);
      actions := [Install(i)] + rest;
      assert actions[1..] == rest;
    }
  }

  /** Some update holds a list other than the last one fetched, or none holds any and another one is
      cached already. */
  ghost predicate Endangered(s: State)
    requires s.fetched != []
  {
    (exists list :: Holds(s, list) && list != LastFetched(s)) || (NoneHolds(s) && s.cached != LastFetched(s))
  }

  lemma StaleIsEndangered(s: State, actions: seq<Action>)
    requires Settling(s) && Completes(s, actions) && Run(s, actions).cached != LastFetched(s)
    ensures Endangered(s)
  {
    CompletionCachesHeld(s, actions);
    if actions == [] {
      assert Run(s, actions) == s;
      assert NoneHolds(s);
    }
  }

  lemma EndangeredGoesStale(s: State) returns (actions: seq<Action>)
    requires Inv(s) && Settling(s) && Endangered(s)
    ensures Completes(s, actions) && Run(s, actions).cached != LastFetched(s)
  {
    if list :| Holds(s, list) && list != LastFetched(s) {
      var t: nat :| t < |s.fetched| && Holding(t) in s.updates && s.fetched[t].list == list;
      var keep :| 0 <= keep < |s.updates| && s.updates[keep] == Holding(t);
      actions := InstallsEndWith(s, keep, 0);
    } else {
      actions := [];
      assert Completes(s, []) && Run(s, []) == s;
    }
  }

  /** The exact danger of overlapping, seen before the installs: some completion leaves another list
      cached than the last one fetched exactly if some update still holds another list, or none holds
      any and another one is cached already. */
  lemma StaleIffHeld(s: State)
    requires Inv(s) && Settling(s)
    ensures (exists actions :: Completes(s, actions) && Run(s, actions).cached != LastFetched(s)) <==> Endangered(s)
  {
    hide Inv, Completes, IsRun, Run, Endangered, LastFetched;
    if Endangered(s) {
      var actions := EndangeredGoesStale(s);
    }
    forall actions | Completes(s, actions) && Run(s, actions).cached != LastFetched(s) ensures Endangered(s) {
      StaleIsEndangered(s, actions);
    }
  }

  /** What that means for the reader of the cache: when there are addresses among the current
      children, some completion leaves another list than their listing cached exactly then. */
  lemma StaleListingIffHeld(s: State)
    requires Inv(s) && Settling(s) && s.latest.fetch.list != []
    ensures s.versions != [] && Current(s).Present?
    ensures (exists actions :: Completes(s, actions) && !IsListing(Run(s, actions).cached, Current(s).names))
            <==> || (exists list :: Holds(s, list) && !IsListing(list, Current(s).names))
                 || (NoneHolds(s) && !IsListing(s.cached, Current(s).names))
  {
    assert s.latest.fetch.version == |s.versions| - 1;
    forall list ensures IsListing(list, Current(s).names) <==> list == LastFetched(s) {
      ListingExact(Current(s).names, list);
    }
    hide Inv, Settling, Completes, Run, IsRun, Holds, NoneHolds, IsListing, LastFetched;
    StaleIffHeld(s);
  }

  // ---- updates that overlap: one such run ----

  /** The connected event's update has installed the list of the first version. */
  function FirstInstalled(a: seq<string>): State {
    var f := Fetch(0, ListingOf(a));
    State([Present(a)], true, true, [], [Finished], [ConnectedEvent], [f], Got(f), [0], ListingOf(a))
  }

  /** The loop's update holds the list of the first version, and the node has changed since: the child
      watch has fired. The connected event's update is over. */
  function LoopHolds(a: seq<string>, b: seq<string>): State {
    var f := Fetch(0, ListingOf(a));
    State([Present(a), Present(b)], true, false, [ChildEvent], [Finished, Holding(1)], [ConnectedEvent, RefreshLoop],
          [f, f], Got(f), [0], ListingOf(a))
  }

  function Overtaken(a: seq<string>, b: seq<string>): State {
    var f, g := Fetch(0, ListingOf(a)), Fetch(1, ListingOf(b));
    State([Present(a), Present(b)], true, true, [], [Finished, Finished, Finished],
          [ConnectedEvent, RefreshLoop, ChildEvent], [f, f, g], Got(g), [0, 2, 1], ListingOf(a))
  }

  lemma FirstGetsInstalled(a: seq<string>, rest: seq<Action>) returns (actions: seq<Action>)
    requires ListingOf(a) != [] && IsRun(FirstInstalled(a), rest)
    ensures IsRun(Initial(Present(a)), actions) && Run(Initial(Present(a)), actions) == Run(FirstInstalled(a), rest)
  {
    hide ListingOf, IsRun, Run;
    var s0 := Initial(Present(a));
    var s1 := Step(s0, Open);
    var s2 := Step(s1, Deliver);
    var s3 := Step(s2, Answer(0, a));
    assert Step(s3, Install(0)) == FirstInstalled(a);
    actions := Preceded(s3, Install(0), FirstInstalled(a), rest);
    actions := Preceded(s2, Answer(0, a), s3, actions);
    actions := Preceded(s1, Deliver, s2, actions);
    actions := Preceded(s0, Open, s1, actions);
  }

  lemma LoopGetsUnderWay(a: seq<string>, b: seq<string>, rest: seq<Action>) returns (actions: seq<Action>)
    requires ListingOf(a) != [] && IsRun(LoopHolds(a, b), rest)
    ensures IsRun(FirstInstalled(a), actions) && Run(FirstInstalled(a), actions) == Run(LoopHolds(a, b), rest)
  {
    hide ListingOf, IsRun, Run;
    var s0 := FirstInstalled(a);
    var s1 := Step(s0, Begin);
    var s2 := Step(s1, Answer(1, a));
    assert Step(s2, Change(Present(b))) == LoopHolds(a, b);
    actions := Preceded(s2, Change(Present(b)), LoopHolds(a, b), rest);
    actions := Preceded(s1, Answer(1, a), s2, actions);
    actions := Preceded(s0, Begin, s1, actions);
  }

  lemma WatcherOvertakes(a: seq<string>, b: seq<string>) returns (actions: seq<Action>)
    requires ListingOf(b) != []
    ensures IsRun(LoopHolds(a, b), actions) && Run(LoopHolds(a, b), actions) == Overtaken(a, b)
  {
    hide ListingOf;
    var s0 := LoopHolds(a, b);
    var s1 := Step(s0, Deliver);
    var s2 := Step(s1, Answer(2, b));
    var s3 := Step(s2, Install(2));
    assert Step(s3, Install(1)) == Overtaken(a, b);
    actions := Preceded(s3, Install(1), Overtaken(a, b), []);
    actions := Preceded(s2, Install(2), s3, actions);
    actions := Preceded(s1, Answer(2, b), s2, actions);
    actions := Preceded(s0, Deliver, s1, actions);
  }

  /** Between its fetch and its install the loop's update can be overtaken by the child watcher's:
      whatever the two children lists, everything can come to rest with the older list cached. */
  lemma OverlapIsStale(a: seq<string>, b: seq<string>)
    requires ListingOf(a) != [] && ListingOf(b) != [] && ListingOf(a) != ListingOf(b)
    ensures exists actions ::
              && IsRun(Initial(Present(a)), actions)
              && var s := Run(Initial(Present(a)), actions);
                 && Quiet(s) && s.versions == [Present(a), Present(b)]
                 && s.cached == ListingOf(a) && !IsListing(s.cached, b)
  {
    var actions := WatcherOvertakes(a, b);
    actions := LoopGetsUnderWay(a, b, actions);
    actions := FirstGetsInstalled(a, actions);
    ListingExact(b, ListingOf(a));
    hide ListingOf, IsListing;
    assert Quiet(Overtaken(a, b));
    assert IsRun(Initial(Present(a)), actions);
  }
}
