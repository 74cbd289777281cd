/** The life of an HTTP transfer in the multi-handle: created, added, finished by the library,
    removed, called back and deleted. B is what a reply carries. */
module Transfers {

  /** How far a live handle has come: not with the library, being transferred, finished and waiting
      in the library's message queue, or removed and waiting for its callback. */
  datatype Phase = Idle | Running | Finished | Detached

  datatype Handle = Handle(url: string, recycled: bool, hasCallback: bool, phase: Phase)

  datatype Message<B> = Message(id: nat, httpCode: int, body: B)

  datatype Event = Created(recycled: bool, hasCallback: bool) | Added | Removed | Called | Deleted

  datatype Logged = Logged(id: nat, event: Event)

  /** A callback's invocation: the URL of its handle and the message it reads. */
  datatype Call<B> = Call(url: string, m: Message<B>)

  /** `urls` are the URLs of all handles ever created, by id, so ids are never reused; `live`
      holds the handles that still exist. `queue` are the library's messages. `removed` are the
      messages whose handles have been removed but not yet called back: removing a handle can fire
      the timer, which drains further messages first, so this is a stack, its top last. `calls` are
      the callbacks made and `trace` is everything done to handles, both in order. */
  datatype State<B> = State(
    urls: seq<string>,
    live: map<nat, Handle>,
    queue: seq<Message<B>>,
    removed: seq<Message<B>>,
    calls: seq<Call<B>>,
    trace: seq<Logged>
  )

  function Initial<B>(): State<B> {
    State([], map[], [], [], [], [])
  }

  // ---- the operations ----

  /** MultiCURL::create. */
  function AfterCreate<B>(s: State<B>, url: string, recycled: bool, hasCallback: bool): State<B> {
    s.(urls := s.urls + [url],
       live := s.live[|s.urls| := Handle(url, recycled, hasCallback, Idle)],
       trace := s.trace + [Logged(|s.urls|, Created(recycled, hasCallback))])
  }

  /** MultiCURL::add: the library refuses a handle that is already added, and may refuse any other;
      a refused handle stays as it is. */
  function AfterAdd<B>(s: State<B>, id: nat, accepted: bool): State<B>
    requires id in s.live
  {
    if accepted && s.live[id].phase.Idle? then
      s.(live := s.live[id := s.live[id].(phase := Running)],
         trace := s.trace + [Logged(id, Added)])
    else s
  }

  /** The library finishes a running transfer and queues its message. */
  function AfterFinish<B>(s: State<B>, m: Message<B>): State<B>
    requires m.id in s.live && s.live[m.id].phase.Running?
  {
    s.(live := s.live[m.id := s.live[m.id].(phase := Finished)], queue := s.queue + [m])
  }

  /** The first half of an iteration of check_multi_info: read a message and remove its handle. */
  function AfterRemove<B>(s: State<B>): State<B>
    requires s.queue != [] && s.queue[0].id in s.live
  {
    var m := s.queue[0];
    s.(live := s.live[m.id := s.live[m.id].(phase := Detached)],
       queue := s.queue[1..],
       removed := s.removed + [m],
       trace := s.trace + [Logged(m.id, Removed)])
  }

  /** What the second half does to the handle. */
  function Epilogue(id: nat, h: Handle): seq<Logged> {
    (if h.hasCallback then [Logged(id, Called)] else []) + (if h.recycled then [] else [Logged(id, Deleted)])
  }

  /** The handles after the callback of one of them: a recycled one can be added again, another one
      is gone. */
  function Released(live: map<nat, Handle>, done: nat): map<nat, Handle>
    requires done in live
  {
    if live[done].recycled then live[done := live[done].(phase := Idle)]
    else map id | id in live && id != done :: live[id]
  }

  function Top<B>(s: State<B>): Message<B>
    requires s.removed != []
  {
    s.removed[|s.removed| - 1]
  }

  /** The second half: call back, and delete the handle unless it is recycled. */
  function AfterCall<B>(s: State<B>): State<B>
    requires s.removed != [] && Top(s).id in s.live
  {
    var m := Top(s);
    var h := s.live[m.id];
    s.(live := Released(s.live, m.id),
       removed := s.removed[..|s.removed| - 1],
       calls := if h.hasCallback then s.calls + [Call(h.url, m)] else s.calls,
       trace := s.trace + Epilogue(m.id, h))
  }

  // ---- runs ----

  datatype Action<B> =
    | DoCreate(url: string, recycled: bool, hasCallback: bool)
    | DoAdd(id: nat, accepted: bool)
    | DoFinish(m: Message<B>)
    | DoRemove
    | DoCall

  /** The caller adds only handles that exist and do not wait for their callback; the library
      finishes only running transfers. */
  predicate Enabled<B>(s: State<B>, a: Action<B>) {
    match a
    case DoCreate(_, _, _) => true
    case DoAdd(id, _) => id in s.live && !s.live[id].phase.Detached?
    case DoFinish(m) => m.id in s.live && s.live[m.id].phase.Running?
    case DoRemove => s.queue != [] && s.queue[0].id in s.live
    case DoCall => s.removed != [] && Top(s).id in s.live
  }

  function Step<B>(s: State<B>, a: Action<B>): State<B>
    requires Enabled(s, a)
  {
    match a
    case DoCreate(url, recycled, hasCallback) => AfterCreate(s, url, recycled, hasCallback)
    case DoAdd(id, accepted) => AfterAdd(s, id, accepted)
    case DoFinish(m) => AfterFinish(s, m)
    case DoRemove => AfterRemove(s)
    case DoCall => AfterCall(s)
  }

  predicate IsRun<B>(s: State<B>, actions: seq<Action<B>>)
    decreases |actions|
  {
    actions == [] || (Enabled(s, actions[0]) && IsRun(Step(s, actions[0]), actions[1..]))
  }

  function Run<B>(s: State<B>, actions: seq<Action<B>>): State<B>
    requires IsRun(s, actions)
    decreases |actions|
  {
    if actions == [] then s else Run(Step(s, actions[0]), actions[1..])
  }

  /** One step more behind a run. */
  lemma {:induction false} Followed<B>(s: State<B>, actions: seq<Action<B>>, a: Action<B>)
    requires IsRun(s, actions) && Enabled(Run(s, actions), a)
    ensures IsRun(s, actions + [a]) && Run(s, actions + [a]) == Step(Run(s, actions), a)
    decreases |actions|
  {
    hide Enabled, Step;
    if actions == [] {
      assert actions + [a] == [a];
      assert [a][1..] == [];
    } else {
      Followed(Step(s, actions[0]), actions[1..], a);
      assert (actions + [a])[1..] == actions[1..] + [a];
    }
  }

  // ---- the invariant ----

  /** The events of one handle. */
  function History(trace: seq<Logged>, id: nat): seq<Event> {
    if trace == [] then []
    else
      var last := trace[|trace| - 1];
      History(trace[..|trace| - 1], id) + if last.id == id then [last.event] else []
  }

  /** One completed transfer in a handle's history. */
  function Round(hasCallback: bool): seq<Event> {
    [Added, Removed] + if hasCallback then [Called] else []
  }

  function Rounds(n: nat, hasCallback: bool): seq<Event> {
    if n == 0 then [] else Rounds(n - 1, hasCallback) + Round(hasCallback)
  }

  /** What the transfer under way has added to the history. */
  function Ongoing(phase: Phase): seq<Event> {
    match phase
    case Idle => []
    case Running => [Added]
    case Finished => [Added]
    case Detached => [Added, Removed]
  }

  /** The history of a live handle: for a recycled one any number of completed transfers, for a
      one-shot handle none; then the transfer under way. */
  ghost predicate LiveHistory(h: Handle, history: seq<Event>) {
    exists n: nat ::
      && (h.recycled || n == 0)
      && history == [Created(h.recycled, h.hasCallback)] + Rounds(n, h.hasCallback) + Ongoing(h.phase)
  }

  /** The whole life of a one-shot handle: one transfer, the callback after the removal, the
      deletion last and once. */
  function WholeLife(hasCallback: bool): seq<Event> {
    [Created(false, hasCallback)] + Round(hasCallback) + [Deleted]
  }

  ghost predicate DeadHistory(history: seq<Event>) {
    history == WholeLife(true) || history == WholeLife(false)
  }

  ghost predicate InPhase(live: map<nat, Handle>, id: nat, phase: Phase) {
    id in live && live[id].phase == phase
  }

  /** The messages are those of exactly the handles in this phase, one each. */
  ghost predicate Tracks<B>(live: map<nat, Handle>, ms: seq<Message<B>>, phase: Phase) {
    && (forall i | 0 <= i < |ms| :: InPhase(live, ms[i].id, phase))
    && (forall i, j | 0 <= i < j < |ms| :: ms[i].id != ms[j].id)
    && (forall id: nat | InPhase(live, id, phase) :: exists i :: 0 <= i < |ms| && ms[i].id == id)
  }

  ghost predicate Tracked<B>(s: State<B>) {
    Tracks(s.live, s.queue, Finished) && Tracks(s.live, s.removed, Detached)
  }

  ghost predicate Below<B>(s: State<B>) {
    forall id | id in s.live :: id < |s.urls|
  }

  ghost predicate Fresh<B>(s: State<B>) {
    && Below(s)
    && (forall i | 0 <= i < |s.trace| :: s.trace[i].id < |s.urls|)
  }

  /** The history of one handle, alive or not. */
  ghost predicate Lived(live: map<nat, Handle>, id: nat, history: seq<Event>) {
    if id in live then LiveHistory(live[id], history) else DeadHistory(history)
  }

  ghost predicate Lives<B>(s: State<B>) {
    forall id: nat | id < |s.urls| :: Lived(s.live, id, History(s.trace, id))
  }

  ghost predicate Inv<B>(s: State<B>) {
    Fresh(s) && Tracked(s) && Lives(s)
  }

  // ---- every operation keeps the queue and the stack in order ----

  /** The two hold the same handles except perhaps this one. */
  ghost predicate SameBut(live: map<nat, Handle>, live': map<nat, Handle>, id: nat) {
    forall other: nat | other != id ::
      (other in live <==> other in live') && (other in live ==> live[other] == live'[other])
  }

  lemma TracksElsewhere<B>(live: map<nat, Handle>, live': map<nat, Handle>, ms: seq<Message<B>>, phase: Phase, id: nat)
    requires Tracks(live, ms, phase) && SameBut(live, live', id)
    requires !InPhase(live, id, phase) && !InPhase(live', id, phase)
    ensures Tracks(live', ms, phase)
  {
    forall other: nat ensures InPhase(live, other, phase) <==> InPhase(live', other, phase) {
    }
  }

  lemma TracksPush<B>(live: map<nat, Handle>, live': map<nat, Handle>, ms: seq<Message<B>>, phase: Phase, m: Message<B>)
    requires Tracks(live, ms, phase) && SameBut(live, live', m.id)
    requires !InPhase(live, m.id, phase) && InPhase(live', m.id, phase)
    ensures Tracks(live', ms + [m], phase)
  {
    var more := ms + [m];
    forall id: nat | InPhase(live', id, phase) ensures exists i :: 0 <= i < |more| && more[i].id == id {
      if id == m.id {
        assert more[|ms|].id == id;
      } else {
        assert InPhase(live, id, phase);
        var i :| 0 <= i < |ms| && ms[i].id == id;
        assert more[i].id == id;
      }
    }
  }

  lemma TracksFirst<B>(live: map<nat, Handle>, live': map<nat, Handle>, ms: seq<Message<B>>, phase: Phase)
    requires Tracks(live, ms, phase) && ms != [] && SameBut(live, live', ms[0].id) && !InPhase(live', ms[0].id, phase)
    ensures Tracks(live', ms[1..], phase)
  {
    forall id: nat | InPhase(live', id, phase) ensures exists i :: 0 <= i < |ms[1..]| && ms[1..][i].id == id {
      assert InPhase(live, id, phase);
      var i :| 0 <= i < |ms| && ms[i].id == id;
      assert ms[1..][i - 1].id == id;
    }
  }

  lemma TracksLast<B>(live: map<nat, Handle>, live': map<nat, Handle>, ms: seq<Message<B>>, phase: Phase)
    requires Tracks(live, ms, phase) && ms != []
    requires SameBut(live, live', ms[|ms| - 1].id) && !InPhase(live', ms[|ms| - 1].id, phase)
    ensures Tracks(live', ms[..|ms| - 1], phase)
  {
    var fewer := ms[..|ms| - 1];
    forall id: nat | InPhase(live', id, phase) ensures exists i :: 0 <= i < |fewer| && fewer[i].id == id {
      assert InPhase(live, id, phase);
      var i :| 0 <= i < |ms| && ms[i].id == id;
      assert fewer[i].id == id;
    }
  }

  lemma CreateTracks<B>(s: State<B>, url: string, recycled: bool, hasCallback: bool)
    requires Below(s) && Tracked(s)
    ensures Tracked(AfterCreate(s, url, recycled, hasCallback))
  {
    var t := AfterCreate(s, url, recycled, hasCallback);
    hide Tracks;
    TracksElsewhere(s.live, t.live, s.queue, Finished, |s.urls|);
    TracksElsewhere(s.live, t.live, s.removed, Detached, |s.urls|);
  }

  lemma AddTracks<B>(s: State<B>, id: nat, accepted: bool)
    requires Tracked(s) && id in s.live
    ensures Tracked(AfterAdd(s, id, accepted))
  {
    var t := AfterAdd(s, id, accepted);
    hide Tracks;
    if t != s {
      TracksElsewhere(s.live, t.live, s.queue, Finished, id);
      TracksElsewhere(s.live, t.live, s.removed, Detached, id);
    }
  }

  lemma FinishTracks<B>(s: State<B>, m: Message<B>)
    requires Tracked(s) && m.id in s.live && s.live[m.id].phase.Running?
    ensures Tracked(AfterFinish(s, m))
  {
    var t := AfterFinish(s, m);
    hide Tracks;
    TracksPush(s.live, t.live, s.queue, Finished, m);
    TracksElsewhere(s.live, t.live, s.removed, Detached, m.id);
  }

  /** The first message's handle is live and finished, the top of the stack's is live and removed. */
  lemma TrackedPhases<B>(s: State<B>)
    requires Tracked(s)
    ensures s.queue != [] ==> InPhase(s.live, s.queue[0].id, Finished)
    ensures s.removed != [] ==> InPhase(s.live, Top(s).id, Detached)
  {
  }

  lemma RemoveTracks<B>(s: State<B>)
    requires Tracked(s) && s.queue != []
    ensures s.queue[0].id in s.live && Tracked(AfterRemove(s))
  {
    TrackedPhases(s);
    var t, m := AfterRemove(s), s.queue[0];
    hide Tracks;
    TracksFirst(s.live, t.live, s.queue, Finished);
    TracksPush(s.live, t.live, s.removed, Detached, m);
  }

  lemma CallTracks<B>(s: State<B>)
    requires Tracked(s) && s.removed != []
    ensures Top(s).id in s.live && Tracked(AfterCall(s))
  {
    TrackedPhases(s);
    var t := AfterCall(s);
    hide Tracks;
    TracksElsewhere(s.live, t.live, s.queue, Finished, Top(s).id);
    TracksLast(s.live, t.live, s.removed, Detached);
  }

  // ---- every operation keeps the histories in shape ----

  lemma {:induction false} HistoryOfOthers(trace: seq<Logged>, id: nat)
    requires forall i | 0 <= i < |trace| :: trace[i].id != id
    ensures History(trace, id) == []
  {
    if trace != [] {
      HistoryOfOthers(trace[..|trace| - 1], id);
    }
  }

  lemma HistoryPush(trace: seq<Logged>, e: Logged, id: nat)
    ensures History(trace + [e], id) == History(trace, id) + if e.id == id then [e.event] else []
  {
    assert (trace + [e])[..|trace|] == trace;
  }

  lemma NewHistory(h: Handle)
    requires h.phase.Idle?
    ensures LiveHistory(h, [Created(h.recycled, h.hasCallback)])
  {
    assert [Created(h.recycled, h.hasCallback)] == [Created(h.recycled, h.hasCallback)] + Rounds(0, h.hasCallback) + [];
  }

  lemma CreateLives<B>(s: State<B>, url: string, recycled: bool, hasCallback: bool, id: nat)
    requires Fresh(s) && Lives(s) && id <= |s.urls|
    ensures var t := AfterCreate(s, url, recycled, hasCallback); Lived(t.live, id, History(t.trace, id))
  {
    HistoryPush(s.trace, Logged(|s.urls|, Created(recycled, hasCallback)), id);
    if id == |s.urls| {
      HistoryOfOthers(s.trace, id);
      NewHistory(Handle(url, recycled, hasCallback, Idle));
    }
    hide History, LiveHistory, DeadHistory;
  }

  /** A step of the transfer under way. */
  lemma OngoingHistory(h: Handle, history: seq<Event>, phase: Phase, e: Event)
    requires LiveHistory(h, history) && Ongoing(phase) == Ongoing(h.phase) + [e]
    ensures LiveHistory(h.(phase := phase), history + [e])
  {
    var c := [Created(h.recycled, h.hasCallback)];
    var n: nat :| (h.recycled || n == 0) && history == c + Rounds(n, h.hasCallback) + Ongoing(h.phase);
    assert history + [e] == c + Rounds(n, h.hasCallback) + Ongoing(phase);
  }

  lemma AddLives<B>(s: State<B>, id: nat, accepted: bool, other: nat)
    requires Lives(s) && id in s.live && other < |s.urls|
    ensures var t := AfterAdd(s, id, accepted); Lived(t.live, other, History(t.trace, other))
  {
    HistoryPush(s.trace, Logged(id, Added), other);
    if s.live[id].phase.Idle? && other == id {
      OngoingHistory(s.live[id], History(s.trace, id), Running, Added);
    }
    hide History, LiveHistory, DeadHistory;
  }

  lemma FinishLives<B>(s: State<B>, m: Message<B>)
    requires Lives(s) && m.id in s.live && s.live[m.id].phase.Running?
    ensures Lives(AfterFinish(s, m))
  {
    hide History, DeadHistory;
    var t := AfterFinish(s, m);
    forall id: nat | id < |t.urls| ensures Lived(t.live, id, History(t.trace, id)) {
      assert Lived(s.live, id, History(s.trace, id));
    }
  }

  lemma RemoveLives<B>(s: State<B>, other: nat)
    requires Lives(s) && s.queue != [] && InPhase(s.live, s.queue[0].id, Finished) && other < |s.urls|
    ensures var t := AfterRemove(s); Lived(t.live, other, History(t.trace, other))
  {
    var id := s.queue[0].id;
    HistoryPush(s.trace, Logged(id, Removed), other);
    if other == id {
      OngoingHistory(s.live[id], History(s.trace, id), Detached, Removed);
    }
    hide History, LiveHistory, DeadHistory;
  }

  /** What the second half of an iteration adds to the history of its handle. */
  function Ending(h: Handle): seq<Event> {
    (if h.hasCallback then [Called] else []) + if h.recycled then [] else [Deleted]
  }

  lemma EpilogueHistory(trace: seq<Logged>, id: nat, h: Handle, other: nat)
    ensures History(trace + Epilogue(id, h), other) == History(trace, other) + if other == id then Ending(h) else []
  {
    var called := trace + if h.hasCallback then [Logged(id, Called)] else [];
    assert trace + [] == trace && called + [] == called;
    assert trace + Epilogue(id, h) == called + if h.recycled then [] else [Logged(id, Deleted)];
    HistoryPush(trace, Logged(id, Called), other);
    HistoryPush(called, Logged(id, Deleted), other);
    hide History, Epilogue;
    assert History(called, other) == History(trace, other) + if other == id && h.hasCallback then [Called] else [];
  }

  /** The callback completes a transfer: one more round for a recycled handle, the end of a
      one-shot. */
  lemma EndedHistory(h: Handle, history: seq<Event>)
    requires h.phase.Detached? && LiveHistory(h, history)
    ensures h.recycled ==> LiveHistory(h.(phase := Idle), history + Ending(h))
    ensures !h.recycled ==> DeadHistory(history + Ending(h))
  {
    var c, called := [Created(h.recycled, h.hasCallback)], if h.hasCallback then [Called] else [];
    var n: nat :| (h.recycled || n == 0) && history == c + Rounds(n, h.hasCallback) + [Added, Removed];
    assert [Added, Removed] + called == Round(h.hasCallback);
    assert history + called == c + Rounds(n + 1, h.hasCallback) + [];
    if h.recycled {
      assert history + Ending(h) == history + called;
    } else {
      assert Rounds(0, h.hasCallback) == [];
      assert history + Ending(h) == history + called + [Deleted] == WholeLife(h.hasCallback);
    }
  }

  lemma CallLives<B>(s: State<B>, other: nat)
    requires Lives(s) && s.removed != [] && InPhase(s.live, Top(s).id, Detached) && other < |s.urls|
    ensures var t := AfterCall(s); Lived(t.live, other, History(t.trace, other))
  {
    var id := Top(s).id;
    var h := s.live[id];
    EpilogueHistory(s.trace, id, h, other);
    if other == id && id < |s.urls| {
      EndedHistory(h, History(s.trace, id));
    }
    hide History, LiveHistory, DeadHistory, Epilogue, Ending;
    assert History(s.trace, other) + [] == History(s.trace, other);
  }

  // ---- every operation keeps the invariant ----

  lemma StepFresh<B>(s: State<B>, a: Action<B>)
    requires Fresh(s) && Enabled(s, a)
    ensures Fresh(Step(s, a)) && |Step(s, a).urls| >= |s.urls|
  {
  }

  lemma StepTracks<B>(s: State<B>, a: Action<B>)
    requires Fresh(s) && Tracked(s) && Enabled(s, a)
    ensures Tracked(Step(s, a))
  {
    hide Tracked, AfterCreate, AfterAdd, AfterFinish, AfterRemove, AfterCall;
    match a
    case DoCreate(url, recycled, hasCallback) => CreateTracks(s, url, recycled, hasCallback);
    case DoAdd(id, accepted) => AddTracks(s, id, accepted);
    case DoFinish(m) => FinishTracks(s, m);
    case DoRemove => RemoveTracks(s);
    case DoCall => CallTracks(s);
  }

  lemma StepLives<B>(s: State<B>, a: Action<B>, id: nat)
    requires Inv(s) && Enabled(s, a) && id < |Step(s, a).urls|
    ensures Lived(Step(s, a).live, id, History(Step(s, a).trace, id))
  {
    TrackedPhases(s);
    match a
    case DoCreate(url, recycled, hasCallback) => CreateLives(s, url, recycled, hasCallback, id);
    case DoAdd(other, accepted) => AddLives(s, other, accepted, id);
    case DoFinish(m) => FinishLives(s, m);
    case DoRemove => RemoveLives(s, id);
    case DoCall => CallLives(s, id);
  }

  lemma StepKeeps<B>(s: State<B>, a: Action<B>)
    requires Inv(s) && Enabled(s, a)
    ensures Inv(Step(s, a))
  {
    StepFresh(s, a);
    StepTracks(s, a);
    forall id: nat | id < |Step(s, a).urls|
      ensures Lived(Step(s, a).live, id, History(Step(s, a).trace, id))
    {
      StepLives(s, a, id);
    }
    hide Fresh, Tracked, Lived, History, Step, Enabled;
    assert Inv(Step(s, a));
  }

  lemma {:induction false} RunKeeps<B>(s: State<B>, actions: seq<Action<B>>)
    requires Inv(s) && IsRun(s, actions)
    ensures Inv(Run(s, actions))
    decreases |actions|
  {
    hide Inv, Step, Enabled;
    if actions != [] {
      StepKeeps(s, actions[0]);
      RunKeeps(Step(s, actions[0]), actions[1..]);
    }
  }

  // ---- what every run guarantees ----

  /** How often an event is in a history. */
  ghost function Count(history: seq<Event>, e: Event): nat {
    multiset(history)[e]
  }

  lemma CountAppend(h: seq<Event>, k: seq<Event>, e: Event)
    ensures Count(h + k, e) == Count(h, e) + Count(k, e)
  {
  }

  /** How often an event comes in n completed transfers. */
  function InRounds(n: nat, hasCallback: bool, e: Event): nat {
    match e
    case Added => n
    case Removed => n
    case Called => if hasCallback then n else 0
    case _ => 0
  }

  lemma CountRound(hasCallback: bool, e: Event)
    ensures Count(Round(hasCallback), e) == InRounds(1, hasCallback, e)
  {
  }

  lemma CountFurther(n: nat, hasCallback: bool, e: Event)
    ensures Count(Rounds(n + 1, hasCallback), e) == Count(Rounds(n, hasCallback), e) + Count(Round(hasCallback), e)
  {
    var r, o := Rounds(n, hasCallback), Round(hasCallback);
    assert Rounds(n + 1, hasCallback) == r + o;
    hide Rounds, Round;
    CountAppend(r, o, e);
  }

  lemma CountNone(hasCallback: bool, e: Event)
    ensures Count(Rounds(0, hasCallback), e) == 0
  {
  }

  lemma {:induction false} CountRounds(n: nat, hasCallback: bool, e: Event)
    ensures Count(Rounds(n, hasCallback), e) == InRounds(n, hasCallback, e)
  {
    hide Count, Rounds, Round;
    if n == 0 {
      CountNone(hasCallback, e);
    } else {
      CountRounds(n - 1, hasCallback, e);
      CountRound(hasCallback, e);
      CountFurther(n - 1, hasCallback, e);
    }
  }

  lemma CountAround(c: Event, n: nat, hasCallback: bool, phase: Phase, e: Event)
    requires c != e
    ensures Count([c] + Rounds(n, hasCallback) + Ongoing(phase), e)
            == Count(Rounds(n, hasCallback), e) + Count(Ongoing(phase), e)
  {
    CountAppend([c] + Rounds(n, hasCallback), Ongoing(phase), e);
    CountAppend([c], Rounds(n, hasCallback), e);
    assert Count([c], e) == 0;
  }

  lemma CountOngoing(phase: Phase)
    ensures Count(Ongoing(phase), Deleted) == 0
    ensures phase.Idle? ==> forall e :: Count(Ongoing(phase), e) == 0
  {
  }

  lemma LiveRounds(h: Handle, history: seq<Event>) returns (n: nat)
    requires LiveHistory(h, history)
    ensures forall e: Event | !e.Created? ::
              Count(history, e) == InRounds(n, h.hasCallback, e) + Count(Ongoing(h.phase), e)
  {
    var c := Created(h.recycled, h.hasCallback);
    n :| (h.recycled || n == 0) && history == [c] + Rounds(n, h.hasCallback) + Ongoing(h.phase);
    hide Count, Rounds, Ongoing, InRounds;
    forall e: Event | !e.Created?
      ensures Count(history, e) == InRounds(n, h.hasCallback, e) + Count(Ongoing(h.phase), e)
    {
      CountAround(c, n, h.hasCallback, h.phase, e);
      CountRounds(n, h.hasCallback, e);
    }
  }

  lemma CountLive(h: Handle, history: seq<Event>)
    requires LiveHistory(h, history)
    ensures Count(history, Deleted) == 0
    ensures h.phase.Idle? ==> Count(history, Added) == Count(history, Removed)
    ensures h.phase.Idle? && h.hasCallback ==> Count(history, Called) == Count(history, Added)
  {
    hide Count, Rounds, Ongoing, LiveHistory;
    var n := LiveRounds(h, history);
    CountOngoing(h.phase);
  }

  lemma LiveShape(h: Handle, history: seq<Event>)
    requires LiveHistory(h, history)
    ensures history != [] && history[0] == Created(h.recycled, h.hasCallback)
    ensures !h.recycled ==> history < WholeLife(h.hasCallback)
  {
    var n: nat :| (h.recycled || n == 0)
                  && history == [Created(h.recycled, h.hasCallback)] + Rounds(n, h.hasCallback) + Ongoing(h.phase);
    assert Rounds(0, h.hasCallback) == [];
  }

  lemma DeadShape(history: seq<Event>)
    requires DeadHistory(history)
    ensures history != [] && history[0].Created? && !history[0].recycled
    ensures history == WholeLife(history[0].hasCallback)
  {
  }

  /** The life of a handle. A one-shot handle's history is a prefix of: created, added, removed,
      called back, deleted; it stops existing exactly when that is complete, so it is called back
      and deleted once and never touched again. A recycled handle is never deleted. */
  ghost predicate ProperLife(history: seq<Event>, alive: bool) {
    && history != [] && history[0].Created?
    && (!history[0].recycled ==> history <= WholeLife(history[0].hasCallback)
                                 && (!alive <==> history == WholeLife(history[0].hasCallback)))
    && (history[0].recycled ==> alive && Count(history, Deleted) == 0)
  }

  lemma ProperWhileInvariant<B>(s: State<B>, id: nat)
    requires Inv(s) && id < |s.urls|
    ensures ProperLife(History(s.trace, id), id in s.live)
  {
    var history := History(s.trace, id);
    assert Lived(s.live, id, history);
    hide History, LiveHistory, DeadHistory, WholeLife, Inv, Count;
    if id in s.live {
      LiveShape(s.live[id], history);
      CountLive(s.live[id], history);
    } else {
      DeadShape(history);
    }
  }

  /** In every run every handle lives a proper life. */
  lemma HandleLife<B>(actions: seq<Action<B>>, id: nat)
    requires IsRun(Initial(), actions) && id < |Run(Initial(), actions).urls|
    ensures ProperLife(History(Run(Initial(), actions).trace, id), id in Run(Initial(), actions).live)
  {
    RunKeeps(Initial<B>(), actions);
    hide Inv, Run, IsRun, ProperLife;
    ProperWhileInvariant(Run(Initial(), actions), id);
  }

  lemma IdleWhenQuiet<B>(s: State<B>, id: nat)
    requires Tracked(s) && s.queue == [] && s.removed == [] && id in s.live && !s.live[id].phase.Running?
    ensures s.live[id].phase.Idle?
  {
    assert !InPhase(s.live, id, Finished) && !InPhase(s.live, id, Detached);
  }

  lemma DeadCounts(history: seq<Event>)
    requires DeadHistory(history)
    ensures Count(history, Added) == Count(history, Removed)
    ensures history != [] && history[0].Created?
    ensures history[0].hasCallback ==> Count(history, Called) == Count(history, Added)
  {
  }

  /** When nothing is being transferred, the queue is drained and no callback is outstanding, every
      transfer ever added has been removed and its callback has run. */
  lemma QuietMeansCalledBack<B>(actions: seq<Action<B>>, id: nat)
    requires IsRun(Initial(), actions) && id < |Run(Initial(), actions).urls|
    requires var s := Run(Initial(), actions);
             s.queue == [] && s.removed == [] && forall i | i in s.live :: !s.live[i].phase.Running?
    ensures var h := History(Run(Initial(), actions).trace, id);
            && Count(h, Added) == Count(h, Removed)
            && (h != [] && h[0].Created? && h[0].hasCallback ==> Count(h, Called) == Count(h, Added))
  {
    RunKeeps(Initial<B>(), actions);
    var s := Run(Initial(), actions);
    var h := History(s.trace, id);
    assert Lived(s.live, id, h);
    hide History, LiveHistory, DeadHistory, Run, IsRun, Count;
    if id in s.live {
      IdleWhenQuiet(s, id);
      LiveShape(s.live[id], h);
      CountLive(s.live[id], h);
    } else {
      DeadCounts(h);
    }
  }

  // ---- one-shot transfers: what the callbacks receive ----

  predicate OneShots<B>(actions: seq<Action<B>>) {
    forall i | 0 <= i < |actions| && actions[i].DoCreate? :: !actions[i].recycled && actions[i].hasCallback
  }

  /** The URLs of the handles a run creates, in order. */
  function CreatedUrls<B>(actions: seq<Action<B>>): seq<string> {
    if actions == [] then []
    else (if actions[0].DoCreate? then [actions[0].url] else []) + CreatedUrls(actions[1..])
  }

  /** The messages the library finishes in a run, in order. */
  function FinishedMessages<B>(actions: seq<Action<B>>): seq<Message<B>> {
    if actions == [] then []
    else (if actions[0].DoFinish? then [actions[0].m] else []) + FinishedMessages(actions[1..])
  }

  function Messages<B>(calls: seq<Call<B>>): (ms: seq<Message<B>>)
    ensures |ms| == |calls|
  {
    seq(|calls|, i requires 0 <= i < |calls| => calls[i].m)
  }

  ghost predicate LiveKnown<B>(s: State<B>) {
    forall id | id in s.live ::
      id < |s.urls| && s.live[id].url == s.urls[id] && !s.live[id].recycled && s.live[id].hasCallback
  }

  ghost predicate CallsKnown<B>(s: State<B>) {
    && (forall i | 0 <= i < |s.calls| ::
          var c := s.calls[i];
          c.m.id < |s.urls| && c.url == s.urls[c.m.id] && c.m.id !in s.live)
    && (forall i, j | 0 <= i < j < |s.calls| :: s.calls[i].m.id != s.calls[j].m.id)
    && (forall id: nat | id < |s.urls| && id !in s.live :: exists i :: 0 <= i < |s.calls| && s.calls[i].m.id == id)
  }

  lemma CallKeepsCalls<B>(s: State<B>)
    requires LiveKnown(s) && CallsKnown(s) && s.removed != [] && Top(s).id in s.live
    ensures CallsKnown(AfterCall(s))
  {
    var t := AfterCall(s);
    forall id: nat | id < |t.urls| && id !in t.live
      ensures exists i :: 0 <= i < |t.calls| && t.calls[i].m.id == id
    {
      if id == Top(s).id {
        assert t.calls[|s.calls|].m.id == id;
      } else {
        var i :| 0 <= i < |s.calls| && s.calls[i].m.id == id;
        assert t.calls[i].m.id == id;
      }
    }
  }

  lemma StepKeepsLive<B>(s: State<B>, a: Action<B>)
    requires LiveKnown(s) && Enabled(s, a)
    requires a.DoCreate? ==> !a.recycled && a.hasCallback
    ensures LiveKnown(Step(s, a))
  {
  }

  lemma StepKeepsCalls<B>(s: State<B>, a: Action<B>)
    requires LiveKnown(s) && CallsKnown(s) && Enabled(s, a)
    requires a.DoCreate? ==> !a.recycled && a.hasCallback
    ensures LiveKnown(Step(s, a)) && CallsKnown(Step(s, a))
  {
    StepKeepsLive(s, a);
    if a.DoCall? {
      CallKeepsCalls(s);
    } else {
      assert Step(s, a).calls == s.calls;
    }
  }

  lemma OneShotsRest<B>(actions: seq<Action<B>>)
    requires OneShots(actions) && actions != []
    ensures actions[0].DoCreate? ==> !actions[0].recycled && actions[0].hasCallback
    ensures OneShots(actions[1..])
  {
    forall i | 0 <= i < |actions[1..]| && actions[1..][i].DoCreate?
      ensures !actions[1..][i].recycled && actions[1..][i].hasCallback
    {
      assert actions[1..][i] == actions[i + 1];
    }
  }

  /** What a one-shot run guarantees of its callbacks: each deleted handle was called back exactly
      once, with its own URL. */
  lemma {:induction false} OneShotCalls<B>(s: State<B>, actions: seq<Action<B>>)
    requires LiveKnown(s) && CallsKnown(s) && IsRun(s, actions) && OneShots(actions)
    ensures LiveKnown(Run(s, actions)) && CallsKnown(Run(s, actions))
    decreases |actions|
  {
    hide LiveKnown, CallsKnown, Enabled, Step, OneShots;
    if actions != [] {
      OneShotsRest(actions);
      StepKeepsCalls(s, actions[0]);
      OneShotCalls(Step(s, actions[0]), actions[1..]);
    }
  }

  /** The handles a run creates are all there are. */
  lemma {:induction false} UrlsCreated<B>(s: State<B>, actions: seq<Action<B>>)
    requires IsRun(s, actions)
    ensures Run(s, actions).urls == s.urls + CreatedUrls(actions)
    decreases |actions|
  {
    if actions == [] {
      assert s.urls + [] == s.urls;
    } else {
      var a, t := actions[0], Step(s, actions[0]);
      assert t.urls == s.urls + if a.DoCreate? then [a.url] else [];
      hide Enabled, Step;
      UrlsCreated(t, actions[1..]);
      Associate(s.urls, if a.DoCreate? then [a.url] else [], CreatedUrls(actions[1..]));
    }
  }

  lemma Associate<T>(x: seq<T>, y: seq<T>, z: seq<T>)
    ensures x + y + z == x + (y + z)
  {
  }

  /** The messages on their way: called back, with their handle removed, or queued. */
  ghost function Carried<B>(s: State<B>): multiset<Message<B>> {
    multiset(Messages(s.calls)) + multiset(s.removed) + multiset(s.queue)
  }

  lemma MovesToStack<T>(calls: seq<T>, removed: seq<T>, queue: seq<T>)
    requires queue != []
    ensures multiset(calls) + multiset(removed + [queue[0]]) + multiset(queue[1..])
            == multiset(calls) + multiset(removed) + multiset(queue)
  {
    assert queue == [queue[0]] + queue[1..];
  }

  lemma MovesToCalls<T>(calls: seq<T>, removed: seq<T>, queue: seq<T>)
    requires removed != []
    ensures multiset(calls + [removed[|removed| - 1]]) + multiset(removed[..|removed| - 1]) + multiset(queue)
            == multiset(calls) + multiset(removed) + multiset(queue)
  {
    assert removed == removed[..|removed| - 1] + [removed[|removed| - 1]];
  }

  lemma RemoveCarries<B>(s: State<B>)
    requires s.queue != [] && s.queue[0].id in s.live
    ensures Carried(AfterRemove(s)) == Carried(s)
  {
    hide Messages;
    MovesToStack(Messages(s.calls), s.removed, s.queue);
  }

  lemma CallMessages<B>(s: State<B>)
    requires LiveKnown(s) && s.removed != [] && Top(s).id in s.live
    ensures Messages(AfterCall(s).calls) == Messages(s.calls) + [Top(s)]
  {
  }

  lemma CallCarries<B>(s: State<B>)
    requires LiveKnown(s) && s.removed != [] && Top(s).id in s.live
    ensures Carried(AfterCall(s)) == Carried(s)
  {
    hide Messages, LiveKnown, Released;
    CallMessages(s);
    MovesToCalls(Messages(s.calls), s.removed, s.queue);
  }

  lemma StepCarries<B>(s: State<B>, a: Action<B>)
    requires LiveKnown(s) && Enabled(s, a)
    ensures Carried(Step(s, a)) == Carried(s) + if a.DoFinish? then multiset{a.m} else multiset{}
  {
    match a
    case DoRemove => RemoveCarries(s);
    case DoCall => CallCarries(s);
    case _ => hide Messages;
  }

  /** The messages called back, those whose handles have been removed, and the queue are together
      exactly the messages the library finished: none is lost or repeated. */
  lemma {:induction false} MessagesConserved<B>(s: State<B>, actions: seq<Action<B>>)
    requires LiveKnown(s) && CallsKnown(s) && IsRun(s, actions) && OneShots(actions)
    ensures Carried(Run(s, actions)) == Carried(s) + multiset(FinishedMessages(actions))
    decreases |actions|
  {
    if actions != [] {
      var a, rest := actions[0], actions[1..];
      OneShotsRest(actions);
      StepKeepsCalls(s, a);
      StepCarries(s, a);
      hide LiveKnown, CallsKnown, Enabled, Step, Carried, OneShots;
      MessagesConserved(Step(s, a), rest);
    }
  }

  lemma NothingLeft<B>(s: State<B>)
    requires Inv(s) && s.live == map[]
    ensures Carried(s) == multiset(Messages(s.calls))
  {
    TrackedPhases(s);
  }

  lemma InitialFits<B>()
    ensures var i := Initial<B>();
            && Inv(i) && LiveKnown(i) && CallsKnown(i) && Carried(i) == multiset{}
            && i.urls == [] && i.calls == [] && i.removed == [] && i.queue == []
  {
  }

  /** In any one-shot run, complete or not, each deleted handle was called back exactly once, with the
      URL it was created for. */
  lemma OneShotRun<B>(actions: seq<Action<B>>)
    requires IsRun(Initial(), actions) && OneShots(actions)
    ensures Run(Initial(), actions).urls == CreatedUrls(actions) && CallsKnown(Run(Initial(), actions))
  {
    var i := Initial<B>();
    InitialFits<B>();
    hide Inv, Run, IsRun, Initial, CallsKnown, LiveKnown, OneShots, CreatedUrls;
    OneShotCalls(i, actions);
    UrlsCreated(i, actions);
    assert [] + CreatedUrls(actions) == CreatedUrls(actions);
    assert Run(i, actions).urls == CreatedUrls(actions) && CallsKnown(Run(i, actions));
  }

  /** A complete run of one-shot transfers, one that leaves no handle: the callbacks received exactly
      the finished messages. */
  lemma CompleteOneShots<B>(actions: seq<Action<B>>)
    requires IsRun(Initial(), actions) && OneShots(actions) && Run(Initial(), actions).live == map[]
    ensures var s := Run(Initial(), actions);
            && s.urls == CreatedUrls(actions) && CallsKnown(s)
            && multiset(Messages(s.calls)) == multiset(FinishedMessages(actions))
  {
    var i := Initial<B>();
    InitialFits<B>();
    OneShotRun(actions);
    var s := Run(i, actions);
    hide Inv, Run, IsRun, Initial, CallsKnown, LiveKnown, Messages, Carried, OneShots, CreatedUrls, FinishedMessages;
    RunKeeps(i, actions);
    MessagesConserved(i, actions);
    NothingLeft(s);
    assert multiset(Messages(s.calls)) == multiset(FinishedMessages(actions));
    assert s.urls == CreatedUrls(actions) && CallsKnown(s);
  }

  // ---- the order of the callbacks ----

  /** A handle is removed only when no other one waits for its callback: no timer fires inside a
      removal. */
  predicate InTurn<B>(s: State<B>, actions: seq<Action<B>>)
    requires IsRun(s, actions)
    decreases |actions|
  {
    actions == [] || ((actions[0].DoRemove? ==> s.removed == []) && InTurn(Step(s, actions[0]), actions[1..]))
  }

  function Line<B>(s: State<B>): seq<Message<B>> { Messages(s.calls) + s.removed + s.queue }

  lemma RemoveInLine<B>(s: State<B>)
    requires s.queue != [] && s.queue[0].id in s.live && s.removed == []
    ensures |AfterRemove(s).removed| <= 1 && Line(AfterRemove(s)) == Line(s)
  {
    hide Messages;
    assert [s.queue[0]] + s.queue[1..] == s.queue;
  }

  lemma CallInLine<B>(s: State<B>)
    requires LiveKnown(s) && |s.removed| == 1 && Top(s).id in s.live
    ensures AfterCall(s).removed == [] && Line(AfterCall(s)) == Line(s)
  {
    var t := AfterCall(s);
    assert s.removed == [Top(s)] && t.removed == [] && t.queue == s.queue;
    CallMessages(s);
    hide Messages, AfterCall, LiveKnown;
    assert Line(t) == Messages(s.calls) + [Top(s)] + s.queue;
  }

  lemma StepInLine<B>(s: State<B>, a: Action<B>)
    requires LiveKnown(s) && Enabled(s, a) && |s.removed| <= 1 && (a.DoRemove? ==> s.removed == [])
    ensures |Step(s, a).removed| <= 1
    ensures Line(Step(s, a)) == Line(s) + if a.DoFinish? then [a.m] else []
  {
    match a
    case DoRemove => RemoveInLine(s); assert Line(s) + [] == Line(s);
    case DoCall => CallInLine(s); assert Line(s) + [] == Line(s);
    case _ => hide Messages;
  }

  /** Unless a timer fires inside a removal, the callbacks come in the order in which the library
      finished the transfers. */
  lemma {:induction false} InTurnKeepsOrder<B>(s: State<B>, actions: seq<Action<B>>)
    requires LiveKnown(s) && CallsKnown(s) && IsRun(s, actions) && OneShots(actions)
    requires InTurn(s, actions) && |s.removed| <= 1
    ensures Line(Run(s, actions)) == Line(s) + FinishedMessages(actions)
    ensures |Run(s, actions).removed| <= 1
    decreases |actions|
  {
    if actions == [] {
      assert Line(s) + [] == Line(s);
    } else {
      var a, rest := actions[0], actions[1..];
      OneShotsRest(actions);
      StepKeepsCalls(s, a);
      StepInLine(s, a);
      hide LiveKnown, CallsKnown, Enabled, Step, Line, OneShots;
      InTurnKeepsOrder(Step(s, a), rest);
      Associate(Line(s), if a.DoFinish? then [a.m] else [], FinishedMessages(rest));
    }
  }

  /** After k callbacks m was next in line, but is not called back next: it lies at the bottom of the
      stack, below another one, or the callback after the first k was another one's. */
  ghost predicate Passed<B>(s: State<B>, k: nat, m: Message<B>) {
    if |s.calls| == k then |s.removed| >= 2 && s.removed[0] == m
    else |s.calls| > k && s.calls[k].m != m
  }

  lemma TopIsNotBottom<B>(s: State<B>)
    requires Tracked(s) && |s.removed| >= 2
    ensures Top(s) != s.removed[0]
  {
  }

  lemma StepStaysPassed<B>(s: State<B>, a: Action<B>, k: nat, m: Message<B>)
    requires Tracked(s) && LiveKnown(s) && Enabled(s, a) && Passed(s, k, m)
    ensures Passed(Step(s, a), k, m)
  {
    if |s.removed| >= 2 {
      TopIsNotBottom(s);
    }
    hide Tracked;
  }

  lemma {:induction false} RunStaysPassed<B>(s: State<B>, actions: seq<Action<B>>, k: nat, m: Message<B>)
    requires Inv(s) && LiveKnown(s) && IsRun(s, actions) && OneShots(actions) && Passed(s, k, m)
    ensures Passed(Run(s, actions), k, m)
    decreases |actions|
  {
    if actions != [] {
      var a := actions[0];
      OneShotsRest(actions);
      StepKeeps(s, a);
      StepKeepsLive(s, a);
      StepStaysPassed(s, a, k, m);
      hide Inv, LiveKnown, Enabled, Step, OneShots, Passed;
      RunStaysPassed(Step(s, a), actions[1..], k, m);
    }
  }

  /** A line in which m has been passed is not the one in which m was next. */
  lemma PassedIsOutOfLine<B>(t: State<B>, k: nat, m: Message<B>, line: seq<Message<B>>)
    requires Passed(t, k, m) && |t.removed| <= 1 && k < |line| && line[k] == m
    ensures Line(t) != line
  {
    assert Messages(t.calls)[k] == t.calls[k].m;
    assert Line(t)[k] == Messages(t.calls)[k];
  }

  /** Removing a handle while another one waits for its callback passes that one. */
  lemma RemovePasses<B>(s: State<B>)
    requires |s.removed| == 1 && Enabled(s, DoRemove)
    ensures Passed(Step(s, DoRemove), |s.calls|, s.removed[0])
    ensures |s.calls| < |Line(s)| && Line(s)[|s.calls|] == s.removed[0]
  {
  }

  lemma {:induction false} OrderNeedsTurns<B>(s: State<B>, actions: seq<Action<B>>)
    requires Inv(s) && LiveKnown(s) && CallsKnown(s) && IsRun(s, actions) && OneShots(actions) && |s.removed| <= 1
    requires |Run(s, actions).removed| <= 1 && Line(Run(s, actions)) == Line(s) + FinishedMessages(actions)
    ensures InTurn(s, actions)
    decreases |actions|
  {
    if actions != [] {
      var a, rest, t := actions[0], actions[1..], Run(s, actions);
      OneShotsRest(actions);
      StepKeeps(s, a);
      StepKeepsCalls(s, a);
      if a.DoRemove? && s.removed != [] {
        RemovePasses(s);
        hide Inv, LiveKnown, CallsKnown, Enabled, Step, OneShots, Passed, Line;
        RunStaysPassed(Step(s, a), rest, |s.calls|, s.removed[0]);
        PassedIsOutOfLine(t, |s.calls|, s.removed[0], Line(s) + FinishedMessages(actions));
      } else {
        StepInLine(s, a);
        hide Inv, LiveKnown, CallsKnown, Enabled, Step, OneShots, Line;
        Associate(Line(s), if a.DoFinish? then [a.m] else [], FinishedMessages(rest));
        OrderNeedsTurns(Step(s, a), rest);
      }
    }
  }

  /** The exact condition for the order, over all one-shot runs: at most one callback is outstanding and
      the messages called back, outstanding and queued are the finished ones in their order, if and
      only if no timer has fired inside a removal. */
  lemma OrderIffInTurn<B>(actions: seq<Action<B>>)
    requires IsRun(Initial(), actions) && OneShots(actions)
    ensures var s := Run(Initial(), actions);
            |s.removed| <= 1 && Line(s) == FinishedMessages(actions) <==> InTurn(Initial(), actions)
  {
    var i, ms := Initial<B>(), FinishedMessages(actions);
    InitialFits<B>();
    assert Line(i) + ms == ms;
    hide Inv, LiveKnown, CallsKnown, IsRun, Run, OneShots, Line, FinishedMessages, InTurn, Initial;
    if InTurn(i, actions) {
      InTurnKeepsOrder(i, actions);
    }
    if |Run(i, actions).removed| <= 1 && Line(Run(i, actions)) == ms {
      OrderNeedsTurns(i, actions);
    }
  }

  /** So whenever no callback is outstanding, the callbacks have come in the order in which the
      transfers finished exactly if no timer has fired inside a removal. */
  lemma CalledInOrderIffInTurn<B>(actions: seq<Action<B>>)
    requires IsRun(Initial(), actions) && OneShots(actions) && Run(Initial(), actions).removed == []
    ensures var s := Run(Initial(), actions);
            Messages(s.calls) + s.queue == FinishedMessages(actions) <==> InTurn(Initial(), actions)
  {
    OrderIffInTurn(actions);
    hide IsRun, Run, OneShots, FinishedMessages, InTurn, Messages;
    var s := Run(Initial(), actions);
    assert Messages(s.calls) + [] == Messages(s.calls);
  }

  // ---- a run that serves its transfers one after the other ----

  lemma {:induction false} CreatedPush<B>(actions: seq<Action<B>>, a: Action<B>)
    ensures CreatedUrls(actions + [a]) == CreatedUrls(actions) + if a.DoCreate? then [a.url] else []
  {
    var last := if a.DoCreate? then [a.url] else [];
    if actions == [] {
      assert actions + [a] == [a] && [a][1..] == [];
      assert CreatedUrls([a]) == last + CreatedUrls([a][1..]);
    } else {
      var first := if actions[0].DoCreate? then [actions[0].url] else [];
      assert (actions + [a])[1..] == actions[1..] + [a];
      assert CreatedUrls(actions + [a]) == first + CreatedUrls(actions[1..] + [a]);
      assert CreatedUrls(actions) == first + CreatedUrls(actions[1..]);
      CreatedPush(actions[1..], a);
      hide CreatedUrls;
      Associate(first, CreatedUrls(actions[1..]), last);
      assert CreatedUrls(actions + [a]) == CreatedUrls(actions) + last;
    }
  }

  lemma {:induction false} FinishedPush<B>(actions: seq<Action<B>>, a: Action<B>)
    ensures FinishedMessages(actions + [a]) == FinishedMessages(actions) + if a.DoFinish? then [a.m] else []
  {
    var last := if a.DoFinish? then [a.m] else [];
    if actions == [] {
      assert actions + [a] == [a] && [a][1..] == [];
      assert FinishedMessages([a]) == last + FinishedMessages([a][1..]);
    } else {
      var first := if actions[0].DoFinish? then [actions[0].m] else [];
      assert (actions + [a])[1..] == actions[1..] + [a];
      assert FinishedMessages(actions + [a]) == first + FinishedMessages(actions[1..] + [a]);
      assert FinishedMessages(actions) == first + FinishedMessages(actions[1..]);
      FinishedPush(actions[1..], a);
      hide FinishedMessages;
      Associate(first, FinishedMessages(actions[1..]), last);
      assert FinishedMessages(actions + [a]) == FinishedMessages(actions) + last;
    }
  }

  /** A one-shot run and what it has left behind. */
  ghost predicate At<B>(actions: seq<Action<B>>, urls: seq<string>, ms: seq<Message<B>>, live: map<nat, Handle>,
      queue: seq<Message<B>>, removed: seq<Message<B>>)
  {
    && IsRun(Initial(), actions) && OneShots(actions)
    && CreatedUrls(actions) == urls && FinishedMessages(actions) == ms
    && var s := Run(Initial(), actions);
       s.urls == urls && s.live == live && s.queue == queue && s.removed == removed
  }

  /** Between transfers: nothing. */
  ghost predicate AtRest<B>(actions: seq<Action<B>>, urls: seq<string>, ms: seq<Message<B>>) {
    At(actions, urls, ms, map[], [], [])
  }

  lemma ExtendRun<B>(actions: seq<Action<B>>, a: Action<B>) returns (more: seq<Action<B>>)
    requires IsRun(Initial(), actions) && OneShots(actions) && Enabled(Run(Initial(), actions), a)
    requires a.DoCreate? ==> !a.recycled && a.hasCallback
    ensures IsRun(Initial(), more) && OneShots(more) && Run(Initial(), more) == Step(Run(Initial(), actions), a)
    ensures CreatedUrls(more) == CreatedUrls(actions) + if a.DoCreate? then [a.url] else []
    ensures FinishedMessages(more) == FinishedMessages(actions) + if a.DoFinish? then [a.m] else []
  {
    more := actions + [a];
    Followed(Initial(), actions, a);
    CreatedPush(actions, a);
    FinishedPush(actions, a);
  }

  lemma Register<B>(actions: seq<Action<B>>, urls: seq<string>, ms: seq<Message<B>>, url: string)
    returns (more: seq<Action<B>>)
    requires AtRest(actions, urls, ms)
    ensures At(more, urls + [url], ms, map[|urls| := Handle(url, false, true, Running)], [], [])
  {
    hide IsRun, Run, OneShots, CreatedUrls, FinishedMessages;
    more := ExtendRun(actions, DoCreate(url, false, true));
    more := ExtendRun(more, DoAdd(|urls|, true));
    assert ms + [] + [] == ms && urls + [url] + [] == urls + [url];
    assert Run(Initial(), more).live == map[|urls| := Handle(url, false, true, Running)];
    assert At(more, urls + [url], ms, map[|urls| := Handle(url, false, true, Running)], [], []);
  }

  lemma Report<B>(actions: seq<Action<B>>, urls: seq<string>, ms: seq<Message<B>>, url: string, m: Message<B>)
    returns (more: seq<Action<B>>)
    requires At(actions, urls, ms, map[m.id := Handle(url, false, true, Running)], [], [])
    ensures At(more, urls, ms + [m], map[m.id := Handle(url, false, true, Detached)], [], [m])
  {
    hide IsRun, Run, OneShots, CreatedUrls, FinishedMessages;
    more := ExtendRun(actions, DoFinish(m));
    more := ExtendRun(more, DoRemove);
    assert urls + [] + [] == urls && ms + [m] + [] == ms + [m];
    assert Run(Initial(), more).live == map[m.id := Handle(url, false, true, Detached)];
    assert At(more, urls, ms + [m], map[m.id := Handle(url, false, true, Detached)], [], [m]);
  }

  lemma Close<B>(actions: seq<Action<B>>, urls: seq<string>, ms: seq<Message<B>>, url: string, m: Message<B>)
    returns (more: seq<Action<B>>)
    requires At(actions, urls, ms, map[m.id := Handle(url, false, true, Detached)], [], [m])
    ensures AtRest(more, urls, ms)
  {
    hide IsRun, Run, OneShots, CreatedUrls, FinishedMessages;
    more := ExtendRun(actions, DoCall);
    assert urls + [] == urls && ms + [] == ms;
    assert Run(Initial(), more).live == map[];
    assert AtRest(more, urls, ms);
  }

  /** One more transfer, from its registration to its deletion. */
  lemma ServeOne<B>(actions: seq<Action<B>>, urls: seq<string>, ms: seq<Message<B>>, url: string, httpCode: int,
      body: B)
    returns (more: seq<Action<B>>)
    requires AtRest(actions, urls, ms)
    ensures AtRest(more, urls + [url], ms + [Message(|urls|, httpCode, body)])
  {
    hide At, AtRest;
    var m := Message(|urls|, httpCode, body);
    more := Register(actions, urls, ms, url);
    more := Report(more, urls + [url], ms, url, m);
    more := Close(more, urls + [url], ms + [m], url, m);
  }

  lemma {:induction false} ServeAll<B>(urls: seq<string>, httpCode: int, bodies: seq<B>)
    returns (actions: seq<Action<B>>, ms: seq<Message<B>>)
    requires |urls| == |bodies|
    ensures AtRest(actions, urls, ms)
    ensures |ms| == |urls| && forall k | 0 <= k < |ms| :: ms[k] == Message(k, httpCode, bodies[k])
  {
    if urls == [] {
      actions, ms := [], [];
    } else {
      var n := |urls| - 1;
      hide AtRest;
      actions, ms := ServeAll(urls[..n], httpCode, bodies[..n]);
      actions := ServeOne(actions, urls[..n], ms, urls[n], httpCode, bodies[n]);
      ms := ms + [Message(n, httpCode, bodies[n])];
      assert urls[..n] + [urls[n]] == urls;
    }
  }

  // ---- a timer that fires inside a removal ----

  /** Both of two transfers have finished, and nothing else has happened to them. */
  ghost predicate BothFinished<B>(actions: seq<Action<B>>, m: Message<B>, n: Message<B>) {
    && IsRun(Initial(), actions) && OneShots(actions) && FinishedMessages(actions) == [m, n]
    && var s := Run(Initial(), actions);
       && s.live == map[0 := Handle("a", false, true, Finished), 1 := Handle("b", false, true, Finished)]
       && s.queue == [m, n] && s.removed == [] && s.calls == []
  }

  lemma TwoFinish<B>(body: B) returns (actions: seq<Action<B>>)
    ensures BothFinished(actions, Message(0, 200, body), Message(1, 200, body))
  {
    hide IsRun, Run, OneShots, CreatedUrls;
    actions := [];
    assert IsRun(Initial<B>(), actions) && Run(Initial<B>(), actions) == Initial() && OneShots(actions) by {
      EmptyRun<B>();
    }
    actions := ExtendRun(actions, DoCreate("a", false, true));
    actions := ExtendRun(actions, DoCreate("b", false, true));
    var s := Run(Initial(), actions);
    assert s.live == map[0 := Handle("a", false, true, Idle), 1 := Handle("b", false, true, Idle)];
    actions := ExtendRun(actions, DoAdd(0, true));
    actions := ExtendRun(actions, DoAdd(1, true));
    var t := Run(Initial(), actions);
    assert t.live == map[0 := Handle("a", false, true, Running), 1 := Handle("b", false, true, Running)];
    assert t.queue == t.removed == [] && t.calls == [] && FinishedMessages(actions) == [];
    actions := TwoReported(actions, body);
  }

  lemma EmptyRun<B>()
    ensures IsRun(Initial<B>(), []) && Run(Initial<B>(), []) == Initial() && OneShots<B>([])
    ensures FinishedMessages<B>([]) == []
  {
  }

  lemma TwoReported<B>(actions: seq<Action<B>>, body: B) returns (more: seq<Action<B>>)
    requires IsRun(Initial(), actions) && OneShots(actions) && FinishedMessages(actions) == []
    requires var t := Run(Initial(), actions);
             && t.live == map[0 := Handle("a", false, true, Running), 1 := Handle("b", false, true, Running)]
             && t.queue == t.removed == [] && t.calls == []
    ensures BothFinished(more, Message(0, 200, body), Message(1, 200, body))
  {
    hide IsRun, Run, OneShots, CreatedUrls, FinishedMessages;
    more := ExtendRun(actions, DoFinish(Message(0, 200, body)));
    more := ExtendRun(more, DoFinish(Message(1, 200, body)));
  }

  /** The first handle waits for its callback, below the second. */
  lemma TwoRemoved<B>(body: B) returns (actions: seq<Action<B>>)
    ensures IsRun(Initial(), actions) && OneShots(actions)
    ensures FinishedMessages(actions) == [Message(0, 200, body), Message(1, 200, body)]
    ensures var s := Run(Initial(), actions);
            && s.removed == [Message(0, 200, body), Message(1, 200, body)] && s.calls == []
            && s.live == map[0 := Handle("a", false, true, Detached), 1 := Handle("b", false, true, Detached)]
  {
    actions := TwoFinish(body);
    hide IsRun, Run, OneShots, CreatedUrls, FinishedMessages;
    actions := ExtendRun(actions, DoRemove);
    actions := ExtendRun(actions, DoRemove);
  }

  /** The outer handle is called back after the inner one: the order of the callbacks is not that in
      which the transfers finished. */
  lemma NestedReverses<B>(body: B)
    ensures exists actions: seq<Action<B>> ::
              && IsRun(Initial(), actions) && OneShots(actions)
              && FinishedMessages(actions) == [Message(0, 200, body), Message(1, 200, body)]
              && Messages(Run(Initial(), actions).calls) == [Message(1, 200, body), Message(0, 200, body)]
  {
    var m, n := Message(0, 200, body), Message(1, 200, body);
    var actions := TwoRemoved(body);
    hide IsRun, Run, OneShots, CreatedUrls, FinishedMessages;
    actions := ExtendRun(actions, DoCall);
    actions := ExtendRun(actions, DoCall);
    assert Run(Initial(), actions).calls == [Call("b", n), Call("a", m)];
    assert FinishedMessages(actions) == [m, n];
  }

  // ---- what a timer does ----

  /** What happens inside a removal: no timer fires, or one does. Then the library finishes some
      transfers and the queue is drained, and `inside` happens inside those removals in turn. */
  datatype Burst<B> = NoTimer | Timer(finished: seq<Message<B>>, inside: seq<Burst<B>>)

  /** The library is done with a transfer; a message for a handle that is not running cannot happen. */
  function AfterReport<B>(s: State<B>, m: Message<B>): State<B> {
    if m.id in s.live && s.live[m.id].phase.Running? then AfterFinish(s, m) else s
  }

  /** What timers leave of the handles: they create and add none, and those that are not with the
      library stay as they are. */
  ghost predicate Remain(live: map<nat, Handle>, live': map<nat, Handle>) {
    && (forall id | id in live' ::
          && id in live && live'[id].(phase := live[id].phase) == live[id]
          && (live'[id].phase.Idle? && !live'[id].recycled ==> live[id].phase.Idle?))
    && (forall id | id in live && (live[id].phase.Idle? || live[id].phase.Detached?) ::
          id in live' && live'[id] == live[id])
  }

  /** They make every callback they begin, and take none back. */
  ghost predicate Onward<B>(s: State<B>, t: State<B>) {
    t.urls == s.urls && t.removed == s.removed && s.calls <= t.calls && Remain(s.live, t.live)
  }

  lemma OnwardFurther<B>(s: State<B>, t: State<B>, u: State<B>)
    requires Onward(s, t) && Onward(t, u)
    ensures Onward(s, u)
  {
  }

  lemma ReportOnward<B>(s: State<B>, m: Message<B>)
    requires Tracked(s)
    ensures Tracked(AfterReport(s, m)) && Onward(s, AfterReport(s, m))
  {
    hide Tracked;
    if m.id in s.live && s.live[m.id].phase.Running? {
      FinishTracks(s, m);
    }
  }

  /** The library is done with some transfers, one after the other. */
  ghost function Reported<B>(s: State<B>, ms: seq<Message<B>>): (t: State<B>)
    requires Tracked(s)
    ensures Tracked(t) && Onward(s, t)
  {
    if ms == [] then s
    else
      var before := Reported(s, ms[..|ms| - 1]);
      ReportOnward(before, ms[|ms| - 1]);
      AfterReport(before, ms[|ms| - 1])
  }

  /** A handle is removed, a timer perhaps fires, and the handle is called back. */
  lemma RoundTracks<B>(s: State<B>, t: State<B>)
    requires Tracked(s) && s.queue != [] && s.queue[0].id in s.live
    requires Tracked(t) && Onward(AfterRemove(s), t)
    ensures t.removed != [] && Top(t) == s.queue[0] && Top(t).id in t.live
    ensures t.live[Top(t).id] == s.live[s.queue[0].id].(phase := Detached)
    ensures Tracked(AfterCall(t))
  {
    CallTracks(t);
    hide Tracked;
  }

  lemma RoundRemains(live: map<nat, Handle>, live': map<nat, Handle>, id: nat)
    requires InPhase(live, id, Finished) && id in live'
    requires Remain(live[id := live[id].(phase := Detached)], live')
    ensures Remain(live, Released(live', id))
  {
  }

  lemma RoundOnward<B>(s: State<B>, t: State<B>)
    requires Tracked(s) && s.queue != [] && s.queue[0].id in s.live
    requires t.removed != [] && Top(t) == s.queue[0] && Top(t).id in t.live && Onward(AfterRemove(s), t)
    ensures Onward(s, AfterCall(t))
  {
    TrackedPhases(s);
    hide Tracked, Remain, Released;
    assert AfterCall(t).removed == s.removed;
    RoundRemains(s.live, t.live, s.queue[0].id);
  }

  /** The timer fires: the library is done with some transfers, and the queue is drained. */
  ghost function Fire<B>(s: State<B>, burst: Burst<B>): (t: State<B>)
    requires Tracked(s)
    ensures Tracked(t) && Onward(s, t)
    ensures burst.Timer? ==> t.queue == []
    decreases burst
  {
    if burst.NoTimer? then s
    else
      var reported := Reported(s, burst.finished);
      var t := Drain(reported, burst.inside);
      OnwardFurther(s, reported, t);
      t
  }

  /** The first handle in the queue is removed, and what comes first in `inside` happens meanwhile. */
  ghost function RemoveDuring<B>(s: State<B>, inside: seq<Burst<B>>): (t: State<B>)
    requires Tracked(s) && s.queue != []
    ensures s.queue[0].id in s.live && Tracked(AfterRemove(s)) && Tracked(t) && Onward(AfterRemove(s), t)
    ensures t.removed != [] && Top(t) == s.queue[0] && Top(t).id in t.live
    ensures t.live[Top(t).id] == s.live[s.queue[0].id].(phase := Detached)
    ensures Tracked(AfterCall(t)) && Onward(s, AfterCall(t))
    ensures inside == [] ==> t == AfterRemove(s)
    decreases inside, 0
  {
    RemoveTracks(s);
    var t := if inside == [] then AfterRemove(s) else Fire(AfterRemove(s), inside[0]);
    RoundTracks(s, t);
    RoundOnward(s, t);
    t
  }

  function Rest<B>(inside: seq<Burst<B>>): seq<Burst<B>> { if inside == [] then [] else inside[1..] }

  /** check_multi_info: remove and call back the first in the queue, until it is empty. */
  ghost function Drain<B>(s: State<B>, inside: seq<Burst<B>>): (t: State<B>)
    requires Tracked(s)
    ensures Tracked(t) && Onward(s, t) && t.queue == []
    decreases inside, |s.queue|
  {
    if s.queue == [] then s
    else
      var u := AfterCall(RemoveDuring(s, inside));
      var t := Drain(u, Rest(inside));
      OnwardFurther(s, u, t);
      t
  }

  /** One round of draining. */
  lemma DrainRound<B>(s: State<B>, inside: seq<Burst<B>>)
    requires Tracked(s) && s.queue != []
    ensures Drain(s, inside) == Drain(AfterCall(RemoveDuring(s, inside)), Rest(inside))
    ensures inside == [] ==> |AfterCall(RemoveDuring(s, inside)).queue| < |s.queue|
  {
    hide Tracked, Onward, RemoveDuring;
  }

  lemma DrainNone<B>(s: State<B>, inside: seq<Burst<B>>)
    requires Tracked(s) && s.queue == []
    ensures Drain(s, inside) == s
  {
    hide Tracked;
  }

  lemma CallEnabled<B>(s: State<B>)
    requires Tracked(s) && s.removed != []
    ensures Top(s).id in s.live && Enabled(s, DoCall) && Step(s, DoCall) == AfterCall(s)
  {
    TrackedPhases(s);
  }

  lemma FireNothing<B>(s: State<B>)
    requires Tracked(s)
    ensures Fire(s, NoTimer) == s
  {
    hide Tracked, Onward;
  }

  lemma FireIsDrain<B>(s: State<B>, burst: Burst<B>)
    requires Tracked(s) && burst.Timer?
    ensures Fire(s, burst) == Drain(Reported(s, burst.finished), burst.inside)
  {
    hide Tracked, Onward, Drain, Reported;
  }

  // ---- what is reported is called back ----

  /** The handle h of this message has been called back with it, and is gone unless it is recycled. */
  ghost predicate Completed<B>(t: State<B>, h: Handle, m: Message<B>) {
    (!h.recycled ==> m.id !in t.live) && (h.hasCallback ==> Call(h.url, m) in t.calls)
  }

  /** A message waits in the queue for this handle. */
  ghost predicate Waits<B>(s: State<B>, h: Handle, m: Message<B>) {
    m in s.queue && m.id in s.live && s.live[m.id] == h
  }

  lemma CompletedOnward<B>(s: State<B>, t: State<B>, h: Handle, m: Message<B>)
    requires Completed(s, h, m) && Onward(s, t)
    ensures Completed(t, h, m)
  {
  }

  lemma {:induction false} WaitsOnward<B>(s: State<B>, ms: seq<Message<B>>, h: Handle, m: Message<B>)
    requires Tracked(s) && Waits(s, h, m) && h.phase.Finished?
    ensures Waits(Reported(s, ms), h, m)
  {
    hide Tracked;
    if ms != [] {
      WaitsOnward(s, ms[..|ms| - 1], h, m);
    }
  }

  /** The first handle in the queue is called back, whatever happens inside its removal. */
  lemma FirstCompletes<B>(s: State<B>, inside: seq<Burst<B>>)
    requires Tracked(s) && s.queue != []
    ensures var t := RemoveDuring(s, inside); Completed(AfterCall(t), s.live[s.queue[0].id], s.queue[0])
  {
    hide Tracked, Onward, RemoveDuring;
    var t := RemoveDuring(s, inside);
    var h := s.live[s.queue[0].id];
    assert AfterCall(t).calls == if h.hasCallback then t.calls + [Call(h.url, s.queue[0])] else t.calls;
  }

  /** Another one waits on. */
  lemma OtherWaits<B>(s: State<B>, h: Handle, m: Message<B>)
    requires Tracked(s) && Waits(s, h, m) && s.queue[0].id in s.live && m != s.queue[0]
    ensures Waits(AfterRemove(s), h, m) && m.id != s.queue[0].id && h.phase.Finished?
  {
    var i :| 0 <= i < |s.queue| && s.queue[i] == m;
    assert s.queue[1..][i - 1] == m;
    assert InPhase(s.live, s.queue[i].id, Finished);
  }

  lemma CallOfAnother<B>(t: State<B>, h: Handle, m: Message<B>)
    requires t.removed != [] && Top(t).id in t.live && Top(t).id != m.id
    requires Waits(t, h, m) || Completed(t, h, m)
    ensures Waits(AfterCall(t), h, m) || Completed(AfterCall(t), h, m)
  {
  }

  /** Or is called back as well meanwhile. */
  lemma OtherInRound<B>(s: State<B>, inside: seq<Burst<B>>, h: Handle, m: Message<B>)
    requires Tracked(s) && Waits(s, h, m) && m != s.queue[0]
    ensures var u := AfterCall(RemoveDuring(s, inside)); Waits(u, h, m) || Completed(u, h, m)
    decreases inside, 0
  {
    var t := RemoveDuring(s, inside);
    OtherWaits(s, h, m);
    assert inside != [] ==> t == Fire(AfterRemove(s), inside[0]);
    hide Tracked, Onward, RemoveDuring, Fire, Waits, Completed, AfterRemove;
    if inside != [] {
      FireCompletes(AfterRemove(s), inside[0], h, m);
    }
    CallOfAnother(t, h, m);
  }

  /** A handle that waits is called back when the queue is drained. */
  lemma {:induction false} DrainCompletes<B>(s: State<B>, inside: seq<Burst<B>>, h: Handle, m: Message<B>)
    requires Tracked(s) && s.queue != [] && Waits(s, h, m)
    ensures Completed(Drain(s, inside), h, m)
    decreases inside, |s.queue|
  {
    var u, rest := AfterCall(RemoveDuring(s, inside)), Rest(inside);
    DrainRound(s, inside);
    assert m == s.queue[0] ==> s.live[s.queue[0].id] == h;
    assert Waits(u, h, m) ==> u.queue != [];
    hide Drain, RemoveDuring, AfterCall, Onward, Completed, Waits, Tracked;
    if m == s.queue[0] {
      FirstCompletes(s, inside);
    } else {
      OtherInRound(s, inside, h, m);
    }
    if Completed(u, h, m) {
      CompletedOnward(u, Drain(u, rest), h, m);
    } else {
      DrainCompletes(u, rest, h, m);
    }
  }

  lemma {:induction false} FireCompletes<B>(s: State<B>, burst: Burst<B>, h: Handle, m: Message<B>)
    requires Tracked(s) && Waits(s, h, m) && h.phase.Finished?
    ensures Waits(Fire(s, burst), h, m) || Completed(Fire(s, burst), h, m)
    decreases burst
  {
    if burst.Timer? {
      FireIsDrain(s, burst);
      hide Fire, Drain, Tracked;
      WaitsOnward(s, burst.finished, h, m);
      DrainCompletes(Reported(s, burst.finished), burst.inside, h, m);
    }
  }

  /** The first of these messages for its handle. */
  ghost predicate IsFirst<B>(ms: seq<Message<B>>, i: nat) {
    i < |ms| && forall j | 0 <= j < i :: ms[j].id != ms[i].id
  }

  lemma {:induction false} ReportedWaits<B>(s: State<B>, ms: seq<Message<B>>, i: nat)
    requires Tracked(s) && IsFirst(ms, i) && InPhase(s.live, ms[i].id, Running)
    ensures Waits(Reported(s, ms), s.live[ms[i].id].(phase := Finished), ms[i])
  {
    var n := |ms| - 1;
    hide Tracked;
    if i < n {
      ReportedWaits(s, ms[..n], i);
    } else {
      ReportedOthers(s, ms[..n], ms[i].id);
    }
  }

  /** Without a message for it, a handle stays as it is. */
  lemma {:induction false} ReportedOthers<B>(s: State<B>, ms: seq<Message<B>>, id: nat)
    requires Tracked(s) && id in s.live && forall i | 0 <= i < |ms| :: ms[i].id != id
    ensures id in Reported(s, ms).live && Reported(s, ms).live[id] == s.live[id]
  {
    hide Tracked;
    if ms != [] {
      ReportedOthers(s, ms[..|ms| - 1], id);
    }
  }

  /** When the timer fires, every transfer the library is done with is called back, with the first
      message for it, and its handle is gone unless it is recycled. */
  lemma FireServes<B>(s: State<B>, burst: Burst<B>, i: nat)
    requires Tracked(s) && burst.Timer? && IsFirst(burst.finished, i) && InPhase(s.live, burst.finished[i].id, Running)
    ensures Completed(Fire(s, burst), s.live[burst.finished[i].id], burst.finished[i])
  {
    var m := burst.finished[i];
    var h := s.live[m.id].(phase := Finished);
    ReportedWaits(s, burst.finished, i);
    FireIsDrain(s, burst);
    hide Tracked, Onward, Fire, Drain, Reported;
    DrainCompletes(Reported(s, burst.finished), burst.inside, h, m);
  }

  /** So is every transfer the library is done with when a timer fires inside the first removal. */
  lemma NestedServes<B>(s: State<B>, inside: seq<Burst<B>>, i: nat)
    requires Tracked(s) && s.queue != [] && s.queue[0].id in s.live
    requires inside != [] && inside[0].Timer? && IsFirst(inside[0].finished, i)
    requires InPhase(AfterRemove(s).live, inside[0].finished[i].id, Running)
    ensures Completed(Drain(s, inside), AfterRemove(s).live[inside[0].finished[i].id], inside[0].finished[i])
  {
    var r, t, m := AfterRemove(s), RemoveDuring(s, inside), inside[0].finished[i];
    assert t == Fire(r, inside[0]);
    DrainRound(s, inside);
    hide Fire, RemoveDuring, Drain, Tracked, Onward;
    FireServes(r, inside[0], i);
    assert Completed(AfterCall(t), r.live[m.id], m);
    CompletedOnward(AfterCall(t), Drain(s, inside), r.live[m.id], m);
  }

  // ---- nothing else is called back ----

  /** All messages a timer mentions, also those of timers inside removals, which may never fire. */
  function Mentioned<B>(burst: Burst<B>): seq<Message<B>> {
    if burst.NoTimer? then [] else burst.finished + MentionedIn(burst.inside)
  }

  function MentionedIn<B>(bursts: seq<Burst<B>>): seq<Message<B>> {
    if bursts == [] then [] else Mentioned(bursts[0]) + MentionedIn(bursts[1..])
  }

  /** Every message under way in t was under way in s, or is one of these. */
  ghost predicate OnlyFrom<B>(s: State<B>, t: State<B>, ms: seq<Message<B>>) {
    forall m | m in Line(t) :: m in Line(s) || m in ms
  }

  lemma OnlyFromFurther<B>(s: State<B>, t: State<B>, u: State<B>, ms: seq<Message<B>>, more: seq<Message<B>>)
    requires OnlyFrom(s, t, ms) && OnlyFrom(t, u, more)
    ensures OnlyFrom(s, u, ms + more)
  {
    hide Line;
  }

  lemma {:induction false} ReportedOnlyFrom<B>(s: State<B>, ms: seq<Message<B>>)
    requires Tracked(s)
    ensures OnlyFrom(s, Reported(s, ms), ms)
  {
    hide Tracked, Messages;
    if ms != [] {
      var before := Reported(s, ms[..|ms| - 1]);
      ReportedOnlyFrom(s, ms[..|ms| - 1]);
      assert OnlyFrom(before, AfterReport(before, ms[|ms| - 1]), [ms[|ms| - 1]]);
    }
  }

  lemma RemoveOnlyFrom<B>(s: State<B>)
    requires s.queue != [] && s.queue[0].id in s.live
    ensures OnlyFrom(s, AfterRemove(s), [])
  {
    hide Messages;
  }

  lemma CallOnlyFrom<B>(s: State<B>)
    requires s.removed != [] && Top(s).id in s.live
    ensures OnlyFrom(s, AfterCall(s), [])
  {
    var t := AfterCall(s);
    forall m | m in Messages(t.calls) ensures m in Line(s) {
      var i :| 0 <= i < |t.calls| && t.calls[i].m == m;
      if i < |s.calls| {
        assert Messages(s.calls)[i] == m;
      } else {
        assert m == s.removed[|s.removed| - 1];
      }
    }
    hide Messages;
  }

  lemma {:induction false} FireOnlyFrom<B>(s: State<B>, burst: Burst<B>)
    requires Tracked(s)
    ensures OnlyFrom(s, Fire(s, burst), Mentioned(burst))
    decreases burst
  {
    if burst.Timer? {
      var reported := Reported(s, burst.finished);
      FireIsDrain(s, burst);
      hide Fire, Drain, Tracked, OnlyFrom, Onward, Reported;
      ReportedOnlyFrom(s, burst.finished);
      DrainOnlyFrom(reported, burst.inside);
      OnlyFromFurther(s, reported, Drain(reported, burst.inside), burst.finished, MentionedIn(burst.inside));
    }
  }

  /** What the first of these mentions. */
  function MentionedFirst<B>(inside: seq<Burst<B>>): seq<Message<B>> {
    if inside == [] then [] else Mentioned(inside[0])
  }

  lemma {:induction false} RoundOnlyFrom<B>(s: State<B>, inside: seq<Burst<B>>)
    requires Tracked(s) && s.queue != []
    ensures OnlyFrom(s, AfterCall(RemoveDuring(s, inside)), MentionedFirst(inside))
    decreases inside, 0
  {
    var r, t, first := AfterRemove(s), RemoveDuring(s, inside), MentionedFirst(inside);
    assert inside != [] ==> t == Fire(r, inside[0]);
    RemoveOnlyFrom(s);
    hide Fire, RemoveDuring, Tracked, OnlyFrom, Onward, AfterRemove, Mentioned;
    if inside != [] {
      FireOnlyFrom(r, inside[0]);
      OnlyFromFurther(s, r, t, [], first);
      assert [] + first == first;
    }
    CallOnlyFrom(t);
    OnlyFromFurther(s, t, AfterCall(t), first, []);
    assert first + [] == first;
  }

  lemma OnlyFromNothing<B>(s: State<B>, ms: seq<Message<B>>)
    ensures OnlyFrom(s, s, ms)
  {
    hide Line;
  }

  lemma MentionedRest<B>(inside: seq<Burst<B>>)
    ensures MentionedIn(inside) == MentionedFirst(inside) + MentionedIn(Rest(inside))
    ensures inside != [] ==> Rest(inside) == inside[1..]
    ensures inside == [] ==> Rest(inside) == []
  {
  }

  lemma {:induction false} DrainOnlyFrom<B>(s: State<B>, inside: seq<Burst<B>>)
    requires Tracked(s)
    ensures OnlyFrom(s, Drain(s, inside), MentionedIn(inside))
    decreases inside, |s.queue|
  {
    hide *;
    if s.queue == [] {
      DrainNone(s, inside);
      OnlyFromNothing(s, MentionedIn(inside));
    } else {
      var u, rest := AfterCall(RemoveDuring(s, inside)), Rest(inside);
      DrainRound(s, inside);
      MentionedRest(inside);
      RoundOnlyFrom(s, inside);
      DrainOnlyFrom(u, rest);
      OnlyFromFurther(s, u, Drain(u, rest), MentionedFirst(inside), MentionedIn(rest));
    }
  }

  /** A transfer no message is mentioned for goes on. */
  lemma {:induction false} FireRunsOn<B>(s: State<B>, burst: Burst<B>, id: nat)
    requires Tracked(s) && InPhase(s.live, id, Running) && forall m | m in Mentioned(burst) :: m.id != id
    ensures id in Fire(s, burst).live && Fire(s, burst).live[id] == s.live[id]
    decreases burst
  {
    if burst.Timer? {
      var reported := Reported(s, burst.finished);
      FireIsDrain(s, burst);
      assert forall m | m in MentionedIn(burst.inside) :: m in Mentioned(burst);
      forall i | 0 <= i < |burst.finished| ensures burst.finished[i].id != id {
        assert burst.finished[i] in Mentioned(burst);
      }
      hide Fire, Drain, Tracked, Onward, Reported;
      ReportedOthers(s, burst.finished, id);
      DrainRunsOn(reported, burst.inside, id);
    }
  }

  lemma FirstIsNotRunning<B>(s: State<B>, id: nat)
    requires Tracked(s) && s.queue != [] && InPhase(s.live, id, Running)
    ensures s.queue[0].id in s.live && s.queue[0].id != id
    ensures id in AfterRemove(s).live && AfterRemove(s).live[id] == s.live[id]
  {
    TrackedPhases(s);
  }

  lemma {:induction false} RoundRunsOn<B>(s: State<B>, inside: seq<Burst<B>>, id: nat)
    requires Tracked(s) && s.queue != [] && InPhase(s.live, id, Running)
    requires forall m | m in MentionedFirst(inside) :: m.id != id
    ensures var u := AfterCall(RemoveDuring(s, inside)); id in u.live && u.live[id] == s.live[id]
    decreases inside, 0
  {
    FirstIsNotRunning(s, id);
    var r, t := AfterRemove(s), RemoveDuring(s, inside);
    assert inside != [] ==> t == Fire(r, inside[0]);
    hide RemoveDuring, Fire, Tracked, Onward, Mentioned, AfterRemove;
    if inside != [] {
      FireRunsOn(r, inside[0], id);
    }
  }

  lemma {:induction false} DrainRunsOn<B>(s: State<B>, inside: seq<Burst<B>>, id: nat)
    requires Tracked(s) && InPhase(s.live, id, Running) && forall m | m in MentionedIn(inside) :: m.id != id
    ensures id in Drain(s, inside).live && Drain(s, inside).live[id] == s.live[id]
    decreases inside, |s.queue|
  {
    if s.queue == [] {
      DrainNone(s, inside);
    } else {
      var u, rest := AfterCall(RemoveDuring(s, inside)), Rest(inside);
      DrainRound(s, inside);
      assert forall m | m in MentionedFirst(inside) || m in MentionedIn(rest) :: m in MentionedIn(inside);
      hide Drain, Tracked, Onward, RemoveDuring, AfterCall, MentionedFirst, MentionedIn;
      RoundRunsOn(s, inside, id);
      DrainRunsOn(u, rest, id);
    }
  }

  // ---- registrations with timers between them, and the event loop after them ----

  /** EventHub::register_event: create a one-shot handle with a callback, and add it. */
  function AfterRegister<B>(s: State<B>, url: string, accepted: bool): State<B> {
    AfterAdd(AfterCreate(s, url, false, true), |s.urls|, accepted)
  }

  lemma RegisterTracks<B>(s: State<B>, url: string, accepted: bool)
    requires Tracked(s) && Below(s)
    ensures Tracked(AfterRegister(s, url, accepted)) && Below(AfterRegister(s, url, accepted))
  {
    CreateTracks(s, url, false, true);
    AddTracks(AfterCreate(s, url, false, true), |s.urls|, accepted);
  }

  lemma OnwardBelow<B>(s: State<B>, t: State<B>)
    requires Below(s) && Onward(s, t)
    ensures Below(t)
  {
  }

  /** One registration after the other; `bursts[k]` happens inside the k-th. */
  ghost function RegisterAll<B>(s: State<B>, urls: seq<string>, accepted: seq<bool>,
      bursts: seq<Burst<B>>): (t: State<B>)
    requires Tracked(s) && Below(s) && |urls| == |accepted| == |bursts|
    ensures Tracked(t) && Below(t)
  {
    var n := |urls| - 1;
    if urls == [] then s
    else
      var before := RegisterAll(s, urls[..n], accepted[..n], bursts[..n]);
      RegisterTracks(before, urls[n], accepted[n]);
      var added := AfterRegister(before, urls[n], accepted[n]);
      OnwardBelow(added, Fire(added, bursts[n]));
      Fire(added, bursts[n])
  }

  ghost function FireAll<B>(s: State<B>, bursts: seq<Burst<B>>): (t: State<B>)
    requires Tracked(s) && Below(s)
    ensures Tracked(t) && Below(t) && Onward(s, t)
  {
    if bursts == [] then s
    else
      var n := |bursts| - 1;
      var before := FireAll(s, bursts[..n]);
      var t := Fire(before, bursts[n]);
      OnwardFurther(s, before, t);
      t
  }

  /** The library is done with this transfer when the timer fires. */
  ghost predicate Brings<B>(burst: Burst<B>, id: nat) {
    burst.Timer? && exists i :: 0 <= i < |burst.finished| && burst.finished[i].id == id
  }

  ghost predicate Arrives<B>(bursts: seq<Burst<B>>, id: nat) {
    exists j :: 0 <= j < |bursts| && Brings(bursts[j], id)
  }

  ghost predicate Mentions<B>(bursts: seq<Burst<B>>, id: nat) {
    exists m :: m in MentionedIn(bursts) && m.id == id
  }

  /** Nothing waits in the queue or for a callback. */
  ghost predicate Settled<B>(s: State<B>) {
    Tracked(s) && Below(s) && s.queue == [] && s.removed == []
  }

  /** What has become of a one-shot handle registered before these bursts: it is gone if the library
      accepted it and a burst brought its message, and only if it was accepted and mentioned. */
  ghost predicate Fate<B>(t: State<B>, id: nat, url: string, accepted: bool, bursts: seq<Burst<B>>) {
    && (id in t.live ==> t.live[id] == Handle(url, false, true, if accepted then Running else Idle))
    && (accepted && Arrives(bursts, id) ==> id !in t.live)
    && (id !in t.live ==> accepted && Mentions(bursts, id))
  }

  lemma {:induction false} FirstFor<B>(ms: seq<Message<B>>, i: nat) returns (k: nat)
    requires i < |ms|
    ensures IsFirst(ms, k) && ms[k].id == ms[i].id
    decreases i
  {
    k := i;
    if !IsFirst(ms, i) {
      var j :| 0 <= j < i && ms[j].id == ms[i].id;
      k := FirstFor(ms, j);
    }
  }

  /** A one-shot transfer is gone after a burst that brings its message. */
  lemma BroughtIsGone<B>(s: State<B>, burst: Burst<B>, id: nat)
    requires Tracked(s) && InPhase(s.live, id, Running) && !s.live[id].recycled && Brings(burst, id)
    ensures id !in Fire(s, burst).live
  {
    var i :| 0 <= i < |burst.finished| && burst.finished[i].id == id;
    var k := FirstFor(burst.finished, i);
    hide Fire, Tracked;
    FireServes(s, burst, k);
  }

  lemma FireSettles<B>(s: State<B>, burst: Burst<B>)
    requires Settled(s)
    ensures Settled(Fire(s, burst))
  {
    hide Tracked;
  }

  /** When nothing waits, a one-shot transfer is either gone or still running. */
  lemma GoneOrRunning<B>(s: State<B>, t: State<B>, id: nat)
    requires Settled(t) && Onward(s, t) && InPhase(s.live, id, Running) && !s.live[id].recycled && id in t.live
    ensures t.live[id] == s.live[id]
  {
    assert !InPhase(t.live, id, Finished) && !InPhase(t.live, id, Detached);
  }

  lemma {:induction false} MentionedPush<B>(bursts: seq<Burst<B>>, burst: Burst<B>)
    ensures MentionedIn(bursts + [burst]) == MentionedIn(bursts) + Mentioned(burst)
  {
    hide Mentioned;
    if bursts == [] {
      assert bursts + [burst] == [burst] && [burst][1..] == [];
      assert MentionedIn([burst]) == Mentioned(burst) + MentionedIn([]);
    } else {
      MentionedPush(bursts[1..], burst);
      assert (bursts + [burst])[1..] == bursts[1..] + [burst];
    }
  }

  lemma ArrivesPush<B>(bursts: seq<Burst<B>>, burst: Burst<B>, id: nat)
    requires Arrives(bursts + [burst], id)
    ensures Arrives(bursts, id) || Brings(burst, id)
  {
    hide Brings;
    var j :| 0 <= j < |bursts + [burst]| && Brings((bursts + [burst])[j], id);
    if j < |bursts| {
      assert Brings(bursts[j], id);
    }
  }

  lemma FateOfRunning<B>(s: State<B>, burst: Burst<B>, id: nat, url: string)
    requires Settled(s) && id in s.live && s.live[id] == Handle(url, false, true, Running)
    ensures id in Fire(s, burst).live ==> Fire(s, burst).live[id] == s.live[id]
    ensures Brings(burst, id) ==> id !in Fire(s, burst).live
    ensures id !in Fire(s, burst).live ==> exists m :: m in Mentioned(burst) && m.id == id
  {
    var t := Fire(s, burst);
    FireSettles(s, burst);
    hide Fire, Tracked, Mentioned, Brings;
    if Brings(burst, id) {
      BroughtIsGone(s, burst, id);
    }
    if id in t.live {
      GoneOrRunning(s, t, id);
    } else if forall m | m in Mentioned(burst) :: m.id != id {
      FireRunsOn(s, burst, id);
    }
  }

  lemma FireFate<B>(s: State<B>, id: nat, url: string, accepted: bool, bursts: seq<Burst<B>>, burst: Burst<B>)
    requires Settled(s) && Fate(s, id, url, accepted, bursts)
    ensures Settled(Fire(s, burst)) && Fate(Fire(s, burst), id, url, accepted, bursts + [burst])
  {
    var t := Fire(s, burst);
    FireSettles(s, burst);
    MentionedPush(bursts, burst);
    assert Onward(s, t);
    hide Fire, Tracked, Mentioned, MentionedIn, Brings, Arrives, Settled;
    if Arrives(bursts + [burst], id) {
      ArrivesPush(bursts, burst, id);
    }
    if id !in s.live {
      var m :| m in MentionedIn(bursts) && m.id == id;
      assert m in MentionedIn(bursts + [burst]);
    } else if accepted {
      FateOfRunning(s, burst, id, url);
    }
  }

  lemma RegisterFate<B>(s: State<B>, url: string, accepted: bool)
    requires Settled(s)
    ensures var t := AfterRegister(s, url, accepted);
            && Settled(t) && t.urls == s.urls + [url] && Fate(t, |s.urls|, url, accepted, [])
            && forall id | id < |s.urls| ::
                 (id in t.live <==> id in s.live) && (id in t.live ==> t.live[id] == s.live[id])
  {
    RegisterTracks(s, url, accepted);
    hide Tracked;
  }

  lemma OthersFate<B>(s: State<B>, t: State<B>, id: nat, url: string, accepted: bool, bursts: seq<Burst<B>>)
    requires Fate(s, id, url, accepted, bursts)
    requires (id in t.live <==> id in s.live) && (id in t.live ==> t.live[id] == s.live[id])
    ensures Fate(t, id, url, accepted, bursts)
  {
    hide Arrives, Mentions;
  }

  lemma SettledTracks<B>(s: State<B>)
    requires Settled(s)
    ensures Tracked(s) && Below(s)
  {
  }

  lemma RegisterLast<B>(s: State<B>, urls: seq<string>, accepted: seq<bool>, bursts: seq<Burst<B>>)
    requires Tracked(s) && Below(s) && urls != [] && |urls| == |accepted| == |bursts|
    ensures var n := |urls| - 1;
            var added := AfterRegister(RegisterAll(s, urls[..n], accepted[..n], bursts[..n]), urls[n], accepted[n]);
            Tracked(added) && RegisterAll(s, urls, accepted, bursts) == Fire(added, bursts[n])
  {
    hide Tracked, Below, AfterRegister, Fire;
    var n := |urls| - 1;
    RegisterTracks(RegisterAll(s, urls[..n], accepted[..n], bursts[..n]), urls[n], accepted[n]);
  }

  lemma RegisterPush<B>(s: State<B>, urls: seq<string>, accepted: seq<bool>, bursts: seq<Burst<B>>, url: string,
      a: bool, burst: Burst<B>)
    requires Tracked(s) && Below(s) && |urls| == |accepted| == |bursts|
    ensures var added := AfterRegister(RegisterAll(s, urls, accepted, bursts), url, a);
            Tracked(added) && RegisterAll(s, urls + [url], accepted + [a], bursts + [burst]) == Fire(added, burst)
  {
    hide *;
    RegisterLast(s, urls + [url], accepted + [a], bursts + [burst]);
    assert (urls + [url])[..|urls|] == urls && (accepted + [a])[..|urls|] == accepted;
    assert (bursts + [burst])[..|urls|] == bursts;
  }

  lemma FirePush<B>(s: State<B>, bursts: seq<Burst<B>>, burst: Burst<B>)
    requires Tracked(s) && Below(s)
    ensures FireAll(s, bursts + [burst]) == Fire(FireAll(s, bursts), burst)
  {
    hide *;
    FireLast(s, bursts + [burst]);
    assert (bursts + [burst])[..|bursts|] == bursts;
  }

  lemma FireUrls<B>(s: State<B>, burst: Burst<B>)
    requires Tracked(s)
    ensures Fire(s, burst).urls == s.urls
  {
    hide Tracked, Fire;
  }

  lemma {:induction false} RegisteredSettles<B>(s: State<B>, urls: seq<string>, accepted: seq<bool>,
      bursts: seq<Burst<B>>)
    requires Tracked(s) && Below(s) && Settled(s) && |urls| == |accepted| == |bursts|
    ensures Settled(RegisterAll(s, urls, accepted, bursts))
    ensures RegisterAll(s, urls, accepted, bursts).urls == s.urls + urls
    decreases |urls|
  {
    hide *;
    if urls == [] {
      RegisterNone(s, accepted, bursts);
    } else {
      var n := |urls| - 1;
      var before := RegisterAll(s, urls[..n], accepted[..n], bursts[..n]);
      var added := AfterRegister(before, urls[n], accepted[n]);
      RegisterLast(s, urls, accepted, bursts);
      RegisteredSettles(s, urls[..n], accepted[..n], bursts[..n]);
      RegisterFate(before, urls[n], accepted[n]);
      FireSettles(added, bursts[n]);
      FireUrls(added, bursts[n]);
      assert s.urls + urls[..n] + [urls[n]] == s.urls + urls;
    }
  }

  lemma RegisterNone<B>(s: State<B>, accepted: seq<bool>, bursts: seq<Burst<B>>)
    requires Tracked(s) && Below(s) && 0 == |accepted| == |bursts|
    ensures RegisterAll(s, [], accepted, bursts) == s
    ensures s.urls + [] == s.urls
  {
    hide Tracked, Below;
  }

  /** The fate of every handle, after all registrations. */
  lemma {:induction false} RegisteredFate<B>(s: State<B>, urls: seq<string>, accepted: seq<bool>, bursts: seq<Burst<B>>,
      k: nat)
    requires Tracked(s) && Below(s) && Settled(s) && s.urls == [] && k < |urls| == |accepted| == |bursts|
    ensures Fate(RegisterAll(s, urls, accepted, bursts), k, urls[k], accepted[k], bursts[k..])
    decreases |urls|
  {
    hide *;
    var n := |urls| - 1;
    var before := RegisterAll(s, urls[..n], accepted[..n], bursts[..n]);
    var added := AfterRegister(before, urls[n], accepted[n]);
    RegisterLast(s, urls, accepted, bursts);
    RegisteredSettles(s, urls[..n], accepted[..n], bursts[..n]);
    RegisterFate(before, urls[n], accepted[n]);
    assert |before.urls| == n;
    if k < n {
      var earlier := bursts[..n][k..];
      RegisteredFate(s, urls[..n], accepted[..n], bursts[..n], k);
      OthersFate(before, added, k, urls[k], accepted[k], earlier);
      FireFate(added, k, urls[k], accepted[k], earlier, bursts[n]);
      assert earlier + [bursts[n]] == bursts[k..];
    } else {
      FireFate(added, n, urls[n], accepted[n], [], bursts[n]);
      assert [] + [bursts[n]] == bursts[n..];
    }
  }

  lemma FireLast<B>(s: State<B>, rest: seq<Burst<B>>)
    requires Tracked(s) && Below(s) && rest != []
    ensures FireAll(s, rest) == Fire(FireAll(s, rest[..|rest| - 1]), rest[|rest| - 1])
  {
    hide Tracked, Below, Onward, Fire;
  }

  lemma FireNone<B>(s: State<B>)
    requires Tracked(s) && Below(s)
    ensures FireAll(s, []) == s
  {
    hide Tracked, Below, Onward;
  }

  /** And after the event loop. */
  lemma {:induction false} LoopFate<B>(s: State<B>, id: nat, url: string, accepted: bool, bursts: seq<Burst<B>>,
      rest: seq<Burst<B>>)
    requires Tracked(s) && Below(s) && Settled(s) && Fate(s, id, url, accepted, bursts)
    ensures Settled(FireAll(s, rest)) && Fate(FireAll(s, rest), id, url, accepted, bursts + rest)
    decreases |rest|
  {
    hide *;
    if rest == [] {
      FireNone(s);
      assert bursts + [] == bursts;
    } else {
      var n := |rest| - 1;
      LoopFate(s, id, url, accepted, bursts, rest[..n]);
      FireLast(s, rest);
      FireFate(FireAll(s, rest[..n]), id, url, accepted, bursts + rest[..n], rest[n]);
      assert bursts + rest[..n] + [rest[n]] == bursts + rest;
    }
  }

  /** Registrations with `bursts` inside them, and then an event loop with `rest`. */
  ghost function AfterAll<B>(urls: seq<string>, accepted: seq<bool>, bursts: seq<Burst<B>>,
      rest: seq<Burst<B>>): State<B>
    requires |urls| == |accepted| == |bursts|
  {
    FireAll(RegisterAll(Initial(), urls, accepted, bursts), rest)
  }

  lemma InitialSettles<B>()
    ensures Settled(Initial<B>())
  {
  }

  lemma AfterAllFate<B>(urls: seq<string>, accepted: seq<bool>, bursts: seq<Burst<B>>, rest: seq<Burst<B>>, k: nat)
    requires k < |urls| == |accepted| == |bursts|
    ensures Fate(AfterAll(urls, accepted, bursts, rest), k, urls[k], accepted[k], bursts[k..] + rest)
  {
    InitialSettles<B>();
    SettledTracks(Initial<B>());
    hide Fate, Settled, RegisterAll, FireAll, Tracked, Below;
    RegisteredSettles(Initial(), urls, accepted, bursts);
    RegisteredFate(Initial(), urls, accepted, bursts, k);
    LoopFate(RegisterAll(Initial(), urls, accepted, bursts), k, urls[k], accepted[k], bursts[k..], rest);
  }

  lemma AfterAllHandles<B>(urls: seq<string>, accepted: seq<bool>, bursts: seq<Burst<B>>, rest: seq<Burst<B>>)
    requires |urls| == |accepted| == |bursts|
    ensures AfterAll(urls, accepted, bursts, rest).urls == urls && Below(AfterAll(urls, accepted, bursts, rest))
  {
    InitialSettles<B>();
    SettledTracks(Initial<B>());
    hide RegisterAll, FireAll, Tracked, Below, Settled;
    RegisteredSettles(Initial(), urls, accepted, bursts);
    assert [] + urls == urls;
  }

  lemma NoneLeft<B>(t: State<B>)
    requires Below(t) && forall k: nat | k < |t.urls| :: k !in t.live
    ensures t.live == map[]
  {
  }

  /** After the event loop no handle is left if every registration was accepted and a burst inside it
      or later brought its message; and only if every one was accepted and is mentioned there. */
  lemma AllServed<B>(urls: seq<string>, accepted: seq<bool>, bursts: seq<Burst<B>>, rest: seq<Burst<B>>)
    requires |urls| == |accepted| == |bursts|
    ensures (forall k: nat | k < |urls| :: accepted[k] && Arrives(bursts[k..] + rest, k)) ==>
              AfterAll(urls, accepted, bursts, rest).live == map[]
    ensures AfterAll(urls, accepted, bursts, rest).live == map[] ==>
              forall k: nat | k < |urls| :: accepted[k] && Mentions(bursts[k..] + rest, k)
  {
    var t := AfterAll(urls, accepted, bursts, rest);
    AfterAllHandles(urls, accepted, bursts, rest);
    hide AfterAll, Arrives, Mentions, Below;
    if forall k: nat | k < |urls| :: accepted[k] && Arrives(bursts[k..] + rest, k) {
      forall k: nat | k < |urls| ensures k !in t.live {
        AfterAllFate(urls, accepted, bursts, rest, k);
      }
      NoneLeft(t);
    }
    if t.live == map[] {
      forall k: nat | k < |urls| ensures accepted[k] && Mentions(bursts[k..] + rest, k) {
        AfterAllFate(urls, accepted, bursts, rest, k);
      }
    }
  }

  lemma RegisterOnlyFrom<B>(s: State<B>, url: string, accepted: bool)
    ensures OnlyFrom(s, AfterRegister(s, url, accepted), [])
  {
    hide Messages;
  }

  lemma {:induction false} RegisteredOnlyFrom<B>(s: State<B>, urls: seq<string>, accepted: seq<bool>,
      bursts: seq<Burst<B>>)
    requires Tracked(s) && Below(s) && |urls| == |accepted| == |bursts|
    ensures OnlyFrom(s, RegisterAll(s, urls, accepted, bursts), MentionedIn(bursts))
    decreases |urls|
  {
    if urls == [] {
      RegisterNone(s, accepted, bursts);
    } else {
      hide *;
      var n := |urls| - 1;
      var before := RegisterAll(s, urls[..n], accepted[..n], bursts[..n]);
      var added := AfterRegister(before, urls[n], accepted[n]);
      RegisterLast(s, urls, accepted, bursts);
      RegisteredOnlyFrom(s, urls[..n], accepted[..n], bursts[..n]);
      RegisterOnlyFrom(before, urls[n], accepted[n]);
      OnlyFromFurther(s, before, added, MentionedIn(bursts[..n]), []);
      FireOnlyFrom(added, bursts[n]);
      assert MentionedIn(bursts[..n]) + [] == MentionedIn(bursts[..n]);
      OnlyFromFurther(s, added, Fire(added, bursts[n]), MentionedIn(bursts[..n]), Mentioned(bursts[n]));
      MentionedPush(bursts[..n], bursts[n]);
      assert bursts[..n] + [bursts[n]] == bursts;
    }
  }

  lemma {:induction false} LoopOnlyFrom<B>(r: State<B>, s: State<B>, bursts: seq<Burst<B>>, rest: seq<Burst<B>>)
    requires Tracked(s) && Below(s) && OnlyFrom(r, s, MentionedIn(bursts))
    ensures OnlyFrom(r, FireAll(s, rest), MentionedIn(bursts + rest))
    decreases |rest|
  {
    hide *;
    if rest == [] {
      FireNone(s);
      assert bursts + [] == bursts;
    } else {
      var n := |rest| - 1;
      var before := FireAll(s, rest[..n]);
      LoopOnlyFrom(r, s, bursts, rest[..n]);
      FireLast(s, rest);
      FireOnlyFrom(before, rest[n]);
      OnlyFromFurther(r, before, Fire(before, rest[n]), MentionedIn(bursts + rest[..n]), Mentioned(rest[n]));
      MentionedPush(bursts + rest[..n], rest[n]);
      assert bursts + rest[..n] + [rest[n]] == bursts + rest;
    }
  }

  /** Every callback receives a message that a burst brought. */
  lemma CalledIsMentioned<B>(urls: seq<string>, accepted: seq<bool>, bursts: seq<Burst<B>>, rest: seq<Burst<B>>,
      m: Message<B>)
    requires |urls| == |accepted| == |bursts| && m in Messages(AfterAll(urls, accepted, bursts, rest).calls)
    ensures m in MentionedIn(bursts + rest)
  {
    InitialSettles<B>();
    SettledTracks(Initial<B>());
    hide Messages, RegisterAll, FireAll, Tracked, Below, Settled, MentionedIn;
    RegisteredOnlyFrom(Initial(), urls, accepted, bursts);
    LoopOnlyFrom(Initial(), RegisterAll(Initial(), urls, accepted, bursts), bursts, rest);
    assert Messages<B>([]) == [];
  }

  /** No timer fires inside a removal, or none that brings a message. */
  predicate Unnested<B>(bursts: seq<Burst<B>>) {
    forall j | 0 <= j < |bursts| && bursts[j].Timer? :: MentionedIn(bursts[j].inside) == []
  }

  lemma {:induction false} UnnestedArrives<B>(bursts: seq<Burst<B>>, id: nat)
    requires Unnested(bursts) && Mentions(bursts, id)
    ensures Arrives(bursts, id)
  {
    var m :| m in MentionedIn(bursts) && m.id == id;
    if m in Mentioned(bursts[0]) {
      assert Brings(bursts[0], id);
    } else {
      UnnestedArrives(bursts[1..], id);
      var j :| 0 <= j < |bursts[1..]| && Brings(bursts[1..][j], id);
      assert Brings(bursts[j + 1], id);
    }
  }

  /** If no timer brings a message inside a removal, no handle is left exactly when every registration
      was accepted and a burst inside it or later brought its message. */
  lemma AllServedIff<B>(urls: seq<string>, accepted: seq<bool>, bursts: seq<Burst<B>>, rest: seq<Burst<B>>)
    requires |urls| == |accepted| == |bursts| && Unnested(bursts) && Unnested(rest)
    ensures AfterAll(urls, accepted, bursts, rest).live == map[] <==>
            forall k: nat | k < |urls| :: accepted[k] && Arrives(bursts[k..] + rest, k)
  {
    AllServed(urls, accepted, bursts, rest);
    hide AfterAll, Arrives, Mentions;
    forall k: nat | k < |urls| && Mentions(bursts[k..] + rest, k) ensures Arrives(bursts[k..] + rest, k) {
      UnnestedArrives(bursts[k..] + rest, k);
    }
  }

  // ---- the multi-handle ----

  /** The effect of a series of callbacks on the data they share. */
  function Deliver<B, W>(callback: (W, string, Message<B>) -> W, user: W, calls: seq<Call<B>>): W {
    if calls == [] then user
    else
      var last := calls[|calls| - 1];
      callback(Deliver(callback, user, calls[..|calls| - 1]), last.url, last.m)
  }

  lemma DeliverPush<B, W>(callback: (W, string, Message<B>) -> W, user: W, calls: seq<Call<B>>, c: Call<B>)
    ensures Deliver(callback, user, calls + [c]) == callback(Deliver(callback, user, calls), c.url, c.m)
  {
    assert (calls + [c])[..|calls|] == calls;
  }

  /** The log has grown, by steps that create no handle. */
  ghost predicate Grown<B>(before: seq<Action<B>>, after: seq<Action<B>>) {
    && |before| <= |after| && after[..|before|] == before
    && forall i | |before| <= i < |after| :: !after[i].DoCreate?
  }

  lemma GrownFurther<B>(x: seq<Action<B>>, y: seq<Action<B>>, z: seq<Action<B>>)
    requires Grown(x, y) && Grown(y, z)
    ensures Grown(x, z)
  {
    assert z[..|x|] == z[..|y|][..|x|] == x;
    assert forall i | |x| <= i < |y| :: z[i] == z[..|y|][i];
  }

  lemma GrownOneShots<B>(before: seq<Action<B>>, after: seq<Action<B>>)
    requires OneShots(before) && Grown(before, after)
    ensures OneShots(after)
  {
    assert forall i | 0 <= i < |before| :: after[i] == after[..|before|][i];
  }

  /** The multi-handle over the data W that its callbacks update. `log` records what was done. */
  class MultiCURL<B, W> {
    const callback: (W, string, Message<B>) -> W
    ghost const start: W
    var user: W
    var urls: seq<string>
    var live: map<nat, Handle>
    var queue: seq<Message<B>>
    var removed: seq<Message<B>>
    ghost var calls: seq<Call<B>>
    ghost var trace: seq<Logged>
    ghost var log: seq<Action<B>>

    ghost function Model(): State<B>
      reads this
    {
      State(urls, live, queue, removed, calls, trace)
    }

    ghost predicate Valid()
      reads this
    {
      && IsRun(Initial(), log)
      && Model() == Run(Initial(), log)
      && Tracked(Model()) && Below(Model())
      && user == Deliver(callback, start, calls)
    }

    constructor (callback: (W, string, Message<B>) -> W, user: W)
      ensures Valid() && this.callback == callback && this.user == start == user && log == []
    {
      this.callback := callback;
      this.start := user;
      this.user := user;
      urls, live, queue, removed := [], map[], [], [];
      calls, trace, log := [], [], [];
    }

    /** The fields have taken one step: note it in the log. */
    ghost method Record(before: State<B>, a: Action<B>)
      requires IsRun(Initial(), log) && before == Run(Initial(), log)
      requires Enabled(before, a) && Model() == Step(before, a) && user == Deliver(callback, start, calls)
      modifies this`log
      ensures Valid() && log == old(log) + [a]
    {
      Followed(Initial(), log, a);
      RunKeeps(Initial<B>(), log + [a]);
      hide Run, IsRun, Step, Enabled, Deliver, Tracked, Below;
      log := log + [a];
    }

    method Create(url: string, recycled: bool, hasCallback: bool) returns (id: nat)
      requires Valid()
      modifies this
      ensures Valid() && log == old(log) + [DoCreate(url, recycled, hasCallback)]
      ensures id == |old(urls)| && id in live && live[id] == Handle(url, recycled, hasCallback, Idle)
      ensures user == old(user) && Model() == AfterCreate(old(Model()), url, recycled, hasCallback)
    {
      hide Run, IsRun, Deliver, Tracked, Below;
      ghost var before := Model();
      id := |urls|;
      live := live[id := Handle(url, recycled, hasCallback, Idle)];
      urls := urls + [url];
      trace := trace + [Logged(id, Created(recycled, hasCallback))];
      Record(before, DoCreate(url, recycled, hasCallback));
    }

    /** `accepted` is what the library says to a handle that is not with it. */
    method Add(id: nat, accepted: bool)
      requires Valid() && id in live && !live[id].phase.Detached?
      modifies this
      ensures Valid() && log == old(log) + [DoAdd(id, accepted)]
      ensures user == old(user) && Model() == AfterAdd(old(Model()), id, accepted)
    {
      hide Run, IsRun, Deliver, Tracked, Below;
      ghost var before := Model();
      if accepted && live[id].phase.Idle? {
        live := live[id := live[id].(phase := Running)];
        trace := trace + [Logged(id, Added)];
      }
      Record(before, DoAdd(id, accepted));
    }

    /** EventHub::register_event: create a one-shot handle, then add it. */
    method RegisterEvent(url: string, accepted: bool)
      requires Valid()
      modifies this
      ensures Valid() && user == old(user) && Model() == AfterRegister(old(Model()), url, accepted)
      ensures log == old(log) + [DoCreate(url, false, true), DoAdd(|old(urls)|, accepted)]
    {
      var id := Create(url, false, true);
      Add(id, accepted);
    }

    /** The library's own step: a running transfer ends and its message is queued; a message for
        any other handle cannot happen and is ignored. */
    method LibraryFinishes(m: Message<B>)
      requires Valid()
      modifies this
      ensures Valid() && user == old(user) && Model() == AfterReport(old(Model()), m)
      ensures log == old(log) + if m.id in old(live) && old(live)[m.id].phase.Running? then [DoFinish(m)] else []
    {
      hide Run, IsRun, Deliver, Tracked, Below;
      if m.id in live && live[m.id].phase.Running? {
        ghost var before := Model();
        live := live[m.id := live[m.id].(phase := Finished)];
        queue := queue + [m];
        Record(before, DoFinish(m));
      }
    }

    /** The first half of an iteration: read a message and remove its handle. */
    method RemoveFirst()
      requires Valid() && queue != []
      modifies this
      ensures Valid() && old(queue)[0].id in old(live) && Model() == AfterRemove(old(Model()))
      ensures user == old(user) && log == old(log) + [DoRemove]
    {
      TrackedPhases(Model());
      hide Run, IsRun, Deliver, Tracked, Below;
      ghost var before := Model();
      var m := queue[0];
      live := live[m.id := live[m.id].(phase := Detached)];
      queue := queue[1..];
      removed := removed + [m];
      trace := trace + [Logged(m.id, Removed)];
      Record(before, DoRemove);
    }

    /** `if (handle->cb) handle->cb(res, handle)` */
    method CallBack(h: Handle, m: Message<B>)
      requires user == Deliver(callback, start, calls)
      modifies this`user, this`calls
      ensures user == Deliver(callback, start, calls)
      ensures calls == if h.hasCallback then old(calls) + [Call(h.url, m)] else old(calls)
    {
      if h.hasCallback {
        DeliverPush(callback, start, calls, Call(h.url, m));
        user := callback(user, h.url, m);
        calls := calls + [Call(h.url, m)];
      }
    }

    /** `if (!handle->recycled) delete handle` */
    method Release(id: nat)
      requires id in live
      modifies this`live
      ensures live == Released(old(live), id)
    {
      if !live[id].recycled {
        live := map other | other in live && other != id :: live[other];
      } else {
        live := live[id := live[id].(phase := Idle)];
      }
    }

    /** Take the handle removed last off the stack, call back, and delete it unless it is recycled. */
    method FinishLast()
      requires removed != [] && Top(Model()).id in live && user == Deliver(callback, start, calls)
      modifies `removed, `trace, `user, `calls, `live
      ensures Model() == AfterCall(old(Model())) && user == Deliver(callback, start, calls)
    {
      hide Deliver, Released, Epilogue;
      var m := removed[|removed| - 1];
      var h := live[m.id];
      removed := removed[..|removed| - 1];
      trace := trace + Epilogue(m.id, h);
      CallBack(h, m);
      Release(m.id);
    }

    /** The second half of an iteration. */
    method CallBackLast()
      requires Valid() && removed != []
      modifies this
      ensures Valid() && Top(old(Model())).id in old(live) && Model() == AfterCall(old(Model()))
      ensures log == old(log) + [DoCall]
    {
      CallEnabled(Model());
      hide Run, IsRun, Deliver, Tracked, Below, Enabled, Step, AfterCall;
      ghost var before := Model();
      FinishLast();
      Record(before, DoCall);
    }

    /** curl_timer_handler: what it makes the library do, and then check_multi_info. */
    method SocketAction(burst: Burst<B>)
      requires Valid()
      modifies this
      ensures Valid() && Grown(old(log), log)
      ensures Model() == Fire(old(Model()), burst)
      decreases burst
    {
      hide Run, IsRun, Deliver, Tracked, Below, Onward, Drain, Fire;
      ghost var before := Model();
      if burst.NoTimer? {
        FireNothing(before);
      } else {
        FireIsDrain(before, burst);
        for i := 0 to |burst.finished|
          invariant Valid() && Grown(old(log), log)
          invariant Model() == Reported(old(Model()), burst.finished[..i])
        {
          LibraryFinishes(burst.finished[i]);
          assert burst.finished[..i + 1][..i] == burst.finished[..i];
        }
        assert burst.finished[..|burst.finished|] == burst.finished;
        ghost var logged := log;
        CheckMultiInfo(burst.inside);
        GrownFurther(old(log), logged, log);
      }
    }

    /** check_multi_info: drain the message queue; `inside[i]` happens inside the i-th removal. */
    method CheckMultiInfo(inside: seq<Burst<B>>)
      requires Valid()
      modifies this
      ensures Valid() && Grown(old(log), log)
      ensures Model() == Drain(old(Model()), inside)
      decreases inside
    {
      hide Run, IsRun, Deliver, Tracked, Below, Onward, Drain, Fire;
      assert inside[0..] == inside;
      var i := 0;
      while queue != []
        invariant Valid() && Grown(old(log), log) && i <= |inside|
        invariant Drain(Model(), inside[i..]) == Drain(old(Model()), inside)
        decreases |inside| - i, |queue|
      {
        DrainRound(Model(), inside[i..]);
        RemoveFirst();
        if i < |inside| {
          ghost var before := log;
          SocketAction(inside[i]);
          GrownFurther(old(log), before, log);
          i := i + 1;
        }
        CallBackLast();
      }
      DrainNone(Model(), inside[i..]);
    }
  }
}
