/** The ZooKeeper session handle zzh_ under its recursive mutex, run by the initial start, the
    refresh loop and the watcher threads in any interleaving. */
module Session {

  datatype Option<T> = None | Some(value: T)

  // ---- the programs ----

  /** What a watcher event says about its handle's session. */
  datatype Kind = Connected | Expired | OtherEvent

  datatype Role = Main | Loop | Watcher(handle: nat, kind: Kind)

  datatype Instr =
    | Lock
    | Unlock
    | RefuseIfRunning  // start_zk: with a handle present, return -1
    | Open             // zookeeper_init: a new handle, or null
    | Publish          // zzh_ = its result
    | CloseIfAny       // finalize_zk: zookeeper_close(zzh_), if there is a handle
    | Clear            // zzh_ = NULL
    | CheckCurrent     // zk_watcher: leave if the event's handle is not zzh_
    | Update           // updateModelServerList: reads zzh_ only
    | ReadConnected    // is_connected
    | Branch           // the loop: update if connected, else stop and start

  /** start_zk, without the wait for the connection, which leaves zzh_ alone. */
  function StartProgram(): seq<Instr> { [Lock, RefuseIfRunning, Open, Publish, Unlock] }

  /** finalize_zk. */
  function StopProgram(): seq<Instr> { [Lock, CloseIfAny, Clear, Unlock] }

  /** The initial start runs start_zk; the loop and a watcher of an expired session run finalize_zk
      and then start_zk, the loop between two lockings and the watcher inside its own. */
  function Program(role: Role): seq<Instr> {
    match role
    case Main => StartProgram()
    case Loop => [Lock, ReadConnected, Unlock, Branch] + StopProgram() + StartProgram()
    case Watcher(_, Expired) => [Lock, CheckCurrent] + StopProgram() + StartProgram() + [Unlock]
    case Watcher(_, Connected) => [Lock, CheckCurrent, Update, Unlock]
    case Watcher(_, OtherEvent) => [Lock, CheckCurrent, Unlock]
  }

  // ---- where a thread is in its program ----

  /** A watcher's stale check, and where its stop and its start begin if its session has expired. */
  const EVENT_CHECK: nat := 1
  const EVENT_STOP: nat := 2
  const EVENT_START: nat := EVENT_STOP + STOP_LENGTH

  /** Where the loop's stop and its start begin. */
  const LOOP_STOP: nat := 4
  const LOOP_START: nat := LOOP_STOP + STOP_LENGTH

  /** The instructions of a stop, counted from its beginning; the last one is its unlock. */
  const CLOSE: nat := 1
  const CLEAR: nat := 2
  const STOPPED: nat := 3
  const STOP_LENGTH: nat := 4

  /** The instructions of a start; the last one is its unlock. */
  const REFUSE: nat := 1
  const OPEN: nat := 2
  const PUBLISH: nat := 3
  const STARTED: nat := 4
  const START_LENGTH: nat := 5

  /** A watcher of an expired session, the only kind of watcher that restarts it. */
  predicate Restarts(k: Task) { k.role.Watcher? && k.role.kind.Expired? }

  // ---- states and steps ----

  /** The session data: zzh_, how many handles have been opened so far (they are numbered in that
      order), and the handles closed, in order. */
  datatype Core = Core(zzh: Option<nat>, issued: nat, closes: seq<nat>)

  /** A thread: its next instruction, the result of its Open and of its ReadConnected. */
  datatype Task = Task(role: Role, pc: nat, got: Option<nat>, connected: bool)

  /** The recursive mutex is held by `holder`, `depth` times. `refusals` lists the threads whose
      start was refused. Thread 0 is the initial start, thread 1 the loop. */
  datatype State = State(core: Core, holder: Option<nat>, depth: nat, tasks: seq<Task>, refusals: seq<nat>)

  function Initial(): State {
    State(Core(None, 0, []), None, 0, [Task(Main, 0, None, false), Task(Loop, 0, None, false)], [])
  }

  /** What a thread's next instruction does to the data and to the thread. `answer` is what the
      library says: zookeeper_init succeeds, or the session is connected. */
  function After(c: Core, k: Task, answer: bool): (Core, Task)
    requires k.pc < |Program(k.role)|
  {
    var next := k.(pc := k.pc + 1);
    match Program(k.role)[k.pc]
    case RefuseIfRunning => (c, if c.zzh.Some? then k.(pc := k.pc + 3) else next)
    case Open => if answer then (c.(issued := c.issued + 1), next.(got := Some(c.issued))) else (c, next.(got := None))
    case Publish => (c.(zzh := k.got), next)
    case CloseIfAny => if c.zzh.Some? then (c.(closes := c.closes + [c.zzh.value]), next) else (c, k.(pc := k.pc + 2))
    case Clear => (c.(zzh := None), next)
    case CheckCurrent =>
      (c, if k.role.Watcher? && c.zzh == Some(k.role.handle) then next else k.(pc := |Program(k.role)| - 1))
    case ReadConnected => (c, next.(connected := c.zzh.Some? && answer))
    case Branch => (c, if k.connected then k.(pc := |Program(k.role)|) else next)
    case _ => (c, next)
  }

  datatype Action =
    | Exec(thread: nat, answer: bool)
    | Deliver(handle: nat, kind: Kind)  // the client library reports an event of a handle
    | LoopAgain                         // the loop's next round

  predicate Enabled(s: State, a: Action) {
    match a
    case Exec(t, _) =>
      && t < |s.tasks|
      && s.tasks[t].pc < |Program(s.tasks[t].role)|
      && (Program(s.tasks[t].role)[s.tasks[t].pc].Lock? ==> s.holder == None || s.holder == Some(t))
    case Deliver(h, _) => h < s.core.issued
    case LoopAgain => 1 < |s.tasks| && s.tasks[1].pc == |Program(Loop)|
  }

  function Execute(s: State, t: nat, answer: bool): State
    requires Enabled(s, Exec(t, answer))
  {
    var k := s.tasks[t];
    var instr := Program(k.role)[k.pc];
    var (core, next) := After(s.core, k, answer);
    State(core,
          if instr.Lock? then Some(t) else if instr.Unlock? && s.depth <= 1 then None else s.holder,
          if instr.Lock? then s.depth + 1
          else if instr.Unlock? then (if s.depth <= 1 then 0 else s.depth - 1)
          else s.depth,
          s.tasks[t := next],
          if instr.RefuseIfRunning? && s.core.zzh.Some? then s.refusals + [t] else s.refusals)
  }

  function Step(s: State, a: Action): State
    requires Enabled(s, a)
  {
    match a
    case Exec(t, answer) => Execute(s, t, answer)
    case Deliver(h, kind) => s.(tasks := s.tasks + [Task(Watcher(h, kind), 0, None, false)])
    case LoopAgain => s.(tasks := s.tasks[1 := s.tasks[1].(pc := 0)])
  }

  predicate IsRun(s: State, actions: seq<Action>)
    decreases |actions|
  {
    actions == [] || (Enabled(s, actions[0]) && IsRun(Step(s, actions[0]), actions[1..]))
  }

  function Run(s: State, actions: seq<Action>): State
    requires IsRun(s, actions)
    decreases |actions|
  {
    if actions == [] then s else Run(Step(s, actions[0]), actions[1..])
  }

  /** One step more in front of a run. */
  lemma Preceded(s: State, a: Action, t: State, rest: seq<Action>) returns (actions: seq<Action>)
    requires Enabled(s, a) && Step(s, a) == t && IsRun(t, rest)
    ensures IsRun(s, actions) && Run(s, actions) == Run(t, rest)
  {
    hide Step, Enabled;
    actions := [a] + rest;
    assert actions[1..] == rest;
  }

  // ---- the invariant ----

  /** 1 inside a section of `length` instructions that begins with its lock at `first`. */
  function Inside(pc: nat, first: nat, length: nat): nat {
    if first < pc < first + length then 1 else 0
  }

  /** How often a thread holds the mutex before its instruction pc. */
  function Depth(role: Role, pc: nat): nat {
    match role
    case Main => Inside(pc, 0, START_LENGTH)
    case Loop => Inside(pc, 0, 3) + Inside(pc, LOOP_STOP, STOP_LENGTH) + Inside(pc, LOOP_START, START_LENGTH)
    case Watcher(_, Expired) =>
      Inside(pc, 0, 12) + Inside(pc, EVENT_STOP, STOP_LENGTH) + Inside(pc, EVENT_START, START_LENGTH)
    case Watcher(_, Connected) => Inside(pc, 0, 4)
    case Watcher(_, OtherEvent) => Inside(pc, 0, 3)
  }

  ghost predicate AllClosed(issued: nat, closes: seq<nat>) {
    forall h | 0 <= h < issued :: h in closes
  }

  ghost predicate OnlyOpen(issued: nat, closes: seq<nat>, h: nat) {
    && h < issued && h !in closes
    && forall g | 0 <= g < issued && g != h :: g in closes
  }

  /** zzh_ is null when every handle is closed, and otherwise the one handle that is not. */
  ghost predicate Consistent(c: Core) {
    if c.zzh.None? then AllClosed(c.issued, c.closes) else OnlyOpen(c.issued, c.closes, c.zzh.value)
  }

  /** Only opened handles are closed, and each at most once. */
  ghost predicate ClosedOnce(issued: nat, closes: seq<nat>) {
    && (forall i | 0 <= i < |closes| :: closes[i] < issued)
    && (forall i, j | 0 <= i < j < |closes| :: closes[i] != closes[j])
  }

  /** A watcher between a passed check and its close; a thread after its stop, still holding the
      mutex. */
  predicate Checked(k: Task) { Restarts(k) && EVENT_STOP <= k.pc <= EVENT_STOP + CLOSE }

  predicate Cleared(k: Task) {
    || (k.role.Loop? && k.pc == LOOP_STOP + STOPPED)
    || (Restarts(k) && EVENT_STOP + STOPPED <= k.pc <= EVENT_START + REFUSE)
  }

  /** What holds of the data before the next instruction of a thread inside locked code. */
  ghost predicate InsideFits(c: Core, k: Task) {
    && k.pc < |Program(k.role)|
    && match Program(k.role)[k.pc]
       case Clear => c.zzh.Some? && AllClosed(c.issued, c.closes)
       case Open => c.zzh.None? && AllClosed(c.issued, c.closes)
       case Publish =>
         c.zzh.None? && if k.got.None? then AllClosed(c.issued, c.closes) else OnlyOpen(c.issued, c.closes, k.got.value)
       case _ => Consistent(c) && (Checked(k) ==> c.zzh == Some(k.role.handle)) && (Cleared(k) ==> c.zzh.None?)
  }

  ghost predicate CoreFits(c: Core, k: Task) {
    if Depth(k.role, k.pc) > 0 then InsideFits(c, k) else Consistent(c)
  }

  ghost predicate TaskFits(c: Core, k: Task) {
    k.pc <= |Program(k.role)| && (k.role.Watcher? ==> k.role.handle < c.issued)
  }

  ghost predicate TasksFit(s: State) {
    && 2 <= |s.tasks| && s.tasks[0].role == Main && s.tasks[1].role == Loop
    && (forall t | 2 <= t < |s.tasks| :: s.tasks[t].role.Watcher?)
    && (forall t | 0 <= t < |s.tasks| :: TaskFits(s.core, s.tasks[t]))
  }

  /** Mutual exclusion: only the holder is inside locked code, as deep as the mutex counts. */
  ghost predicate Exclusive(s: State) {
    && (forall t | 0 <= t < |s.tasks| && s.holder != Some(t) :: Depth(s.tasks[t].role, s.tasks[t].pc) == 0)
    && (s.holder.None? ==> s.depth == 0)
    && (s.holder.Some? ==>
          && s.holder.value < |s.tasks|
          && s.depth == Depth(s.tasks[s.holder.value].role, s.tasks[s.holder.value].pc) > 0)
  }

  /** The data is consistent while nobody holds the mutex, and as the holder left it otherwise. */
  ghost predicate DataFits(s: State) {
    && ClosedOnce(s.core.issued, s.core.closes)
    && (s.holder.None? ==> Consistent(s.core))
    && (s.holder.Some? ==> s.holder.value < |s.tasks| && InsideFits(s.core, s.tasks[s.holder.value]))
  }

  /** A watcher's restart is never refused. */
  ghost predicate WatchersRestart(s: State) {
    forall i | 0 <= i < |s.refusals| :: s.refusals[i] < 2
  }

  ghost predicate Inv(s: State) {
    TasksFit(s) && Exclusive(s) && DataFits(s) && WatchersRestart(s)
  }

  ghost predicate Counted(c: Core, k: Task, answer: bool)
    requires k.pc < |Program(k.role)|
  {
    var l := After(c, k, answer).1;
    var d, d', instr := Depth(k.role, k.pc), Depth(k.role, l.pc), Program(k.role)[k.pc];
    && l.role == k.role && l.pc <= |Program(k.role)|
    && (instr.Lock? ==> d' == d + 1)
    && (instr.Unlock? ==> d == d' + 1)
    && (!instr.Lock? && !instr.Unlock? ==> d' == d && (d == 0 <==> instr.Branch?))
  }

  lemma LoopCounts(c: Core, k: Task, answer: bool)
    requires k.pc < |Program(k.role)| && k.role.Loop?
    ensures Counted(c, k, answer)
  {
  }

  lemma RestartCounts(c: Core, k: Task, answer: bool)
    requires k.pc < |Program(k.role)| && Restarts(k)
    ensures Counted(c, k, answer)
  {
  }

  lemma ShortCounts(c: Core, k: Task, answer: bool)
    requires k.pc < |Program(k.role)| && !k.role.Loop? && !Restarts(k)
    ensures Counted(c, k, answer)
  {
  }

  /** An instruction changes the depth as the mutex counts; outside locked code there are only
      locking and the loop's branch. */
  lemma DepthCounts(c: Core, k: Task, answer: bool)
    requires k.pc < |Program(k.role)|
    ensures Counted(c, k, answer)
  {
    hide Counted;
    match k.role
    case Loop => LoopCounts(c, k, answer);
    case Watcher(_, Expired) => RestartCounts(c, k, answer);
    case _ => ShortCounts(c, k, answer);
  }

  lemma CloseKeeps(issued: nat, closes: seq<nat>, h: nat)
    requires ClosedOnce(issued, closes) && OnlyOpen(issued, closes, h)
    ensures ClosedOnce(issued, closes + [h]) && AllClosed(issued, closes + [h])
  {
  }

  lemma OpenKeeps(issued: nat, closes: seq<nat>)
    requires ClosedOnce(issued, closes) && AllClosed(issued, closes)
    ensures ClosedOnce(issued + 1, closes) && OnlyOpen(issued + 1, closes, issued)
  {
  }

  /** An instruction leaves the data in order. */
  ghost predicate Kept(c: Core, k: Task, answer: bool)
    requires k.pc < |Program(k.role)|
  {
    var (d, l) := After(c, k, answer);
    CoreFits(d, l) && ClosedOnce(d.issued, d.closes) && c.issued <= d.issued
  }

  ghost predicate Ready(c: Core, k: Task) {
    TaskFits(c, k) && k.pc < |Program(k.role)| && CoreFits(c, k) && ClosedOnce(c.issued, c.closes)
  }

  lemma StartKeeps(c: Core, k: Task, answer: bool)
    requires Ready(c, k) && k.role.Main?
    ensures Kept(c, k, answer)
  {
    hide ClosedOnce, AllClosed, OnlyOpen;
    if Program(k.role)[k.pc].Open? {
      OpenKeeps(c.issued, c.closes);
    }
  }

  lemma LoopCheckKeeps(c: Core, k: Task, answer: bool)
    requires Ready(c, k) && k.role.Loop? && k.pc < LOOP_STOP
    ensures Kept(c, k, answer)
  {
    hide ClosedOnce, AllClosed, OnlyOpen;
  }

  lemma LoopStopKeeps(c: Core, k: Task, answer: bool)
    requires Ready(c, k) && k.role.Loop? && LOOP_STOP <= k.pc < LOOP_START
    ensures Kept(c, k, answer)
  {
    hide ClosedOnce, AllClosed, OnlyOpen;
    if Program(k.role)[k.pc].CloseIfAny? && c.zzh.Some? {
      CloseKeeps(c.issued, c.closes, c.zzh.value);
    }
  }

  lemma LoopStartKeeps(c: Core, k: Task, answer: bool)
    requires Ready(c, k) && k.role.Loop? && LOOP_START <= k.pc
    ensures Kept(c, k, answer)
  {
    hide ClosedOnce, AllClosed, OnlyOpen;
    if Program(k.role)[k.pc].Open? {
      OpenKeeps(c.issued, c.closes);
    }
  }

  lemma RestartStopKeeps(c: Core, k: Task, answer: bool)
    requires Ready(c, k) && Restarts(k) && k.pc < EVENT_START
    ensures Kept(c, k, answer)
  {
    hide ClosedOnce, AllClosed, OnlyOpen;
    if Program(k.role)[k.pc].CloseIfAny? && c.zzh.Some? {
      CloseKeeps(c.issued, c.closes, c.zzh.value);
    }
  }

  lemma RestartStartKeeps(c: Core, k: Task, answer: bool)
    requires Ready(c, k) && Restarts(k) && EVENT_START <= k.pc
    ensures Kept(c, k, answer)
  {
    hide ClosedOnce, AllClosed, OnlyOpen;
    if Program(k.role)[k.pc].Open? {
      OpenKeeps(c.issued, c.closes);
    }
  }

  lemma EventKeeps(c: Core, k: Task, answer: bool)
    requires Ready(c, k) && k.role.Watcher? && !k.role.kind.Expired?
    ensures Kept(c, k, answer)
  {
    hide ClosedOnce;
  }

  /** Every instruction, inside locked code or entering it, leaves the data in order. */
  lemma InstructionKeeps(c: Core, k: Task, answer: bool)
    requires Ready(c, k)
    ensures Kept(c, k, answer)
  {
    hide Ready, Kept;
    match k.role
    case Main => StartKeeps(c, k, answer);
    case Loop =>
      if k.pc < LOOP_STOP {
        LoopCheckKeeps(c, k, answer);
      } else if k.pc < LOOP_START {
        LoopStopKeeps(c, k, answer);
      } else {
        LoopStartKeeps(c, k, answer);
      }
    case Watcher(_, Expired) =>
      if k.pc < EVENT_START { RestartStopKeeps(c, k, answer); } else { RestartStartKeeps(c, k, answer); }
    case Watcher(_, _) => EventKeeps(c, k, answer);
  }

  lemma DeliverKeeps(s: State, h: nat, kind: Kind)
    requires Inv(s) && h < s.core.issued
    ensures Inv(Step(s, Deliver(h, kind)))
  {
    hide Program, InsideFits, ClosedOnce;
  }

  lemma AgainKeeps(s: State)
    requires Inv(s) && Enabled(s, LoopAgain)
    ensures Inv(Step(s, LoopAgain))
  {
    assert |Program(Loop)| == 13;
    hide Program, InsideFits, ClosedOnce;
  }

  /** The loop's branch touches neither the data nor the mutex. */
  lemma BranchKeeps(s: State, t: nat, answer: bool)
    requires Inv(s) && Enabled(s, Exec(t, answer)) && Program(s.tasks[t].role)[s.tasks[t].pc].Branch?
    ensures Inv(Execute(s, t, answer))
  {
    DepthCounts(s.core, s.tasks[t], answer);
    hide Program, Depth, InsideFits, ClosedOnce, Consistent;
    assert Inv(Execute(s, t, answer));
  }

  lemma LockedReady(s: State, t: nat, answer: bool)
    requires Inv(s) && Enabled(s, Exec(t, answer)) && !Program(s.tasks[t].role)[s.tasks[t].pc].Branch?
    ensures Ready(s.core, s.tasks[t])
    ensures s.holder == Some(t) || s.holder.None?
  {
    DepthCounts(s.core, s.tasks[t], answer);
  }

  lemma LockedKeepsMutex(s: State, t: nat, answer: bool)
    requires Inv(s) && Enabled(s, Exec(t, answer)) && !Program(s.tasks[t].role)[s.tasks[t].pc].Branch?
    ensures Exclusive(Execute(s, t, answer))
  {
    DepthCounts(s.core, s.tasks[t], answer);
    LockedReady(s, t, answer);
    hide Program, Depth, DataFits, After, Ready;
    assert Exclusive(Execute(s, t, answer));
  }

  lemma LockedKeepsTasks(s: State, t: nat, answer: bool)
    requires Inv(s) && Enabled(s, Exec(t, answer)) && !Program(s.tasks[t].role)[s.tasks[t].pc].Branch?
    ensures TasksFit(Execute(s, t, answer))
  {
    DepthCounts(s.core, s.tasks[t], answer);
    LockedReady(s, t, answer);
    InstructionKeeps(s.core, s.tasks[t], answer);
    hide Program, Depth, After, Ready, InsideFits, Consistent, ClosedOnce, DataFits, Exclusive;
    assert TasksFit(Execute(s, t, answer));
  }

  lemma LockedKeepsData(s: State, t: nat, answer: bool)
    requires Inv(s) && Enabled(s, Exec(t, answer)) && !Program(s.tasks[t].role)[s.tasks[t].pc].Branch?
    ensures DataFits(Execute(s, t, answer))
  {
    DepthCounts(s.core, s.tasks[t], answer);
    LockedReady(s, t, answer);
    InstructionKeeps(s.core, s.tasks[t], answer);
    LockedKeepsMutex(s, t, answer);
    hide Program, Depth, After, Ready, InsideFits, Consistent, ClosedOnce, TasksFit;
    assert DataFits(Execute(s, t, answer));
  }

  lemma WatcherNotRefused(c: Core, k: Task)
    requires Ready(c, k) && k.role.Watcher? && Program(k.role)[k.pc].RefuseIfRunning?
    ensures c.zzh.None?
  {
  }

  /** An instruction inside locked code, or one that enters it. */
  lemma LockedKeeps(s: State, t: nat, answer: bool)
    requires Inv(s) && Enabled(s, Exec(t, answer)) && !Program(s.tasks[t].role)[s.tasks[t].pc].Branch?
    ensures Inv(Execute(s, t, answer))
  {
    LockedReady(s, t, answer);
    LockedKeepsMutex(s, t, answer);
    LockedKeepsTasks(s, t, answer);
    LockedKeepsData(s, t, answer);
    var k := s.tasks[t];
    if k.role.Watcher? && Program(k.role)[k.pc].RefuseIfRunning? {
      WatcherNotRefused(s.core, k);
    }
    hide Program, Depth, After, Ready, DataFits, Exclusive;
    assert Inv(Execute(s, t, answer));
  }

  lemma StepKeeps(s: State, a: Action)
    requires Inv(s) && Enabled(s, a)
    ensures Inv(Step(s, a))
  {
    hide Inv, Program;
    match a
    case Exec(t, answer) =>
      if Program(s.tasks[t].role)[s.tasks[t].pc].Branch? {
        BranchKeeps(s, t, answer);
      } else {
        LockedKeeps(s, t, answer);
      }
    case Deliver(h, kind) => DeliverKeeps(s, h, kind);
    case LoopAgain => AgainKeeps(s);
  }

  lemma {:induction false} RunKeeps(s: State, actions: seq<Action>)
    requires Inv(s) && IsRun(s, actions)
    ensures Inv(Run(s, actions))
    decreases |actions|
  {
    hide Inv, Step, Enabled;
    if actions != [] {
      StepKeeps(s, actions[0]);
      RunKeeps(Step(s, actions[0]), actions[1..]);
    }
  }

  // ---- what every interleaving guarantees ----

  lemma InitialFits()
    ensures Inv(Initial())
  {
  }

  lemma Reachable(actions: seq<Action>)
    requires IsRun(Initial(), actions)
    ensures Inv(Run(Initial(), actions))
  {
    InitialFits();
    RunKeeps(Initial(), actions);
  }

  /** In every interleaving: at most one thread is inside locked code; whenever the mutex is free,
      zzh_ is null if every opened handle is closed and is otherwise the one handle that is not;
      and no handle is closed twice or without having been opened. */
  lemma OneOpenHandle(actions: seq<Action>)
    requires IsRun(Initial(), actions)
    ensures var s := Run(Initial(), actions);
            && (forall t, u | 0 <= t < u < |s.tasks| ::
                  Depth(s.tasks[t].role, s.tasks[t].pc) == 0 || Depth(s.tasks[u].role, s.tasks[u].pc) == 0)
            && (s.holder.None? ==> Consistent(s.core))
            && ClosedOnce(s.core.issued, s.core.closes)
  {
    Reachable(actions);
    hide IsRun, Run, Depth, ClosedOnce, Consistent, InsideFits;
    var s := Run(Initial(), actions);
    assert forall t, u | 0 <= t < u < |s.tasks| :: s.holder != Some(t) || s.holder != Some(u);
  }

  /** The stale check is exact: a watcher is turned away exactly when its handle has been closed,
      so an event of the current handle never is; and a watcher that closes a handle closes its
      own. */
  ghost predicate ExactCheck(c: Core, k: Task) {
    && (k.role.Watcher? && k.pc == EVENT_CHECK ==> (c.zzh != Some(k.role.handle) <==> k.role.handle in c.closes))
    && (Restarts(k) && k.pc == EVENT_STOP + CLOSE ==> c.zzh == Some(k.role.handle))
  }

  lemma InsideChecks(c: Core, k: Task)
    requires TaskFits(c, k) && Depth(k.role, k.pc) > 0 && InsideFits(c, k)
    ensures ExactCheck(c, k)
  {
  }

  lemma StaleIffClosed(actions: seq<Action>, t: nat)
    requires IsRun(Initial(), actions) && t < |Run(Initial(), actions).tasks|
    ensures ExactCheck(Run(Initial(), actions).core, Run(Initial(), actions).tasks[t])
  {
    Reachable(actions);
    var s := Run(Initial(), actions);
    hide IsRun, Run, ClosedOnce, InsideFits, Depth;
    if Depth(s.tasks[t].role, s.tasks[t].pc) > 0 {
      assert s.holder == Some(t);
      InsideChecks(s.core, s.tasks[t]);
    } else {
      OutsideUnchecked(s.core, s.tasks[t]);
    }
  }

  lemma OutsideUnchecked(c: Core, k: Task)
    requires Depth(k.role, k.pc) == 0
    ensures ExactCheck(c, k)
  {
  }

  /** A watcher before its check, or turned away, with only its last unlock to go. */
  predicate Idle(k: Task) {
    k.role.Watcher? && (k.pc <= EVENT_CHECK || |Program(k.role)| - 1 <= k.pc)
  }

  lemma StaleTurnsAway(c: Core, k: Task, answer: bool)
    requires Idle(k) && k.pc < |Program(k.role)| && k.role.handle in c.closes
    requires k.pc == EVENT_CHECK ==> CoreFits(c, k)
    ensures var (d, l) := After(c, k, answer); d == c && Idle(l) && l.role == k.role
  {
  }

  lemma ClosesGrow(c: Core, k: Task, answer: bool, h: nat)
    requires k.pc < |Program(k.role)| && h in c.closes
    ensures h in After(c, k, answer).0.closes
  {
  }

  ghost predicate Stale(s: State, t: nat) {
    t < |s.tasks| && Idle(s.tasks[t]) && s.tasks[t].role.handle in s.core.closes
  }

  lemma StepStaysStale(s: State, a: Action, t: nat)
    requires Inv(s) && Enabled(s, a) && Stale(s, t)
    ensures Inv(Step(s, a)) && Stale(Step(s, a), t)
    ensures a.Exec? && a.thread == t ==> Step(s, a).core == s.core
  {
    StepKeeps(s, a);
    if a.Exec? {
      var k := s.tasks[a.thread];
      ClosesGrow(s.core, k, a.answer, s.tasks[t].role.handle);
      if a.thread == t {
        LockedReady(s, t, a.answer);
        StaleTurnsAway(s.core, k, a.answer);
      }
    } else if a.LoopAgain? {
      assert t != 1;
    }
    hide Inv, Program, After, Idle, Ready;
    assert Stale(Step(s, a), t);
  }

  /** Some step of thread t in the run changes the data. */
  ghost predicate Acts(s: State, actions: seq<Action>, t: nat)
    requires IsRun(s, actions)
    decreases |actions|
  {
    actions != []
    && ((actions[0].Exec? && actions[0].thread == t && Step(s, actions[0]).core != s.core)
        || Acts(Step(s, actions[0]), actions[1..], t))
  }

  /** An event of an old handle changes nothing: in no run does a watcher whose handle has been
      closed before its check ever change the data, whatever the other threads do. */
  lemma {:induction false} StaleChangesNothing(s: State, actions: seq<Action>, t: nat)
    requires Inv(s) && IsRun(s, actions) && Stale(s, t)
    ensures !Acts(s, actions, t)
    decreases |actions|
  {
    if actions != [] {
      StepStaysStale(s, actions[0], t);
      hide Inv, Step, Enabled, Stale;
      StaleChangesNothing(Step(s, actions[0]), actions[1..], t);
    }
  }

  // ---- no start is refused any more once the initial start has returned ----

  /** A watcher that has begun its restart and will have opened a handle when it is done, unless
      zookeeper_init fails. */
  predicate WillOpen(k: Task) {
    && Restarts(k)
    && (EVENT_STOP <= k.pc <= EVENT_START + OPEN || (k.pc == EVENT_START + PUBLISH && k.got.Some?))
  }

  /** The initial start has returned; and if the loop is between its stop and its start, zzh_ is
      null and no watcher is restarting the session. */
  ghost predicate Settled(s: State) {
    && 2 <= |s.tasks| && s.tasks[0].pc == |Program(Main)|
    && (LOOP_STOP + STOPPED <= s.tasks[1].pc <= LOOP_START + REFUSE ==>
          && s.core.zzh.None?
          && forall t | 2 <= t < |s.tasks| && s.holder == Some(t) :: !WillOpen(s.tasks[t]))
  }

  lemma LoopStaysSettled(s: State, answer: bool)
    requires Inv(s) && Settled(s) && Enabled(s, Exec(1, answer))
    ensures Settled(Execute(s, 1, answer)) && Execute(s, 1, answer).refusals == s.refusals
  {
    var k := s.tasks[1];
    if !Program(Loop)[k.pc].Branch? {
      LockedReady(s, 1, answer);
    }
    hide Consistent, ClosedOnce;
    assert k.role == Loop;
  }

  lemma WatcherStaysSettled(s: State, t: nat, answer: bool)
    requires Inv(s) && Settled(s) && 2 <= t && Enabled(s, Exec(t, answer))
    ensures Settled(Execute(s, t, answer)) && Execute(s, t, answer).refusals == s.refusals
  {
    var k := s.tasks[t];
    assert k.role.Watcher?;
    LockedReady(s, t, answer);
    if Program(k.role)[k.pc].RefuseIfRunning? {
      WatcherNotRefused(s.core, k);
    }
    hide Consistent, ClosedOnce, Ready;
  }

  lemma StepStaysSettled(s: State, a: Action)
    requires Inv(s) && Settled(s) && Enabled(s, a)
    ensures Inv(Step(s, a)) && Settled(Step(s, a)) && Step(s, a).refusals == s.refusals
  {
    match a
    case Exec(t, answer) =>
      if Program(s.tasks[t].role)[s.tasks[t].pc].Branch? {
        BranchKeeps(s, t, answer);
      } else {
        LockedKeeps(s, t, answer);
      }
      if t == 1 {
        LoopStaysSettled(s, answer);
      } else {
        WatcherStaysSettled(s, t, answer);
      }
    case Deliver(h, kind) => DeliverKeeps(s, h, kind);
    case LoopAgain => AgainKeeps(s);
  }

  /** From a settled state on, no start_zk, of the loop or of a watcher, is ever refused. */
  lemma {:induction false} NeverRefusedAgain(s: State, actions: seq<Action>)
    requires Inv(s) && Settled(s) && IsRun(s, actions)
    ensures Run(s, actions).refusals == s.refusals
    decreases |actions|
  {
    hide Inv, Settled, Step, Enabled;
    if actions != [] {
      StepStaysSettled(s, actions[0]);
      NeverRefusedAgain(Step(s, actions[0]), actions[1..]);
    }
  }

  // ---- and exactly then ----

  /** The loop waits for the mutex to start the session, which is there or will be. */
  ghost predicate Doomed(s: State) {
    && Inv(s) && s.tasks[0].pc == |Program(Main)| && s.tasks[1].pc == LOOP_START
    && (s.core.zzh.Some? || (s.holder.Some? && s.holder.value < |s.tasks| && WillOpen(s.tasks[s.holder.value])))
  }

  lemma WatcherStaysDoomed(c: Core, k: Task)
    requires Ready(c, k) && k.role.Watcher? && Depth(k.role, k.pc) > 0 && (c.zzh.Some? || WillOpen(k))
    ensures var (d, l) := After(c, k, true); d.zzh.Some? || WillOpen(l)
  {
    hide ClosedOnce, AllClosed, OnlyOpen;
  }

  lemma HolderStaysDoomed(s: State, t: nat)
    requires Doomed(s) && s.holder == Some(t)
    ensures 2 <= t < |s.tasks| && Enabled(s, Exec(t, true)) && Doomed(Execute(s, t, true))
    ensures Execute(s, t, true).refusals == s.refusals
    ensures Execute(s, t, true).tasks[t].pc > s.tasks[t].pc && Execute(s, t, true).tasks[t].role == s.tasks[t].role
    ensures Execute(s, t, true).holder == s.holder || Execute(s, t, true).holder == None
  {
    var k := s.tasks[t];
    assert 2 <= t by {
      assert Depth(s.tasks[0].role, s.tasks[0].pc) == 0 == Depth(s.tasks[1].role, s.tasks[1].pc);
    }
    assert k.role.Watcher? && Depth(k.role, k.pc) > 0;
    LockedReady(s, t, true);
    LockedKeeps(s, t, true);
    DepthCounts(s.core, k, true);
    AloneStep(s.core, k, _ => true);
    WatcherStaysDoomed(s.core, k);
    if Program(k.role)[k.pc].RefuseIfRunning? {
      WatcherNotRefused(s.core, k);
    }
    hide Inv, Ready, Program, Depth, WillOpen, After;
    var s' := Execute(s, t, true);
    assert s'.holder == Some(t) || s'.holder == None;
    assert s'.tasks[t] == After(s.core, k, true).1;
  }

  lemma {:induction false} DoomedIsRefused(s: State) returns (actions: seq<Action>)
    requires Doomed(s)
    ensures IsRun(s, actions) && Run(s, actions).refusals == s.refusals + [1]
    decreases if s.holder.Some? && s.holder.value < |s.tasks|
              then |Program(s.tasks[s.holder.value].role)| - s.tasks[s.holder.value].pc + 1 else 0
  {
    if s.holder.Some? {
      var t := s.holder.value;
      HolderStaysDoomed(s, t);
      hide Doomed, Program, Execute;
      var rest := DoomedIsRefused(Execute(s, t, true));
      actions := Preceded(s, Exec(t, true), Execute(s, t, true), rest);
    } else {
      actions := LoopIsRefused(s);
    }
  }

  lemma LoopIsRefused(s: State) returns (actions: seq<Action>)
    requires Doomed(s) && s.holder.None?
    ensures IsRun(s, actions) && Run(s, actions).refusals == s.refusals + [1]
  {
    var x := Exec(1, true);
    assert Enabled(s, x);
    var s1 := Step(s, x);
    assert s1.tasks[1] == s.tasks[1].(pc := LOOP_START + REFUSE) && s1.core == s.core && s1.holder == Some(1);
    assert Enabled(s1, x);
    var s2 := Step(s1, x);
    assert s2.refusals == s.refusals + [1];
    hide Inv, Program, Execute;
    actions := Preceded(s1, x, s2, []);
    actions := Preceded(s, x, s1, actions);
  }

  /** Once the initial start has returned, a start can still be refused exactly in the states that
      are not settled. */
  lemma RefusalIffUnsettled(s: State)
    requires Inv(s) && s.tasks[0].pc == |Program(Main)|
    ensures Settled(s) <==> forall actions | IsRun(s, actions) :: Run(s, actions).refusals == s.refusals
  {
    if Settled(s) {
      forall actions | IsRun(s, actions) ensures Run(s, actions).refusals == s.refusals {
        NeverRefusedAgain(s, actions);
      }
    } else {
      var actions := UnsettledIsRefused(s);
      assert IsRun(s, actions) && Run(s, actions).refusals != s.refusals;
    }
  }

  lemma UnsettledIsRefused(s: State) returns (actions: seq<Action>)
    requires Inv(s) && s.tasks[0].pc == |Program(Main)| && !Settled(s)
    ensures IsRun(s, actions) && Run(s, actions).refusals == s.refusals + [1]
  {
    if s.tasks[1].pc == LOOP_START {
      actions := DoomedIsRefused(s);
    } else {
      assert s.holder == Some(1);
      assert s.tasks[1].pc == LOOP_START + REFUSE && s.core.zzh.Some?;
      var x := Exec(1, true);
      assert Step(s, x).refusals == s.refusals + [1];
      actions := Preceded(s, x, Step(s, x), []);
    }
  }

  /** A state of the run below: the initial start at `main`, the loop at `loop`. */
  function Early(core: Core, holder: Option<nat>, main: Task, loop: nat): State {
    State(core, holder, if holder.None? then 0 else 1, [main, Task(Loop, loop, None, false)], [])
  }

  const FRESH := Core(None, 0, [])
  const ISSUED := Core(None, 1, [])
  const OPENED := Core(Some(0), 1, [])

  function MainAt(pc: nat): Task { Task(Main, pc, if pc <= OPEN then None else Some(0), false) }

  lemma LoopChecks(rest: seq<Action>) returns (actions: seq<Action>)
    requires IsRun(Early(FRESH, None, MainAt(0), LOOP_STOP), rest)
    ensures IsRun(Initial(), actions) && Run(Initial(), actions) == Run(Early(FRESH, None, MainAt(0), LOOP_STOP), rest)
  {
    hide IsRun, Run;
    var x := Exec(1, false);
    actions := Preceded(Early(FRESH, None, MainAt(0), 3), x, Early(FRESH, None, MainAt(0), LOOP_STOP), rest);
    actions := Preceded(Early(FRESH, Some(1), MainAt(0), 2), x, Early(FRESH, None, MainAt(0), 3), actions);
    actions := Preceded(Early(FRESH, Some(1), MainAt(0), 1), x, Early(FRESH, Some(1), MainAt(0), 2), actions);
    actions := Preceded(Initial(), x, Early(FRESH, Some(1), MainAt(0), 1), actions);
  }

  lemma LoopStops(rest: seq<Action>) returns (actions: seq<Action>)
    requires IsRun(Early(FRESH, None, MainAt(0), LOOP_START), rest)
    ensures IsRun(Early(FRESH, None, MainAt(0), LOOP_STOP), actions)
    ensures Run(Early(FRESH, None, MainAt(0), LOOP_STOP), actions)
            == Run(Early(FRESH, None, MainAt(0), LOOP_START), rest)
  {
    hide IsRun, Run;
    var x, main := Exec(1, false), MainAt(0);
    var close := Early(FRESH, Some(1), main, LOOP_STOP + CLOSE);
    var stopped := Early(FRESH, Some(1), main, LOOP_STOP + STOPPED);
    actions := Preceded(stopped, x, Early(FRESH, None, main, LOOP_START), rest);
    actions := Preceded(close, x, stopped, actions);
    actions := Preceded(Early(FRESH, None, main, LOOP_STOP), x, close, actions);
  }

  lemma MainOpens(rest: seq<Action>) returns (actions: seq<Action>)
    requires IsRun(Early(ISSUED, Some(0), MainAt(PUBLISH), LOOP_START), rest)
    ensures IsRun(Early(FRESH, None, MainAt(0), LOOP_START), actions)
    ensures Run(Early(FRESH, None, MainAt(0), LOOP_START), actions)
            == Run(Early(ISSUED, Some(0), MainAt(PUBLISH), LOOP_START), rest)
  {
    hide IsRun, Run;
    var x := Exec(0, true);
    var refuse := Early(FRESH, Some(0), MainAt(REFUSE), LOOP_START);
    var open := Early(FRESH, Some(0), MainAt(OPEN), LOOP_START);
    actions := Preceded(open, x, Early(ISSUED, Some(0), MainAt(PUBLISH), LOOP_START), rest);
    actions := Preceded(refuse, x, open, actions);
    actions := Preceded(Early(FRESH, None, MainAt(0), LOOP_START), x, refuse, actions);
  }

  lemma MainPublishes(rest: seq<Action>) returns (actions: seq<Action>)
    requires IsRun(Early(OPENED, None, MainAt(START_LENGTH), LOOP_START), rest)
    ensures IsRun(Early(ISSUED, Some(0), MainAt(PUBLISH), LOOP_START), actions)
    ensures Run(Early(ISSUED, Some(0), MainAt(PUBLISH), LOOP_START), actions)
            == Run(Early(OPENED, None, MainAt(START_LENGTH), LOOP_START), rest)
  {
    hide IsRun, Run;
    var x, started := Exec(0, true), Early(OPENED, Some(0), MainAt(STARTED), LOOP_START);
    actions := Preceded(started, x, Early(OPENED, None, MainAt(START_LENGTH), LOOP_START), rest);
    actions := Preceded(Early(ISSUED, Some(0), MainAt(PUBLISH), LOOP_START), x, started, actions);
  }

  /** Before that it can happen: the initial start slips between the loop's stop and its start, and
      the loop's start is refused although the initial start has returned. */
  lemma EarlyLoopIsRefused()
    ensures exists actions, s, more ::
              && IsRun(Initial(), actions) && Run(Initial(), actions) == s
              && |s.tasks| == 2 && s.tasks[0] == Task(Main, |Program(Main)|, Some(0), false) && s.refusals == []
              && IsRun(s, more) && Run(s, more).refusals == [1]
  {
    var s := Early(OPENED, None, MainAt(START_LENGTH), LOOP_START);
    var actions := MainPublishes([]);
    actions := MainOpens(actions);
    actions := LoopStops(actions);
    actions := LoopChecks(actions);
    Reachable(actions);
    hide Inv, IsRun, Step, Enabled, Initial;
    assert Doomed(s);
    var more := DoomedIsRefused(s);
    assert Run(Initial(), actions) == s;
  }

  // ---- the methods themselves, each alone under the mutex ----

  /** What the library says to a thread's instructions, by their place in its program. */
  type Answers = nat -> bool

  /** The data after a thread has run its program to the end with no other thread in between. */
  function Alone(c: Core, k: Task, says: Answers): Core
    requires k.pc <= |Program(k.role)|
    decreases |Program(k.role)| - k.pc
  {
    if k.pc == |Program(k.role)| then c
    else
      DepthCounts(c, k, says(k.pc));
      var (d, l) := After(c, k, says(k.pc));
      Alone(d, l, says)
  }

  /** A start opens a handle unless there is one, or zookeeper_init fails. */
  function StartEffect(c: Core, succeeds: bool): Core {
    if c.zzh.Some? || !succeeds then c else Core(Some(c.issued), c.issued + 1, c.closes)
  }

  function StopEffect(c: Core): Core {
    if c.zzh.None? then c else Core(None, c.issued, c.closes + [c.zzh.value])
  }

  lemma AloneStep(c: Core, k: Task, says: Answers)
    requires k.pc < |Program(k.role)|
    ensures var (d, l) := After(c, k, says(k.pc));
            l.role == k.role && k.pc < l.pc <= |Program(k.role)| && Alone(c, k, says) == Alone(d, l, says)
  {
    DepthCounts(c, k, says(k.pc));
  }

  /** Where a start is the rest of the thread's program, but for a last unlock. */
  predicate AtStart(k: Task) {
    (k.role.Main? && k.pc == 0) || (k.role.Loop? && k.pc == LOOP_START) || (Restarts(k) && k.pc == EVENT_START)
  }

  lemma StartIsThere(k: Task, j: nat)
    requires AtStart(k) && j < START_LENGTH
    ensures k.pc + j < |Program(k.role)| && Program(k.role)[k.pc + j] == StartProgram()[j]
  {
  }

  lemma StartAlone(c: Core, k: Task, says: Answers)
    requires AtStart(k)
    ensures Alone(c, k, says) == StartEffect(c, says(k.pc + OPEN))
  {
    StartIsThere(k, 0);
    StartIsThere(k, REFUSE);
    hide Alone, Program, AtStart;
    var (c1, k1) := After(c, k, says(k.pc));
    AloneStep(c, k, says);
    var (c2, k2) := After(c1, k1, says(k1.pc));
    AloneStep(c1, k1, says);
    if c.zzh.Some? {
      LastUnlocks(c2, k2, says);
    } else {
      OpenAlone(c2, k2, says);
    }
  }

  lemma OpenAlone(c: Core, k: Task, says: Answers)
    requires c.zzh.None? && k.pc >= OPEN && AtStart(k.(pc := k.pc - OPEN))
    ensures Alone(c, k, says) == StartEffect(c, says(k.pc))
  {
    StartIsThere(k.(pc := k.pc - OPEN), OPEN);
    hide Alone, Program;
    var (d, l) := After(c, k, says(k.pc));
    AloneStep(c, k, says);
    PublishAlone(d, l, says);
  }

  lemma PublishAlone(c: Core, k: Task, says: Answers)
    requires k.pc >= PUBLISH && AtStart(k.(pc := k.pc - PUBLISH))
    ensures Alone(c, k, says) == c.(zzh := k.got)
  {
    StartIsThere(k.(pc := k.pc - PUBLISH), PUBLISH);
    hide Alone, Program;
    var (d, l) := After(c, k, says(k.pc));
    AloneStep(c, k, says);
    LastUnlocks(d, l, says);
  }

  lemma LastUnlocks(c: Core, k: Task, says: Answers)
    requires k.pc >= STARTED && AtStart(k.(pc := k.pc - STARTED))
    ensures Alone(c, k, says) == c
  {
    var (c1, k1) := After(c, k, says(k.pc));
    AloneStep(c, k, says);
    if k1.pc < |Program(k1.role)| {
      AloneStep(c1, k1, says);
    }
  }

  predicate AtStop(k: Task) {
    (k.role.Loop? && k.pc == LOOP_STOP) || (Restarts(k) && k.pc == EVENT_STOP)
  }

  lemma StopIsThere(k: Task, j: nat)
    requires AtStop(k) && j < STOP_LENGTH
    ensures k.pc + j < |Program(k.role)| && Program(k.role)[k.pc + j] == StopProgram()[j]
    ensures AtStart(k.(pc := k.pc + STOP_LENGTH))
  {
  }

  lemma StoppedAlone(c: Core, k: Task, says: Answers)
    requires k.pc >= STOPPED && AtStop(k.(pc := k.pc - STOPPED))
    ensures Alone(c, k, says) == StartEffect(c, says(k.pc + 1 + OPEN))
  {
    StopIsThere(k.(pc := k.pc - STOPPED), STOPPED);
    hide Alone, Program, AtStart, AtStop;
    AloneStep(c, k, says);
    StartAlone(c, k.(pc := k.pc + 1), says);
  }

  lemma ClearAlone(c: Core, k: Task, says: Answers)
    requires k.pc >= CLEAR && AtStop(k.(pc := k.pc - CLEAR))
    ensures Alone(c, k, says) == StartEffect(c.(zzh := None), says(k.pc + 2 + OPEN))
  {
    StopIsThere(k.(pc := k.pc - CLEAR), CLEAR);
    hide Alone, Program, AtStart, AtStop;
    AloneStep(c, k, says);
    StoppedAlone(c.(zzh := None), k.(pc := k.pc + 1), says);
  }

  /** A stop followed by a start, in the loop and in the watcher of an expired session. */
  lemma RestartAlone(c: Core, k: Task, says: Answers)
    requires AtStop(k)
    ensures Alone(c, k, says) == StartEffect(StopEffect(c), says(k.pc + STOP_LENGTH + OPEN))
  {
    StopIsThere(k, 0);
    StopIsThere(k, CLOSE);
    hide Alone, Program, AtStart, AtStop;
    var k1 := k.(pc := k.pc + CLOSE);
    AloneStep(c, k, says);
    AloneStep(c, k1, says);
    if c.zzh.Some? {
      ClearAlone(c.(closes := c.closes + [c.zzh.value]), k.(pc := k.pc + CLEAR), says);
    } else {
      StoppedAlone(c, k.(pc := k.pc + STOPPED), says);
    }
  }

  /** What an event does to the data when its watcher runs undisturbed. */
  function EventEffect(c: Core, handle: nat, kind: Kind, succeeds: bool): Core {
    if c.zzh == Some(handle) && kind.Expired? then StartEffect(StopEffect(c), succeeds) else c
  }

  lemma WatcherAlone(c: Core, handle: nat, kind: Kind, says: Answers)
    ensures Alone(c, Task(Watcher(handle, kind), 0, None, false), says)
            == EventEffect(c, handle, kind, says(EVENT_START + OPEN))
  {
    var k := Task(Watcher(handle, kind), 0, None, false);
    AloneStep(c, k, says);
    var k1 := k.(pc := EVENT_CHECK);
    AloneStep(c, k1, says);
    var k2 := After(c, k1, says(EVENT_CHECK)).1;
    if c.zzh != Some(handle) || !kind.Expired? {
      AloneStep(c, k2, says);
      if k2.pc + 1 < |Program(k.role)| {
        AloneStep(c, k2.(pc := k2.pc + 1), says);
      }
    } else {
      hide Alone;
      RestartAlone(c, k2, says);
    }
  }

  /** The loop's check, and its branch after the check's unlock. */
  const LOOP_CHECK: nat := 1
  const LOOP_BRANCH: nat := 3

  function LoopAnswers(connected: bool, succeeds: bool): Answers {
    pc => if pc == LOOP_CHECK then connected else succeeds
  }

  lemma BranchAlone(c: Core, connected: bool, says: Answers)
    ensures Alone(c, Task(Loop, LOOP_BRANCH, None, connected), says)
            == if connected then c else StartEffect(StopEffect(c), says(LOOP_START + OPEN))
  {
    var k := Task(Loop, LOOP_BRANCH, None, connected);
    AloneStep(c, k, says);
    if !connected {
      hide Alone;
      RestartAlone(c, k.(pc := LOOP_STOP), says);
    }
  }

  /** A round of the loop, undisturbed: a session that is connected is left alone, and any other is
      stopped and started again. */
  lemma LoopAlone(c: Core, says: Answers)
    ensures Alone(c, Task(Loop, 0, None, false), says)
            == if c.zzh.Some? && says(LOOP_CHECK) then c else StartEffect(StopEffect(c), says(LOOP_START + OPEN))
  {
    var k := Task(Loop, 0, None, false);
    var checked := k.(pc := 2, connected := c.zzh.Some? && says(LOOP_CHECK));
    hide Alone;
    AloneStep(c, k, says);
    AloneStep(c, k.(pc := LOOP_CHECK), says);
    AloneStep(c, checked, says);
    BranchAlone(c, checked.connected, says);
  }

  const POLLS := 6

  class ZK {
    var zzh: Option<nat>
    var issued: nat
    var closes: seq<nat>

    function Data(): Core
      reads this
    {
      Core(zzh, issued, closes)
    }

    constructor ()
      ensures Data() == Core(None, 0, [])
    {
      zzh, issued, closes := None, 0, [];
    }

    /** `polls` are the answers zoo_state would give once a second. A start that gives up waiting
        reports failure but keeps its handle. */
    method StartZk(succeeds: bool, polls: seq<bool>) returns (rc: int)
      requires |polls| == POLLS
      modifies this
      ensures Data() == StartEffect(old(Data()), succeeds)
      ensures rc == if old(zzh).None? && succeeds && true in polls then 0 else -1
    {
      if zzh.Some? {
        return -1;
      }
      if succeeds {
        zzh, issued := Some(issued), issued + 1;
      } else {
        zzh := None;
      }
      if zzh.None? {
        return -1;
      }
      var count, connected := 0, false;
      while !connected
        invariant 0 <= count <= POLLS
        invariant connected <==> true in polls[..count]
        invariant !connected ==> count < POLLS
        invariant Data() == StartEffect(old(Data()), succeeds)
        decreases POLLS - count, !connected
      {
        connected := polls[count];
        count := count + 1;
        if !connected && count > 5 {
          return -1;
        }
      }
      return 0;
    }

    method FinalizeZk()
      modifies this
      ensures Data() == StopEffect(old(Data()))
    {
      if zzh.Some? {
        closes := closes + [zzh.value];
        zzh := None;
      }
    }

    method IsConnected(answer: bool) returns (connected: bool)
      ensures connected <==> zzh.Some? && answer
    {
      if zzh.None? {
        return false;
      }
      return answer;
    }

    /** Run undisturbed, the watcher does to the data what its program does. */
    method ZkWatcher(handle: nat, kind: Kind, succeeds: bool, polls: seq<bool>) returns (updates: bool)
      requires |polls| == POLLS
      modifies this
      ensures Data() == Alone(old(Data()), Task(Watcher(handle, kind), 0, None, false), _ => succeeds)
      ensures Data() == EventEffect(old(Data()), handle, kind, succeeds)
      ensures updates <==> kind.Connected? && old(zzh) == Some(handle)
    {
      WatcherAlone(Data(), handle, kind, _ => succeeds);
      if zzh != Some(handle) {
        return false;
      }
      if kind.Connected? {
        return true;
      } else if kind.Expired? {
        FinalizeZk();
        var _ := StartZk(succeeds, polls);
      }
      return false;
    }

    /** A round of the loop; `answer` is whether zoo_state says connected. */
    method LoopRound(answer: bool, succeeds: bool, polls: seq<bool>) returns (updates: bool)
      requires |polls| == POLLS
      modifies this
      ensures Data() == Alone(old(Data()), Task(Loop, 0, None, false), LoopAnswers(answer, succeeds))
      ensures updates <==> old(zzh).Some? && answer
    {
      LoopAlone(Data(), LoopAnswers(answer, succeeds));
      updates := IsConnected(answer);
      if !updates {
        FinalizeZk();
        var _ := StartZk(succeeds, polls);
      }
    }
  }
}
