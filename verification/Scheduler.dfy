/**
 * The scheduler of src/process.c and the semaphores of src/synch.c as a state machine:
 * one function per call, each call taken as one step. Processes are named by their pid.
 */
module Scheduler {
  import opened Basics

  type Pid = nat

  // process_system_initialize hands out the first pids in this order.
  const IDLE: Pid := 0
  const REAPER: Pid := 1
  const MAIN: Pid := 2

  const INT_MAX: int := 0x7fff_ffff
  const INT_MIN: int := -0x8000_0000
  const DEAD_SEM: nat := 0

  /** TIMER_PERIOD_US / 1000. */
  const TICK_MS: nat := 50

  /** The queues that share the link fields of the process control blocks. */
  datatype QueueId = Run | Tick | Dead | Wait(sem: nat)

  datatype Sleeper = Sleeper(pid: Pid, wake: nat)

  datatype Sem = Sem(count: int, waiters: seq<Pid>)

  /** Where the reaper's loop stands: BeforeP, inside P or just behind it, or freeing. */
  datatype ReaperPc = BeforeP | InP | FreeStack(victim: Pid) | FreePcb(victim: Pid)

  datatype State = State(
    current: Pid, run: seq<Pid>, tick: seq<Sleeper>, dead: seq<Pid>, sems: seq<Sem>,
    ticks: nat, nextPid: nat, live: set<Pid>, reaper: ReaperPc)

  function PidsOf(tick: seq<Sleeper>): (ps: seq<Pid>)
    ensures |ps| == |tick| && forall i :: 0 <= i < |tick| ==> ps[i] == tick[i].pid
  {
    seq(|tick|, i requires 0 <= i < |tick| => tick[i].pid)
  }

  /** The members of a queue, head first. */
  function Q(s: State, q: QueueId): seq<Pid> {
    match q
    case Run => s.run
    case Tick => PidsOf(s.tick)
    case Dead => s.dead
    case Wait(i) => if i < |s.sems| then s.sems[i].waiters else []
  }

  /** Process p is listed on queue q. */
  predicate On(s: State, p: Pid, q: QueueId) {
    p in Q(s, q)
  }

  ghost predicate Queued(s: State, p: Pid) {
    exists q :: On(s, p, q)
  }

  predicate Held(s: State, p: Pid) {
    (s.reaper.FreeStack? || s.reaper.FreePcb?) && s.reaper.victim == p
  }

  // ----- the calls -----

  /** schedule_next_process: the head of the run queue, or idle if that is empty. */
  function Dispatch(s: State): State {
    if |s.run| > 0 then s.(current := s.run[0], run := s.run[1..]) else s.(current := IDLE)
  }

  function Start(s: State, p: Pid): State {
    s.(run := s.run + [p])
  }

  function Yield(s: State): State {
    Dispatch(Start(s, s.current))
  }

  /** A fresh process gets the next pid and joins the run queue. */
  function Fork(s: State): State {
    Start(s.(nextPid := s.nextPid + 1, live := s.live + {s.nextPid}), s.nextPid)
  }

  /** C division truncates toward zero, and awaken_tick is an unsigned 32-bit field. */
  function WakeTick(ms: int, ticks: nat): nat {
    ((if ms >= 0 then ms / TICK_MS else -((-ms) / TICK_MS)) + ticks) % WORD
  }

  function Sleep(s: State, ms: int): State {
    Dispatch(s.(tick := s.tick + [Sleeper(s.current, WakeTick(ms, s.ticks))]))
  }

  function SemP(s: State, i: nat): State
    requires i < |s.sems|
  {
    var down := s.sems[i].(count := s.sems[i].count - 1);
    if down.count < 0 then
      Dispatch(s.(sems := s.sems[i := down.(waiters := down.waiters + [s.current])]))
    else
      s.(sems := s.sems[i := down])
  }

  function SemV(s: State, i: nat): State
    requires i < |s.sems|
  {
    var up := s.sems[i].(count := s.sems[i].count + 1);
    if |up.waiters| > 0 then
      Start(s.(sems := s.sems[i := up.(waiters := up.waiters[1..])]), up.waiters[0])
    else
      s.(sems := s.sems[i := up])
  }

  /** cleanup: the end of every process function. */
  function Exit(s: State): State
    requires |s.sems| > DEAD_SEM
  {
    Dispatch(SemV(s.(dead := s.dead + [s.current]), DEAD_SEM))
  }

  predicate IsDue(x: Sleeper, now: nat) {
    x.wake <= now
  }

  function Due(tick: seq<Sleeper>, now: nat): seq<Pid> {
    if tick == [] then []
    else if IsDue(tick[0], now) then [tick[0].pid] + Due(tick[1..], now)
    else Due(tick[1..], now)
  }

  function NotDue(tick: seq<Sleeper>, now: nat): seq<Sleeper> {
    if tick == [] then []
    else if IsDue(tick[0], now) then NotDue(tick[1..], now)
    else [tick[0]] + NotDue(tick[1..], now)
  }

  /** All due sleepers become runnable, in the order in which they went to sleep. */
  function Awaken(s: State): State {
    s.(run := s.run + Due(s.tick, s.ticks), tick := NotDue(s.tick, s.ticks))
  }

  function ClockHandler(s: State): State {
    Yield(Awaken(s.(ticks := s.ticks + 1)))
  }

  datatype Event =
    | EFork | EYield | ESleep(ms: int) | ESemCreate(count: int) | EP(sem: nat) | EV(sem: nat) | EExit
    | EClock | EIdleLoop
    | EReaperP | EReaperDequeue | EReaperFreeStack | EReaperFreePcb

  predicate UserRuns(s: State) {
    s.current != IDLE && s.current != REAPER
  }

  /** Who may make which call. The dead semaphore belongs to cleanup and the reaper. */
  predicate Enabled(s: State, e: Event) {
    match e
    case EFork => UserRuns(s) && s.nextPid < INT_MAX
    case EYield => UserRuns(s)
    case ESleep(ms) => UserRuns(s) && INT_MIN <= ms <= INT_MAX
    case ESemCreate(count) => UserRuns(s) && INT_MIN <= count <= INT_MAX
    case EP(i) => UserRuns(s) && DEAD_SEM < i < |s.sems| && INT_MIN < s.sems[i].count
    case EV(i) => UserRuns(s) && DEAD_SEM < i < |s.sems| && s.sems[i].count < INT_MAX
    case EExit => UserRuns(s) && |s.sems| > DEAD_SEM
    case EClock => s.ticks < INT_MAX
    case EIdleLoop => s.current == IDLE
    case EReaperP => s.current == REAPER && s.reaper == BeforeP && |s.sems| > DEAD_SEM
    case EReaperDequeue => s.current == REAPER && s.reaper == InP
    case EReaperFreeStack => s.current == REAPER && s.reaper.FreeStack?
    case EReaperFreePcb => s.current == REAPER && s.reaper.FreePcb?
  }

  function Step(s: State, e: Event): State
    requires Enabled(s, e)
  {
    match e
    case EFork => Fork(s)
    case EYield => Yield(s)
    case ESleep(ms) => Sleep(s, ms)
    case ESemCreate(count) => s.(sems := s.sems + [Sem(count, [])])
    case EP(i) => SemP(s, i)
    case EV(i) => SemV(s, i)
    case EExit => Exit(s)
    case EClock => ClockHandler(s)
    case EIdleLoop => Dispatch(s)
    case EReaperP => SemP(s.(reaper := InP), DEAD_SEM)
    case EReaperDequeue =>
      // On an empty queue the code would free through NULL; the invariant rules that out.
      if s.dead == [] then s else s.(dead := s.dead[1..], reaper := FreeStack(s.dead[0]))
    case EReaperFreeStack => s.(reaper := FreePcb(s.reaper.victim))
    case EReaperFreePcb => s.(reaper := BeforeP, live := s.live - {s.reaper.victim})
  }

  /** The state in which process_system_initialize reaches its first schedule_next_process. */
  const INIT := State(IDLE, [REAPER, MAIN], [], [], [Sem(0, [])], 0, 3, {IDLE, REAPER, MAIN}, BeforeP)

  ghost predicate Legal(s: State, es: seq<Event>)
    decreases |es|
  {
    es == [] || (Enabled(s, es[0]) && Legal(Step(s, es[0]), es[1..]))
  }

  ghost function Exec(s: State, es: seq<Event>): State
    requires Legal(s, es)
    decreases |es|
  {
    if es == [] then s else Exec(Step(s, es[0]), es[1..])
  }
}
