/**
 * The calls of src/process.c and src/synch.c one primitive at a time, with a timer
 * interrupt possible wherever interrupts are enabled. Each thread carries the code it has
 * yet to run; a static check of that code decides whether its calls may be interrupted.
 */
module Preemption {
  import opened Basics
  import opened Scheduler
  import opened Placement

  datatype Instr =
    | Save                    // prev_level = SET_INTERRUPT_LEVEL(DISABLED)
    | Restore                 // SET_INTERRUPT_LEVEL(prev_level)
    | Disable | Enable        // the same macro with its result dropped
    | QueueSelf(q: QueueId)   // queue_append of the current process
    | SleepSelf(ms: int)      // set awaken_tick, append to the tick queue
    | Decrement(sem: nat) | Increment(sem: nat)
    | Take(q: QueueId)        // queue_dequeue into a local variable
    | Give                    // queue_append of that variable to the run queue
    | Create                  // create_process into a local variable; its sallocs leave interrupts off
    | MakeSem(count: int)     // semaphore_create; the same
    | Sweep                   // the next tick, and the loop of clock_handler
    | Release                 // sfree of that variable and its stack
    | Switch                  // the rest of schedule_next_process, up to context_switch

  datatype Test = Negative(sem: nat) | Waiting(sem: nat)

  datatype Code = Done | Do(i: Instr, rest: Code) | If(t: Test, yes: Code, no: Code)

  /**
   * What the check tracks: the interrupt flag, the levels saved in local variables, the
   * queue the thread has put itself on, and what a local variable may hold.
   */
  datatype Mode = Mode(irq: bool, saved: seq<bool>, on: Option<QueueId>, holding: Holding)

  datatype Holding = Nobody | Somebody | Corpse

  datatype Thread = Thread(code: Code, mode: Mode, hand: Option<Pid>)

  datatype Machine = Machine(s: State, threads: map<Pid, Thread>)

  // ----- the calls as code; k is what follows -----

  function StartCode(k: Code): Code { Do(Save, Do(Give, Do(Restore, k))) }

  function CreateSemCode(count: int, k: Code): Code { Do(MakeSem(count), k) }

  function ForkCode(k: Code): Code { Do(Create, StartCode(k)) }

  function ScheduleCode(k: Code): Code { Do(Disable, Do(Switch, Do(Enable, k))) }

  function YieldCode(k: Code): Code {
    Do(Save, Do(QueueSelf(Run), Do(Restore, ScheduleCode(k))))
  }

  function SleepCode(ms: int, k: Code): Code {
    Do(Save, Do(SleepSelf(ms), Do(Restore, ScheduleCode(k))))
  }

  function PCode(i: nat, k: Code): Code {
    Do(Save, Do(Decrement(i),
      If(Negative(i), Do(QueueSelf(Wait(i)), ScheduleCode(Do(Restore, k))), Do(Restore, k))))
  }

  function VCode(i: nat, k: Code): Code {
    Do(Save, Do(Increment(i), If(Waiting(i), Do(Take(Wait(i)), StartCode(Do(Restore, k))), Do(Restore, k))))
  }

  function CleanupCode(k: Code): Code {
    Do(Disable, Do(QueueSelf(Dead), VCode(DEAD_SEM, ScheduleCode(k))))
  }

  function ReapCode(k: Code): Code {
    PCode(DEAD_SEM, Do(Save, Do(Take(Dead), Do(Restore, Do(Release, k)))))
  }

  /** clock_handler */
  function HandlerCode(k: Code): Code { Do(Save, Do(Sweep, Do(Restore, YieldCode(k)))) }

  /**
   * c_irq_handler with the processor's own part around it: interrupts are off on entry, on
   * again for the handler, off behind it, and at the level of the interrupted code at the end.
   */
  function IrqCode(k: Code): Code {
    Do(Save, Do(Enable, HandlerCode(Do(Disable, Do(Restore, k)))))
  }

  // ----- the discipline -----

  /** A primitive's demand on the mode, made of the thread called self. */
  predicate Demand(i: Instr, m: Mode, self: Pid) {
    match i
    case Save => true
    case Restore => m.saved != []
    case Disable => true
    case Enable => m.on == None
    case QueueSelf(q) => !m.irq && m.on == None && q != Tick && Allowed(InP, self, q)
    case SleepSelf(_) => !m.irq && m.on == None && Allowed(InP, self, Tick)
    case Decrement(_) => !m.irq
    case Increment(_) => !m.irq
    case Take(q) => !m.irq && m.holding == Nobody && q != Run && q != Tick && m.on != Some(q)
    case Give => !m.irq
    case Create => m.holding == Nobody
    case MakeSem(_) => true
    case Release => m.holding != Somebody
    case Sweep => !m.irq && m.on == None
    case Switch => !m.irq && (m.on == Some(Dead) ==> m.holding == Nobody) && (m.on != None || self == IDLE)
  }

  function After(i: Instr, m: Mode): Mode
    requires i == Restore ==> m.saved != []
  {
    match i
    case Save => m.(irq := false, saved := [m.irq] + m.saved)
    case Restore => m.(irq := m.saved[0], saved := m.saved[1..])
    case Disable => m.(irq := false)
    case Enable => m.(irq := true)
    case QueueSelf(q) => m.(on := Some(q))
    case SleepSelf(_) => m.(on := Some(Tick))
    case Decrement(_) => m
    case Increment(_) => m
    case Take(q) => m.(holding := if q == Dead then Corpse else Somebody)
    case Give => m.(holding := Nobody)
    case Create => m.(irq := false, holding := Somebody)
    case MakeSem(_) => m.(irq := false)
    case Release => m.(holding := Nobody)
    case Sweep => m
    case Switch => m.(on := None)
  }

  /** The code may be run from this mode: no primitive is reached in a mode it forbids. */
  predicate Check(c: Code, m: Mode, self: Pid) {
    match c
    case Done => m.on == None && m.holding == Nobody
    case Do(i, rest) => Demand(i, m, self) && Check(rest, After(i, m), self)
    case If(_, yes, no) => !m.irq && Check(yes, m, self) && Check(no, m, self)
  }

  // ----- one primitive -----

  function CurrentThread(m: Machine): Thread
    requires m.s.current in m.threads
  {
    m.threads[m.s.current]
  }

  function CountSem(s: State, i: nat, delta: int): State {
    if i < |s.sems| then s.(sems := s.sems[i := s.sems[i].(count := s.sems[i].count + delta)]) else s
  }

  function AddSem(s: State, count: int): State {
    s.(sems := s.sems + [Sem(count, [])])
  }

  /** queue_append to one of the queues other than the tick queue. */
  function Append(s: State, q: QueueId, p: Pid): State
    requires q != Tick
  {
    match q
    case Run => s.(run := s.run + [p])
    case Dead => s.(dead := s.dead + [p])
    case Wait(i) =>
      if i < |s.sems| then s.(sems := s.sems[i := s.sems[i].(waiters := s.sems[i].waiters + [p])]) else s
  }

  /** queue_dequeue from the dead queue or a wait queue. */
  function TakeHead(s: State, q: QueueId): State
    requires q != Tick && q != Run && Q(s, q) != []
  {
    match q
    case Dead => s.(dead := s.dead[1..])
    case Wait(i) => s.(sems := s.sems[i := s.sems[i].(waiters := s.sems[i].waiters[1..])])
  }

  function Holds(s: State, t: Test): bool {
    match t
    case Negative(i) => i < |s.sems| && s.sems[i].count < 0
    case Waiting(i) => i < |s.sems| && |s.sems[i].waiters| > 0
  }

  const FRESH := Thread(Done, Mode(true, [], None, Nobody), None)

  /** The primitive has a meaning: it names an existing queue and has a level to restore. */
  predicate Meaningful(i: Instr, m: Mode, s: State) {
    match i
    case Restore => m.saved != []
    case QueueSelf(q) => q != Tick && (q.Wait? ==> q.sem < |s.sems|)
    case Take(q) => q != Run && q != Tick
    case Sweep => s.ticks < INT_MAX
    case _ => true
  }

  predicate CanRun(m: Machine) {
    && m.s.current in m.threads
    && var t := CurrentThread(m);
    t.code.If? || (t.code.Do? && Meaningful(t.code.i, t.mode, m.s))
  }

  datatype Local = Local(s: State, t: Thread)

  /** One primitive or test of the current thread t, if it neither makes nor removes a thread. */
  function StepOf(s: State, t: Thread): Local
    requires t.code.If? || (t.code.Do? && Meaningful(t.code.i, t.mode, s))
  {
    if t.code.If? then
      Local(s, t.(code := if Holds(s, t.code.t) then t.code.yes else t.code.no))
    else
      var u := t.(code := t.code.rest, mode := After(t.code.i, t.mode));
      match t.code.i
      case QueueSelf(q) => Local(Append(s, q, s.current), u)
      case SleepSelf(ms) => Local(s.(tick := s.tick + [Sleeper(s.current, WakeTick(ms, s.ticks))]), u)
      case Decrement(i) => Local(CountSem(s, i, -1), u)
      case Increment(i) => Local(CountSem(s, i, 1), u)
      case Take(q) =>
        if Q(s, q) == [] then Local(s, u.(hand := None))
        else Local(TakeHead(s, q), u.(hand := Some(Q(s, q)[0])))
      case Give => if t.hand == None then Local(s, u) else Local(Start(s, t.hand.value), u.(hand := None))
      case MakeSem(count) => Local(AddSem(s, count), u)
      case Sweep => Local(Awaken(s.(ticks := s.ticks + 1)), u)
      case Switch => Local(Dispatch(s), u)
      case _ => Local(s, u)
  }

  function RunPrimitive(m: Machine): Machine
    requires CanRun(m)
  {
    var s, t := m.s, CurrentThread(m);
    if t.code.Do? && t.code.i == Create then
      var u := t.(code := t.code.rest, mode := After(Create, t.mode), hand := Some(s.nextPid));
      Machine(s.(nextPid := s.nextPid + 1, live := s.live + {s.nextPid}), m.threads[s.nextPid := FRESH][s.current := u])
    else if t.code.Do? && t.code.i == Release && t.hand != None then
      var u := t.(code := t.code.rest, mode := After(Release, t.mode), hand := None);
      Machine(s.(live := s.live - {t.hand.value}), m.threads[s.current := u] - {t.hand.value})
    else
      var l := StepOf(s, t);
      Machine(l.s, m.threads[s.current := l.t])
  }

  datatype Action =
    | Primitive          // the current thread runs its next primitive
    | Timer              // a timer interrupt whose handler, dispatch included, is one step
    | Interrupt          // a timer interrupt whose handler is code of the thread it hits
    | Call(code: Code)   // the current thread, done with one call, makes another

  predicate Interruptible(m: Machine) {
    m.s.current in m.threads && CurrentThread(m).mode.irq
  }

  /** Interrupts are enabled, but the current thread is on a queue: it is about to leave. */
  predicate InGap(m: Machine) {
    Interruptible(m) && CurrentThread(m).mode.on != None
  }

  /** A tick hits wherever interrupts are enabled but in the gap, which module Discipline is about. */
  predicate Possible(m: Machine, a: Action) {
    match a
    case Primitive => CanRun(m)
    case Timer => Interruptible(m) && !InGap(m) && m.s.ticks < INT_MAX
    case Interrupt => Interruptible(m) && !InGap(m)
    case Call(c) =>
      && m.s.current in m.threads && CurrentThread(m).code == Done
      && Check(c, CurrentThread(m).mode, m.s.current)
  }

  function Act(m: Machine, a: Action): Machine
    requires Possible(m, a)
  {
    match a
    case Primitive => RunPrimitive(m)
    case Timer => m.(s := ClockHandler(m.s))
    case Interrupt => m.(threads := m.threads[m.s.current := CurrentThread(m).(code := IrqCode(CurrentThread(m).code))])
    case Call(c) => m.(threads := m.threads[m.s.current := CurrentThread(m).(code := c)])
  }

  // ----- the invariant -----

  /** Process h is in a local variable of thread p. */
  predicate InHandOf(m: Machine, p: Pid, h: Pid) {
    p in m.threads && m.threads[p].hand == Some(h)
  }

  ghost predicate SomewhereInHand(m: Machine, h: Pid) {
    exists p :: InHandOf(m, p, h)
  }

  /** What the thread of p knows about itself is so, and its remaining code is disciplined. */
  ghost predicate ThreadOk(m: Machine, p: Pid)
    requires p in m.threads
  {
    var t := m.threads[p];
    && Check(t.code, t.mode, p)
    && (t.hand != None ==> t.mode.holding != Nobody)
    && (t.mode.on != None ==> p == m.s.current && On(m.s, p, t.mode.on.value))
    && (On(m.s, p, Dead) && p != m.s.current ==> t.mode.holding == Nobody)
  }

  /** Process h, held by p, is off every queue; a corpse holds nobody itself. */
  ghost predicate HandOk(m: Machine, p: Pid, h: Pid)
    requires p in m.threads
  {
    && h in m.threads && h != m.s.current && h != IDLE && !Queued(m.s, h)
    && (m.threads[p].mode.holding == Corpse ==> h != REAPER && m.threads[h].mode.holding == Nobody)
  }

  ghost predicate MachineInv(m: Machine) {
    && QueuesOk(m.s) && m.s.reaper == InP
    && m.threads.Keys == m.s.live
    && m.s.current in m.threads && IDLE in m.threads
    && (forall p :: p in m.s.live ==> p < m.s.nextPid)
    && (forall p :: p in m.threads ==> ThreadOk(m, p))
    && (CurrentThread(m).mode.on == None ==> !Queued(m.s, m.s.current))
    && (forall p, h :: InHandOf(m, p, h) ==> HandOk(m, p, h))
    && (forall p, r, h :: InHandOf(m, p, h) && InHandOf(m, r, h) ==> p == r)
    && (forall p :: p in m.s.live && p != m.s.current && p != IDLE ==> Queued(m.s, p) || SomewhereInHand(m, p))
  }

  // ----- what the moves do to the queues -----

  lemma SameQueuesFacts(s: State, t: State)
    requires QueuesOk(s) && SameButQueues(s, t) && forall r :: Q(t, r) == Q(s, r)
    ensures QueuesOk(t) && s.current in s.live && IDLE in s.live
    ensures forall x :: Queued(t, x) <==> Queued(s, x)
    ensures forall x, r :: On(t, x, r) <==> On(s, x, r)
  {
    SameQueues(s, t);
  }

  lemma AppendFacts(s: State, t: State, q: QueueId, p: Pid)
    requires QueuesOk(s) && s.reaper == InP && Appended(s, t, q, p)
    requires p in s.live && !Queued(s, p) && Allowed(InP, p, q)
    ensures QueuesOk(t) && s.current in s.live && IDLE in s.live
    ensures forall x :: Queued(t, x) <==> Queued(s, x) || x == p
    ensures forall x, r :: On(t, x, r) <==> On(s, x, r) || (x == p && r == q)
  {
    AppendKeeps(s, t, q, p);
    AppendedMembers(s, t, q, p);
  }

  lemma RemoveFacts(s: State, t: State, q: QueueId)
    requires QueuesOk(s) && s.reaper == InP && Removed(s, t, q, 0)
    ensures QueuesOk(t) && s.current in s.live && IDLE in s.live
    ensures var h := Q(s, q)[0];
      && h in s.live && On(s, h, q)
      && (q != Run ==> h != IDLE) && (q == Dead ==> h != REAPER)
      && (forall r :: On(s, h, r) ==> r == q)
      && (forall x :: Queued(t, x) <==> Queued(s, x) && x != h)
      && (forall x, r :: On(t, x, r) <==> On(s, x, r) && x != h)
  {
    hide NoDup;
    assert On(s, Q(s, q)[0], q);
    assert NoDup(Q(s, q));
    RemoveKeeps(s, t, q, 0);
    RemovedMembers(s, t, q, 0);
    RemovedOrigin(s, q, Q(s, q)[0]);
  }

  lemma RemovedOrigin(s: State, q: QueueId, h: Pid)
    requires QueuesOk(s) && s.reaper == InP && On(s, h, q)
    ensures h in s.live && (q != Run ==> h != IDLE) && (q == Dead ==> h != REAPER)
    ensures forall r :: On(s, h, r) ==> r == q
  {
  }

  /** A pid joins or leaves the live set; it is on no queue. */
  lemma LiveFacts(s: State, t: State, h: Pid)
    requires QueuesOk(s) && s.reaper == InP && !Queued(s, h) && h != IDLE && h != REAPER && h != s.current
    requires t == s.(live := t.live, nextPid := t.nextPid)
    requires t.live == s.live + {h} || t.live == s.live - {h}
    ensures QueuesOk(t) && s.current in s.live && IDLE in s.live
    ensures forall x :: Queued(t, x) <==> Queued(s, x)
    ensures forall x, r :: On(t, x, r) <==> On(s, x, r)
  {
    assert forall r :: Q(t, r) == Q(s, r);
    assert forall x, r :: On(t, x, r) <==> On(s, x, r);
    assert forall r :: !On(s, h, r);
    forall r ensures NoDup(Q(t, r)) { assert NoDup(Q(s, r)); }
    forall x
      ensures Queued(t, x) <==> Queued(s, x)
    {
      if Queued(s, x) { var r :| On(s, x, r); assert On(t, x, r); }
    }
  }

  lemma FreshFacts(s: State)
    requires QueuesOk(s) && forall p :: p in s.live ==> p < s.nextPid
    ensures !Queued(s, s.nextPid) && s.nextPid !in s.live && s.nextPid != IDLE && s.nextPid != REAPER
  {
  }

  /** Whoever is dispatched was on the run queue, or is idle. */
  lemma DispatchFacts(s: State)
    requires QueuesOk(s)
    ensures QueuesOk(Dispatch(s))
    ensures forall x :: Queued(Dispatch(s), x) <==> Queued(s, x) && x != Dispatch(s).current
    ensures forall x :: On(Dispatch(s), x, Dead) <==> On(s, x, Dead)
    ensures Dispatch(s).current in s.live
    ensures Dispatch(s).current == IDLE || On(s, Dispatch(s).current, Run)
    ensures Dispatch(s).current == IDLE || Queued(s, Dispatch(s).current)
    ensures forall x :: On(s, x, Run) ==> !On(s, x, Dead)
    ensures Dispatch(s) == s.(current := Dispatch(s).current, run := Dispatch(s).run)
  {
    hide Allowed, NoDup;
    var t := Dispatch(s);
    if |s.run| > 0 {
      var u := s.(run := s.run[1..]);
      assert On(s, s.run[0], Run);
      assert s.run[1..] == Without(s.run, 0);
      RemoveKeeps(s, u, Run, 0);
      SameQueues(u, t);
    } else {
      IdleUnlisted(s);
      SameQueues(s, t);
    }
  }

  lemma IdleUnlisted(s: State)
    requires QueuesOk(s) && s.run == []
    ensures !Queued(s, IDLE)
  {
  }

  // ----- every action keeps it -----

  /** Nobody is lost if the hands only lose processes that are queued or current now. */
  lemma NobodyLost(m: Machine, n: Machine)
    requires MachineInv(m)
    requires forall p :: p in n.s.live && p != n.s.current && p != IDLE ==>
      Queued(n.s, p) || SomewhereInHand(n, p) || (p in m.s.live && p != m.s.current && !Queued(m.s, p))
    requires forall p, h :: InHandOf(m, p, h) && h in n.s.live ==> InHandOf(n, p, h) || Queued(n.s, h)
    ensures forall p :: p in n.s.live && p != n.s.current && p != IDLE ==> Queued(n.s, p) || SomewhereInHand(n, p)
  {
  }

  /** A step of the current thread that leaves all queues and its hand alone. */
  lemma LocalStep(m: Machine, s: State, u: Thread)
    requires MachineInv(m)
    requires SameButQueues(m.s, s) && s.nextPid == m.s.nextPid && forall r :: Q(s, r) == Q(m.s, r)
    requires u.hand == CurrentThread(m).hand && u.mode.on == CurrentThread(m).mode.on
    requires Check(u.code, u.mode, m.s.current)
    requires u.hand != None ==> u.mode.holding == CurrentThread(m).mode.holding
    ensures MachineInv(Machine(s, m.threads[m.s.current := u]))
  {
    SameQueuesFacts(m.s, s);
    LocalStepThreads(m, s, u);
  }

  lemma LocalStepThreads(m: Machine, s: State, u: Thread)
    requires MachineInv(m) && QueuesOk(s) && m.s.current in m.s.live && IDLE in m.s.live
    requires forall x :: Queued(s, x) <==> Queued(m.s, x)
    requires forall x, r :: On(s, x, r) <==> On(m.s, x, r)
    requires SameButQueues(m.s, s) && s.nextPid == m.s.nextPid
    requires u.hand == CurrentThread(m).hand && u.mode.on == CurrentThread(m).mode.on
    requires Check(u.code, u.mode, m.s.current)
    requires u.hand != None ==> u.mode.holding == CurrentThread(m).mode.holding
    ensures MachineInv(Machine(s, m.threads[m.s.current := u]))
  {
    hide Check, QueuesOk, Q, On, Queued, SomewhereInHand;
    var n := Machine(s, m.threads[m.s.current := u]);
    assert forall p, h :: InHandOf(n, p, h) <==> InHandOf(m, p, h);
    forall p | p in n.threads ensures ThreadOk(n, p) { assert ThreadOk(m, p); }
    forall p, h | InHandOf(n, p, h) ensures HandOk(n, p, h) { assert HandOk(m, p, h); }
    NobodyLost(m, n);
  }

  /** The current thread puts itself on a queue, interrupts off. */
  lemma QueueStep(m: Machine, s: State, q: QueueId, u: Thread)
    requires MachineInv(m) && CurrentThread(m).mode.on == None
    requires Appended(m.s, s, q, m.s.current) && s.nextPid == m.s.nextPid && Allowed(InP, m.s.current, q)
    requires u.hand == CurrentThread(m).hand && u.mode.holding == CurrentThread(m).mode.holding
    requires u.mode.on == Some(q) && !u.mode.irq && Check(u.code, u.mode, m.s.current)
    ensures MachineInv(Machine(s, m.threads[m.s.current := u]))
  {
    hide Check, QueuesOk, Q, On, Queued, SomewhereInHand, Allowed;
    var n := Machine(s, m.threads[m.s.current := u]);
    AppendFacts(m.s, s, q, m.s.current);
    assert forall p, h :: InHandOf(n, p, h) <==> InHandOf(m, p, h);
    forall p | p in n.threads ensures ThreadOk(n, p) { assert ThreadOk(m, p); }
    forall p, h | InHandOf(n, p, h) ensures HandOk(n, p, h) { assert HandOk(m, p, h); }
    NobodyLost(m, n);
  }

  /** The head of a queue goes into the hand of the current thread. */
  lemma TakeStep(m: Machine, s: State, q: QueueId, u: Thread)
    requires MachineInv(m) && Removed(m.s, s, q, 0) && s.nextPid == m.s.nextPid
    requires q != Run && q != Tick && CurrentThread(m).mode.on != Some(q)
    requires CurrentThread(m).mode.holding == Nobody
    requires u.hand == Some(Q(m.s, q)[0]) && u.mode == After(Take(q), CurrentThread(m).mode)
    requires Check(u.code, u.mode, m.s.current)
    ensures MachineInv(Machine(s, m.threads[m.s.current := u]))
  {
    hide Check, QueuesOk, Q, On, Queued, SomewhereInHand, HandOk;
    var h := Q(m.s, q)[0];
    RemoveFacts(m.s, s, q);
    ListedIsQueued(m.s, h, q);
    assert ThreadOk(m, m.s.current);
    NotInHand(m, h);
    assert q == Dead ==> m.threads[h].mode.holding == Nobody by { assert ThreadOk(m, h); }
    TakeStepThreads(m, s, if q == Dead then Corpse else Somebody, h, u);
  }

  lemma NotInHand(m: Machine, h: Pid)
    requires MachineInv(m) && Queued(m.s, h)
    ensures forall y :: !InHandOf(m, y, h)
  {
  }

  lemma TakeStepThreads(m: Machine, s: State, hold: Holding, h: Pid, u: Thread)
    requires MachineInv(m) && QueuesOk(s) && SameButQueues(m.s, s) && s.nextPid == m.s.nextPid
    requires h in m.s.live && h != IDLE && h != m.s.current && hold != Nobody
    requires hold == Corpse ==> h != REAPER && m.threads[h].mode.holding == Nobody
    requires forall y :: !InHandOf(m, y, h)
    requires forall x :: Queued(s, x) <==> Queued(m.s, x) && x != h
    requires forall x, r :: On(s, x, r) <==> On(m.s, x, r) && x != h
    requires CurrentThread(m).mode.holding == Nobody
    requires u.hand == Some(h) && u.mode == CurrentThread(m).mode.(holding := hold)
    requires Check(u.code, u.mode, m.s.current)
    ensures MachineInv(Machine(s, m.threads[m.s.current := u]))
  {
    hide Check, QueuesOk, Q, On, Queued, SomewhereInHand;
    var c := m.s.current;
    var n := Machine(s, m.threads[c := u]);
    assert ThreadOk(m, c);
    assert forall p, x :: InHandOf(n, p, x) <==> InHandOf(m, p, x) || (p == c && x == h);
    forall p | p in n.threads ensures ThreadOk(n, p) { assert ThreadOk(m, p); }
    forall p, x | InHandOf(n, p, x)
      ensures HandOk(n, p, x)
    {
      if p != c { assert HandOk(m, p, x); }
    }
    InHandSomewhere(n, c, h);
    NobodyLost(m, n);
  }

  lemma ListedIsQueued(s: State, p: Pid, q: QueueId)
    requires On(s, p, q)
    ensures Queued(s, p)
  {
  }

  lemma InHandSomewhere(m: Machine, p: Pid, h: Pid)
    requires InHandOf(m, p, h)
    ensures SomewhereInHand(m, h)
  {
  }

  /** The process in hand goes to the run queue. */
  lemma GiveStep(m: Machine, h: Pid, u: Thread)
    requires MachineInv(m) && CurrentThread(m).hand == Some(h)
    requires u.hand == None && u.mode == CurrentThread(m).mode.(holding := Nobody)
    requires Check(u.code, u.mode, m.s.current)
    ensures MachineInv(Machine(Start(m.s, h), m.threads[m.s.current := u]))
  {
    hide Check, QueuesOk, Q, On, Queued, SomewhereInHand;
    var s := Start(m.s, h);
    var n := Machine(s, m.threads[m.s.current := u]);
    var c := m.s.current;
    assert InHandOf(m, c, h) && HandOk(m, c, h);
    QStart(m.s, h);
    AppendFacts(m.s, s, Run, h);
    assert forall p, x :: InHandOf(n, p, x) <==> InHandOf(m, p, x) && p != c;
    forall p | p in n.threads ensures ThreadOk(n, p) { assert ThreadOk(m, p); }
    forall p, x | InHandOf(n, p, x) ensures HandOk(n, p, x) { assert HandOk(m, p, x); }
    NobodyLost(m, n);
  }

  /** A new process starts its life in the hand of its creator. */
  lemma CreateStep(m: Machine, u: Thread)
    requires MachineInv(m) && CurrentThread(m).mode.holding == Nobody
    requires u.hand == Some(m.s.nextPid) && u.mode == CurrentThread(m).mode.(irq := false, holding := Somebody)
    requires Check(u.code, u.mode, m.s.current)
    ensures MachineInv(Machine(m.s.(nextPid := m.s.nextPid + 1, live := m.s.live + {m.s.nextPid}),
      m.threads[m.s.nextPid := FRESH][m.s.current := u]))
  {
    FreshFacts(m.s);
    assert m.s.current in m.s.live;
    LiveFacts(m.s, m.s.(nextPid := m.s.nextPid + 1, live := m.s.live + {m.s.nextPid}), m.s.nextPid);
    CreateStepThreads(m, u, m.s.nextPid, m.s.(nextPid := m.s.nextPid + 1, live := m.s.live + {m.s.nextPid}));
  }

  lemma CreateStepThreads(m: Machine, u: Thread, h: Pid, s: State)
    requires MachineInv(m) && CurrentThread(m).mode.holding == Nobody
    requires h == m.s.nextPid && s == m.s.(nextPid := h + 1, live := m.s.live + {h})
    requires QueuesOk(s) && m.s.current in m.s.live && IDLE in m.s.live
    requires !Queued(m.s, h) && h !in m.s.live && h != IDLE && h != REAPER
    requires forall x :: Queued(s, x) <==> Queued(m.s, x)
    requires forall x, r :: On(s, x, r) <==> On(m.s, x, r)
    requires u.hand == Some(h) && u.mode == CurrentThread(m).mode.(irq := false, holding := Somebody)
    requires Check(u.code, u.mode, m.s.current)
    ensures MachineInv(Machine(s, m.threads[h := FRESH][m.s.current := u]))
  {
    hide Check, QueuesOk, Q, On, Queued, SomewhereInHand;
    var c := m.s.current;
    var n := Machine(s, m.threads[h := FRESH][c := u]);
    FreshIsOk(h);
    assert ThreadOk(m, c);
    assert forall p, x :: InHandOf(n, p, x) <==> InHandOf(m, p, x) || (p == c && x == h);
    forall p | p in n.threads
      ensures ThreadOk(n, p)
    {
      if p != h { assert ThreadOk(m, p); } else { UnlistedIsNowhere(m.s, h); }
    }
    assert forall p :: InHandOf(m, p, h) ==> h in m.threads;
    forall p, x | InHandOf(n, p, x)
      ensures HandOk(n, p, x)
    {
      if p != c { assert HandOk(m, p, x); }
    }
    InHandSomewhere(n, c, h);
    NobodyLost(m, n);
  }

  lemma FreshIsOk(h: Pid)
    ensures Check(FRESH.code, FRESH.mode, h)
  {
  }

  lemma UnlistedIsNowhere(s: State, p: Pid)
    requires !Queued(s, p)
    ensures forall q :: !On(s, p, q)
  {
  }

  /** A corpse disappears together with its thread. */
  lemma ReleaseStep(m: Machine, h: Pid, u: Thread)
    requires MachineInv(m) && CurrentThread(m).hand == Some(h) && CurrentThread(m).mode.holding == Corpse
    requires u.hand == None && u.mode == CurrentThread(m).mode.(holding := Nobody)
    requires Check(u.code, u.mode, m.s.current)
    ensures MachineInv(Machine(m.s.(live := m.s.live - {h}), m.threads[m.s.current := u] - {h}))
  {
    hide Check, QueuesOk, Q, On, Queued, SomewhereInHand;
    var c := m.s.current;
    var s := m.s.(live := m.s.live - {h});
    var n := Machine(s, m.threads[c := u] - {h});
    assert InHandOf(m, c, h) && HandOk(m, c, h) && ThreadOk(m, h) && ThreadOk(m, c);
    LiveFacts(m.s, s, h);
    assert forall p, x :: InHandOf(n, p, x) <==> InHandOf(m, p, x) && p != c;
    forall p | p in n.threads ensures ThreadOk(n, p) { assert ThreadOk(m, p); }
    forall p, x | InHandOf(n, p, x) ensures HandOk(n, p, x) { assert HandOk(m, p, x); }
    NobodyLost(m, n);
  }

  /**
   * The common end of a Switch and of the timer's handler: s is the state in front of the
   * dispatch, in which the current thread is on a queue or idle.
   */
  lemma Redispatched(m: Machine, s: State, u: Thread)
    requires MachineInv(m) && s.live == m.s.live && s.nextPid == m.s.nextPid && s.reaper == InP
    requires s.current == m.s.current && QueuesOk(s)
    requires Queued(s, s.current) || s.current == IDLE
    requires forall x :: x != s.current ==> (Queued(s, x) <==> Queued(m.s, x))
    requires forall x :: x != s.current ==> (On(s, x, Dead) <==> On(m.s, x, Dead))
    requires On(s, s.current, Dead) ==> u.mode.holding == Nobody
    requires u.hand == CurrentThread(m).hand && u.mode.holding == CurrentThread(m).mode.holding
    requires u.mode.on == None && Check(u.code, u.mode, m.s.current)
    ensures MachineInv(Machine(Dispatch(s), m.threads[m.s.current := u]))
  {
    hide Check, QueuesOk, Q, On, Queued, SomewhereInHand, Dispatch;
    var t := Dispatch(s);
    var c := m.s.current;
    var n := Machine(t, m.threads[c := u]);
    DispatchFacts(s);
    assert forall p, h :: InHandOf(n, p, h) <==> InHandOf(m, p, h);
    forall p | p in n.threads ensures ThreadOk(n, p) { assert ThreadOk(m, p); }
    forall p, h | InHandOf(n, p, h) ensures HandOk(n, p, h) { assert HandOk(m, p, h); }
    NobodyLost(m, n);
  }

  // ----- the primitives, one by one -----

  lemma CountKeepsQueues(s: State, i: nat, delta: int)
    ensures SameButQueues(s, CountSem(s, i, delta)) && CountSem(s, i, delta).nextPid == s.nextPid
    ensures forall r :: Q(CountSem(s, i, delta), r) == Q(s, r)
  {
  }

  lemma NewSemKeepsQueues(s: State, count: int)
    ensures SameButQueues(s, AddSem(s, count)) && AddSem(s, count).nextPid == s.nextPid
    ensures forall r :: Q(AddSem(s, count), r) == Q(s, r)
  {
  }

  lemma AppendAppends(s: State, q: QueueId, p: Pid)
    requires q != Tick && (q.Wait? ==> q.sem < |s.sems|)
    ensures Appended(s, Append(s, q, p), q, p) && Append(s, q, p).nextPid == s.nextPid
  {
  }

  lemma TakeHeadRemoves(s: State, q: QueueId)
    requires q != Tick && q != Run && Q(s, q) != []
    ensures Removed(s, TakeHead(s, q), q, 0) && TakeHead(s, q).nextPid == s.nextPid
  {
  }

  lemma CurrentFacts(m: Machine)
    requires MachineInv(m)
    ensures m.s.current in m.threads && ThreadOk(m, m.s.current)
    ensures m.s.current in m.s.live
  {
  }

  lemma PrimitiveKeepsInv(m: Machine)
    requires MachineInv(m) && CanRun(m)
    ensures MachineInv(RunPrimitive(m))
  {
    hide MachineInv, Allowed, Q, Queued, QueuesOk, Appended, Removed, SomewhereInHand, Append, TakeHead, Dispatch, CountSem, AddSem, SameButQueues;
    CurrentFacts(m);
    var s, t := m.s, CurrentThread(m);
    assert t.code.Do? ==> Demand(t.code.i, t.mode, s.current);
    if t.code.If? {
      SameState(s);
      LocalStep(m, s, t.(code := if Holds(s, t.code.t) then t.code.yes else t.code.no));
    } else {
      var u := t.(code := t.code.rest, mode := After(t.code.i, t.mode));
      match t.code.i {
        case QueueSelf(q) =>
          AppendAppends(s, q, s.current);
          QueueStep(m, Append(s, q, s.current), q, u);
        case SleepSelf(ms) => SleepStep(m, ms, u);
        case Decrement(i) =>
          CountKeepsQueues(s, i, -1);
          LocalStep(m, CountSem(s, i, -1), u);
        case Increment(i) =>
          CountKeepsQueues(s, i, 1);
          LocalStep(m, CountSem(s, i, 1), u);
        case Take(q) =>
          if Q(s, q) == [] {
            SameState(s);
            LocalStep(m, s, u.(hand := None));
          } else {
            TakeHeadRemoves(s, q);
            TakeStep(m, TakeHead(s, q), q, u.(hand := Some(Q(s, q)[0])));
          }
        case Give =>
          if t.hand == None {
            SameState(s);
            LocalStep(m, s, u);
          } else {
            GiveStep(m, t.hand.value, u.(hand := None));
          }
        case MakeSem(count) =>
          NewSemKeepsQueues(s, count);
          LocalStep(m, AddSem(s, count), u);
        case Create => CreateStep(m, u.(hand := Some(s.nextPid)));
        case Release =>
          if t.hand == None {
            SameState(s);
            LocalStep(m, s, u);
          } else {
            ReleaseStep(m, t.hand.value, u.(hand := None));
          }
        case Sweep => SweepStep(m, u);
        case Switch => SwitchStep(m, u);
        case _ =>
          SameState(s);
          LocalStep(m, s, u);
      }
    }
  }

  lemma SameState(s: State)
    ensures SameButQueues(s, s)
  {
  }

  lemma SleepStep(m: Machine, ms: int, u: Thread)
    requires MachineInv(m) && CurrentThread(m).mode.on == None
    requires Allowed(InP, m.s.current, Tick)
    requires u.hand == CurrentThread(m).hand && u.mode.holding == CurrentThread(m).mode.holding
    requires u.mode.on == Some(Tick) && !u.mode.irq && Check(u.code, u.mode, m.s.current)
    ensures MachineInv(Machine(m.s.(tick := m.s.tick + [Sleeper(m.s.current, WakeTick(ms, m.s.ticks))]),
      m.threads[m.s.current := u]))
  {
    hide MachineInv, Check, QueuesOk;
    var x := Sleeper(m.s.current, WakeTick(ms, m.s.ticks));
    var s := m.s.(tick := m.s.tick + [x]);
    assert PidsOf(s.tick) == PidsOf(m.s.tick) + [x.pid];
    QueueStep(m, s, Tick, u);
  }

  /** The current thread is on the queue it knows of, and on no other. */
  lemma OnWhat(m: Machine)
    requires MachineInv(m)
    ensures forall q :: On(m.s, m.s.current, q) ==> CurrentThread(m).mode.on == Some(q)
  {
    hide Check, Allowed;
    assert ThreadOk(m, m.s.current);
    forall q | On(m.s, m.s.current, q)
      ensures CurrentThread(m).mode.on == Some(q)
    {
      assert Queued(m.s, m.s.current);
    }
  }

  lemma SwitchStep(m: Machine, u: Thread)
    requires MachineInv(m) && Demand(Switch, CurrentThread(m).mode, m.s.current)
    requires u.hand == CurrentThread(m).hand && u.mode == CurrentThread(m).mode.(on := None)
    requires Check(u.code, u.mode, m.s.current)
    ensures MachineInv(Machine(Dispatch(m.s), m.threads[m.s.current := u]))
  {
    hide Check, QueuesOk, Q, Allowed;
    assert ThreadOk(m, m.s.current);
    OnWhat(m);
    Redispatched(m, m.s, u);
  }

  /** The handler finds the interrupted thread off every queue, because it was interruptible. */
  lemma TimerStep(m: Machine)
    requires MachineInv(m) && Possible(m, Timer)
    ensures MachineInv(m.(s := ClockHandler(m.s)))
  {
    hide Check, QueuesOk, Q, Queued, On, Awaken, Dispatch, SomewhereInHand, HandOk;
    assert ThreadOk(m, m.s.current);
    var c := m.s.current;
    var s := Start(Awaken(m.s.(ticks := m.s.ticks + 1)), c);
    SweepFacts(m.s);
    Redispatched(m, s, CurrentThread(m));
    assert m.threads[c := CurrentThread(m)] == m.threads;
  }

  /** The sweep moves sleepers only, and the current thread is not one of them. */
  lemma SweepStep(m: Machine, u: Thread)
    requires MachineInv(m) && CurrentThread(m).mode.on == None && m.s.ticks < INT_MAX
    requires u.hand == CurrentThread(m).hand && u.mode == CurrentThread(m).mode
    requires Check(u.code, u.mode, m.s.current)
    ensures MachineInv(Machine(Awaken(m.s.(ticks := m.s.ticks + 1)), m.threads[m.s.current := u]))
  {
    hide Check, QueuesOk, Q, Queued, On, Awaken, SomewhereInHand;
    AwakenFacts(m.s);
    var s := Awaken(m.s.(ticks := m.s.ticks + 1));
    var n := Machine(s, m.threads[m.s.current := u]);
    assert forall p, h :: InHandOf(n, p, h) <==> InHandOf(m, p, h);
    forall p | p in n.threads ensures ThreadOk(n, p) { assert ThreadOk(m, p); }
    forall p, h | InHandOf(n, p, h) ensures HandOk(n, p, h) { assert HandOk(m, p, h); }
    NobodyLost(m, n);
  }

  lemma AwakenFacts(s: State)
    requires QueuesOk(s) && s.reaper == InP
    ensures var t := Awaken(s.(ticks := s.ticks + 1));
      && QueuesOk(t) && SameButQueues(s, t) && t.nextPid == s.nextPid
      && (forall x :: Queued(t, x) <==> Queued(s, x))
      && (forall x :: On(t, x, Dead) <==> On(s, x, Dead))
  {
    hide Allowed, NoDup;
    var u := s.(ticks := s.ticks + 1);
    SameQueues(s, u);
    AwakenMoves(u);
    assert forall x :: On(Awaken(u), x, Dead) <==> On(s, x, Dead);
  }

  /** process_yield and proc_sleep_ms, at either level. */
  lemma QueuedIsChecked(i: Instr, k: Code, m: Mode, q: QueueId, self: Pid)
    requires (i == QueueSelf(Run) && q == Run) || (i.SleepSelf? && q == Tick && self != IDLE && self != REAPER)
    requires m.on == None && Check(k, m.(irq := true), self)
    ensures Check(Do(Save, Do(i, Do(Restore, ScheduleCode(k)))), m, self)
  {
    hide Check;
    var m1 := After(Save, m);
    var m2 := After(i, m1);
    var m3 := After(Restore, m2);
    var m4 := After(Disable, m3);
    var m5 := After(Switch, m4);
    assert After(Enable, m5) == m.(irq := true);
    CheckOne(Enable, k, m5, self);
    CheckOne(Switch, Do(Enable, k), m4, self);
    CheckOne(Disable, Do(Switch, Do(Enable, k)), m3, self);
    CheckOne(Restore, ScheduleCode(k), m2, self);
    CheckOne(i, Do(Restore, ScheduleCode(k)), m1, self);
    CheckOne(Save, Do(i, Do(Restore, ScheduleCode(k))), m, self);
  }

  lemma HandlerIsChecked(k: Code, m: Mode, self: Pid)
    requires m.on == None && Check(k, m.(irq := true), self)
    ensures Check(HandlerCode(k), m, self)
  {
    hide Check;
    var m1 := After(Save, m);
    assert After(Restore, m1) == m;
    QueuedIsChecked(QueueSelf(Run), k, m, Run, self);
    CheckOne(Restore, YieldCode(k), m1, self);
    CheckOne(Sweep, Do(Restore, YieldCode(k)), m1, self);
    CheckOne(Save, Do(Sweep, Do(Restore, YieldCode(k))), m, self);
  }

  /** Whatever thread it hits outside the gap, the interrupt's code may be run in front of its own. */
  lemma IrqCodeIsChecked(k: Code, m: Mode, self: Pid)
    requires Check(k, m, self) && m.irq && m.on == None
    ensures Check(IrqCode(k), m, self)
  {
    hide Check, HandlerCode;
    var m1 := After(Save, m);
    var m2 := After(Enable, m1);
    var m3 := After(Disable, m2);
    var end := Do(Disable, Do(Restore, k));
    assert After(Restore, m3) == m;
    CheckOne(Restore, k, m3, self);
    CheckOne(Disable, Do(Restore, k), m2, self);
    HandlerIsChecked(end, m2, self);
    CheckOne(Enable, HandlerCode(end), m1, self);
    CheckOne(Save, Do(Enable, HandlerCode(end)), m, self);
  }

  lemma CheckOne(i: Instr, rest: Code, m: Mode, self: Pid)
    requires Demand(i, m, self) && Check(rest, After(i, m), self)
    ensures Check(Do(i, rest), m, self)
  {
  }

  lemma SweepFacts(s: State)
    requires QueuesOk(s) && s.reaper == InP && !Queued(s, s.current)
    ensures var t := Start(Awaken(s.(ticks := s.ticks + 1)), s.current);
      && QueuesOk(t) && SameButQueues(s, t) && t.nextPid == s.nextPid
      && (forall x :: Queued(t, x) <==> Queued(s, x) || x == s.current)
      && (forall x :: On(t, x, Dead) <==> On(s, x, Dead))
      && !On(t, s.current, Dead)
  {
    hide Allowed, NoDup;
    var u := s.(ticks := s.ticks + 1);
    var v := Awaken(u);
    SameQueues(s, u);
    AwakenMoves(u);
    assert forall x :: On(v, x, Dead) <==> On(s, x, Dead);
    SweepAppend(v);
  }

  lemma SweepAppend(v: State)
    requires QueuesOk(v) && v.reaper == InP && !Queued(v, v.current)
    ensures var t := Start(v, v.current);
      && QueuesOk(t)
      && (forall x :: Queued(t, x) <==> Queued(v, x) || x == v.current)
      && (forall x :: On(t, x, Dead) <==> On(v, x, Dead))
      && !On(t, v.current, Dead)
  {
    QStart(v, v.current);
    UnlistedIsNowhere(v, v.current);
    AppendFacts(v, Start(v, v.current), Run, v.current);
  }

  lemma ActKeepsInv(m: Machine, a: Action)
    requires MachineInv(m) && Possible(m, a)
    ensures MachineInv(Act(m, a))
  {
    hide MachineInv, Check, QueuesOk, ClockHandler, RunPrimitive;
    match a
    case Primitive => PrimitiveKeepsInv(m);
    case Timer => TimerStep(m);
    case Interrupt =>
      SameState(m.s);
      CurrentFacts(m);
      IrqCodeIsChecked(CurrentThread(m).code, CurrentThread(m).mode, m.s.current);
      LocalStep(m, m.s, CurrentThread(m).(code := IrqCode(CurrentThread(m).code)));
    case Call(c) =>
      SameState(m.s);
      CurrentFacts(m);
      LocalStep(m, m.s, CurrentThread(m).(code := c));
  }

  // ----- all interleavings -----

  ghost predicate Trace(m: Machine, acts: seq<Action>)
    decreases |acts|
  {
    acts == [] || (Possible(m, acts[0]) && Trace(Act(m, acts[0]), acts[1..]))
  }

  ghost function Reach(m: Machine, acts: seq<Action>): Machine
    requires Trace(m, acts)
    decreases |acts|
  {
    if acts == [] then m else Reach(Act(m, acts[0]), acts[1..])
  }

  /**
   * The boot state: idle about to call schedule_next_process, two fresh processes on the
   * run queue. The reaper's program counter is its code here, so the field is fixed.
   */
  const BOOT := Machine(INIT.(reaper := InP), map[IDLE := FRESH, REAPER := FRESH, MAIN := FRESH])

  lemma BootHolds()
    ensures MachineInv(BOOT)
  {
    var s := BOOT.s;
    assert forall q :: Q(s, q) == if q == Run then [REAPER, MAIN] else [];
    assert On(s, REAPER, Run) && On(s, MAIN, Run);
  }

  lemma {:induction false} TraceKeepsInv(m: Machine, acts: seq<Action>)
    requires MachineInv(m) && Trace(m, acts)
    ensures MachineInv(Reach(m, acts))
    decreases |acts|
  {
    hide MachineInv, Act, Possible;
    if acts != [] {
      ActKeepsInv(m, acts[0]);
      TraceKeepsInv(Act(m, acts[0]), acts[1..]);
    }
  }

  datatype Spot = Running | Listed(q: QueueId, i: nat) | HeldBy(p: Pid) | Parked

  /** Where a process is. The current one counts as listed while it is on its way out. */
  ghost predicate AtSpot(m: Machine, p: Pid, at: Spot) {
    match at
    case Running => p == m.s.current && !Queued(m.s, p)
    case Listed(q, i) => i < |Q(m.s, q)| && Q(m.s, q)[i] == p
    case HeldBy(r) => InHandOf(m, r, p)
    case Parked => p == IDLE && p != m.s.current && !Queued(m.s, p)
  }

  /** Nobody has two spots, and whoever can be interrupted is off every queue but in the gap. */
  ghost predicate Consistent(m: Machine) {
    && (forall p, a, b :: AtSpot(m, p, a) && AtSpot(m, p, b) ==> a == b)
    && (Interruptible(m) && !InGap(m) ==> !Queued(m.s, m.s.current))
  }

  /**
   * However the primitives of the calls and the ticks interleave, with a tick wherever
   * interrupts are enabled but in the gap, and its handler interruptible in its turn: every
   * live process is in exactly one spot, and the current one can be on a queue only while
   * interrupts are off or in the gap.
   */
  lemma OneSpotAlways(acts: seq<Action>)
    requires Trace(BOOT, acts)
    ensures forall p :: p in Reach(BOOT, acts).s.live ==> exists at :: AtSpot(Reach(BOOT, acts), p, at)
    ensures Consistent(Reach(BOOT, acts))
  {
    BootHolds();
    TraceKeepsInv(BOOT, acts);
    var m := Reach(BOOT, acts);
    forall p | p in m.s.live
      ensures exists at :: AtSpot(m, p, at)
    {
      var at := SpotExists(m, p);
    }
    forall p, a, b | AtSpot(m, p, a) && AtSpot(m, p, b)
      ensures a == b
    {
      SpotIsUnique(m, p, a, b);
    }
    assert ThreadOk(m, m.s.current);
  }

  lemma SpotExists(m: Machine, p: Pid) returns (at: Spot)
    requires MachineInv(m) && p in m.s.live
    ensures AtSpot(m, p, at)
  {
    if Queued(m.s, p) {
      var q :| On(m.s, p, q);
      var i: nat :| i < |Q(m.s, q)| && Q(m.s, q)[i] == p;
      return Listed(q, i);
    }
    if p == m.s.current { return Running; }
    if p == IDLE { return Parked; }
    var r :| InHandOf(m, r, p);
    return HeldBy(r);
  }

  lemma SpotIsUnique(m: Machine, p: Pid, a: Spot, b: Spot)
    requires MachineInv(m) && AtSpot(m, p, a) && AtSpot(m, p, b)
    ensures a == b
  {
    hide Check, Allowed;
    if a.Listed? { assert On(m.s, p, a.q); }
    if b.Listed? { assert On(m.s, p, b.q); }
    if a.HeldBy? { assert HandOk(m, a.p, p); }
    if b.HeldBy? { assert HandOk(m, b.p, p); }
    if a.Listed? && b.Listed? { assert NoDup(Q(m.s, a.q)); }
  }
}
