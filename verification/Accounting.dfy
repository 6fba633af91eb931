/**
 * The reaper's accounting and the local variables, one primitive at a time: in every
 * interleaving of the kernel's own calls and the timer, a dequeue finds somebody.
 */
module Accounting {
  import opened Basics
  import opened Scheduler
  import opened Placement
  import opened Preemption
  import D = Discipline

  // ----- the kernel's calls -----

  datatype Routine =
    | Fork | Yield | Sleep(ms: int) | SemCreate(count: int) | P(sem: nat) | V(sem: nat)
    | Cleanup | Schedule | Reap

  function CodeOf(r: Routine): Code {
    match r
    case Fork => ForkCode(Done)
    case Yield => YieldCode(Done)
    case Sleep(ms) => SleepCode(ms, Done)
    case SemCreate(count) => CreateSemCode(count, Done)
    case P(i) => PCode(i, Done)
    case V(i) => VCode(i, Done)
    case Cleanup => CleanupCode(Done)
    case Schedule => ScheduleCode(Done)
    case Reap => ReapCode(Done)
  }

  /** The dead queue and its semaphore belong to cleanup and to the reaper's loop. */
  predicate MayCall(r: Routine, self: Pid) {
    (r.P? || r.V? ==> r.sem != DEAD_SEM) && (r.Reap? ==> self == REAPER)
  }

  /** Every call that is made is one of the kernel's. */
  ghost predicate KernelTrace(m: Machine, acts: seq<Action>)
    decreases |acts|
  {
    acts == [] || (
      && Possible(m, acts[0])
      && (acts[0].Call? ==> exists r :: MayCall(r, m.s.current) && acts[0].code == CodeOf(r))
      && KernelTrace(Act(m, acts[0]), acts[1..]))
  }

  // ----- what a thread still owes -----

  /** What one primitive adds to the dead queue's length minus its semaphore's count. */
  function Gain(i: Instr): int {
    match i
    case QueueSelf(q) => if q == Dead then 1 else 0
    case Take(q) => if q == Dead then -1 else 0
    case Increment(i) => if i == DEAD_SEM then -1 else 0
    case Decrement(i) => if i == DEAD_SEM then 1 else 0
    case _ => 0
  }

  /** What the remaining code will add; both branches of a test add the same. */
  function Owed(c: Code): int {
    match c
    case Done => 0
    case Do(i, rest) => Gain(i) + Owed(rest)
    case If(_, yes, _) => Owed(yes)
  }

  /** Not between the count and the waiters of a semaphore. */
  predicate Neutral(c: Code) {
    match c
    case Done => true
    case Do(i, _) => !(i.QueueSelf? && i.q.Wait?) && !(i.Take? && i.q.Wait?)
    case If(_, _, _) => false
  }

  predicate Starts(c: Code, i: Instr) {
    c.Do? && c.i == i
  }

  /** A count is changed only in front of the test that goes with it. */
  predicate Follows(i: Instr, rest: Code) {
    match i
    case Decrement(k) => rest.If? && rest.t == Negative(k)
    case Increment(k) => rest.If? && rest.t == Waiting(k)
    case _ => Neutral(rest)
  }

  /** Where others may run, the thread is between calls' halves, and only the reaper owes anything. */
  predicate Settled(c: Code, self: Pid) {
    Neutral(c) && (self != REAPER ==> Owed(c) == 0)
  }

  /** What the check demands of one primitive. */
  predicate MayDo(i: Instr, rest: Code, m: Mode, self: Pid) {
    && Follows(i, rest)
    && (i == Switch ==> Settled(rest, self))
    && (i == Take(Dead) ==> self == REAPER && m.on == None && Owed(rest) == 0)
    && (i == Give || i == Release ==> m.holding != Nobody)
    && (i == Restore ==> m.saved != [])
  }

  /** And of a test. */
  predicate MayTest(t: Test, yes: Code, no: Code) {
    && Owed(yes) == Owed(no) && Neutral(no)
    && Starts(yes, match t case Negative(i) => QueueSelf(Wait(i)) case Waiting(i) => Take(Wait(i)))
  }

  /** The static check for all of this, along the lines of Preemption.Check. */
  predicate Booked(c: Code, m: Mode, self: Pid) {
    && (m.irq ==> Settled(c, self))
    && match c
       case Done => true
       case Do(i, rest) => MayDo(i, rest, m, self) && Booked(rest, After(i, m), self)
       case If(t, yes, no) => MayTest(t, yes, no) && Booked(yes, m, self) && Booked(no, m, self)
  }

  lemma DoBooked(i: Instr, rest: Code, m: Mode, self: Pid)
    requires MayDo(i, rest, m, self) && Booked(rest, After(i, m), self)
    requires m.irq ==> Neutral(Do(i, rest)) && (self != REAPER ==> Gain(i) + Owed(rest) == 0)
    ensures Booked(Do(i, rest), m, self) && Owed(Do(i, rest)) == Gain(i) + Owed(rest)
  {
  }

  lemma TestBooked(t: Test, yes: Code, no: Code, m: Mode, self: Pid)
    requires MayTest(t, yes, no) && Booked(yes, m, self) && Booked(no, m, self) && !m.irq
    ensures Booked(If(t, yes, no), m, self) && Owed(If(t, yes, no)) == Owed(no)
  {
  }

  lemma NothingIsBooked(m: Mode, self: Pid)
    ensures Booked(Done, m, self) && Owed(Done) == 0
  {
  }

  lemma ScheduleIsBooked(k: Code, m: Mode, self: Pid)
    requires Neutral(k) && (self != REAPER ==> Owed(k) == 0) && Booked(k, m.(irq := true, on := None), self)
    ensures Booked(ScheduleCode(k), m, self) && Owed(ScheduleCode(k)) == Owed(k)
  {
    hide Booked, Owed;
    var m1 := After(Disable, m);
    var m2 := After(Switch, m1);
    assert After(Enable, m2) == m.(irq := true, on := None);
    DoBooked(Enable, k, m2, self);
    DoBooked(Switch, Do(Enable, k), m1, self);
    DoBooked(Disable, Do(Switch, Do(Enable, k)), m, self);
  }

  lemma StartIsBooked(k: Code, m: Mode, self: Pid)
    requires Neutral(k) && (m.irq && self != REAPER ==> Owed(k) == 0) && m.holding != Nobody
    requires Booked(k, m.(holding := Nobody), self)
    ensures Booked(StartCode(k), m, self) && Owed(StartCode(k)) == Owed(k)
  {
    hide Booked, Owed;
    var m1 := After(Save, m);
    var m2 := After(Give, m1);
    assert After(Restore, m2) == m.(holding := Nobody);
    DoBooked(Restore, k, m2, self);
    DoBooked(Give, Do(Restore, k), m1, self);
    DoBooked(Save, Do(Give, Do(Restore, k)), m, self);
  }

  lemma PIsBooked(i: nat, k: Code, m: Mode, self: Pid)
    requires Neutral(k) && m.on == None && m.holding == Nobody && Booked(k, m, self)
    requires self != REAPER ==> Owed(k) == 0 && i != DEAD_SEM
    ensures Booked(PCode(i, k), m, self) && Owed(PCode(i, k)) == Owed(k) + if i == DEAD_SEM then 1 else 0
  {
    hide Booked, Owed;
    var m1 := After(Save, m);
    var m2 := After(QueueSelf(Wait(i)), m1);
    var m3 := m2.(irq := true, on := None);
    assert After(Restore, m1) == m && After(Restore, m3) == m;
    DoBooked(Restore, k, m1, self);
    DoBooked(Restore, k, m3, self);
    ScheduleIsBooked(Do(Restore, k), m2, self);
    var yes := Do(QueueSelf(Wait(i)), ScheduleCode(Do(Restore, k)));
    var no := Do(Restore, k);
    DoBooked(QueueSelf(Wait(i)), ScheduleCode(no), m1, self);
    TestBooked(Negative(i), yes, no, m1, self);
    DoBooked(Decrement(i), If(Negative(i), yes, no), m1, self);
    DoBooked(Save, Do(Decrement(i), If(Negative(i), yes, no)), m, self);
  }

  lemma VIsBooked(i: nat, k: Code, m: Mode, self: Pid)
    requires Neutral(k) && m.holding == Nobody && Booked(k, m, self)
    requires m.irq && self != REAPER ==> Owed(k) == 0 && i != DEAD_SEM
    ensures Booked(VCode(i, k), m, self) && Owed(VCode(i, k)) == Owed(k) - if i == DEAD_SEM then 1 else 0
  {
    hide Booked, Owed;
    var m1 := After(Save, m);
    var m2 := After(Take(Wait(i)), m1);
    var no := Do(Restore, k);
    assert After(Restore, m1) == m && m2.(holding := Nobody) == m1;
    DoBooked(Restore, k, m1, self);
    StartIsBooked(no, m2, self);
    var yes := Do(Take(Wait(i)), StartCode(no));
    DoBooked(Take(Wait(i)), StartCode(no), m1, self);
    TestBooked(Waiting(i), yes, no, m1, self);
    DoBooked(Increment(i), If(Waiting(i), yes, no), m1, self);
    DoBooked(Save, Do(Increment(i), If(Waiting(i), yes, no)), m, self);
  }

  /** process_yield and proc_sleep_ms. */
  lemma QueuedIsBooked(i: Instr, k: Code, m: Mode, self: Pid)
    requires i == QueueSelf(Run) || i.SleepSelf?
    requires Settled(k, self) && Booked(k, m.(irq := true, on := None), self)
    ensures var c := Do(Save, Do(i, Do(Restore, ScheduleCode(k))));
      Booked(c, m, self) && Owed(c) == Owed(k)
  {
    hide Booked, Owed;
    var m1 := After(Save, m);
    var m2 := After(i, m1);
    var m3 := After(Restore, m2);
    ScheduleIsBooked(k, m3, self);
    DoBooked(Restore, ScheduleCode(k), m2, self);
    DoBooked(i, Do(Restore, ScheduleCode(k)), m1, self);
    DoBooked(Save, Do(i, Do(Restore, ScheduleCode(k))), m, self);
  }

  lemma CleanupIsBooked(m: Mode, self: Pid)
    requires m.holding == Nobody
    ensures Booked(CleanupCode(Done), m, self) && Owed(CleanupCode(Done)) == 0
  {
    hide Booked, Owed;
    var m1 := After(Disable, m);
    var m2 := After(QueueSelf(Dead), m1);
    var v := VCode(DEAD_SEM, ScheduleCode(Done));
    NothingIsBooked(m2.(irq := true, on := None), self);
    ScheduleIsBooked(Done, m2, self);
    VIsBooked(DEAD_SEM, ScheduleCode(Done), m2, self);
    DoBooked(QueueSelf(Dead), v, m1, self);
    DoBooked(Disable, Do(QueueSelf(Dead), v), m, self);
  }

  lemma ReapIsBooked(m: Mode)
    requires m.on == None && m.holding == Nobody
    ensures Booked(ReapCode(Done), m, REAPER) && Owed(ReapCode(Done)) == 0
  {
    hide Booked, Owed;
    var m1 := After(Save, m);
    var m2 := After(Take(Dead), m1);
    var m3 := After(Restore, m2);
    var c1 := Do(Restore, Do(Release, Done));
    NothingIsBooked(After(Release, m3), REAPER);
    DoBooked(Release, Done, m3, REAPER);
    DoBooked(Restore, Do(Release, Done), m2, REAPER);
    DoBooked(Take(Dead), c1, m1, REAPER);
    DoBooked(Save, Do(Take(Dead), c1), m, REAPER);
    PIsBooked(DEAD_SEM, Do(Save, Do(Take(Dead), c1)), m, REAPER);
  }

  lemma ForkIsBooked(m: Mode, self: Pid)
    requires m.holding == Nobody
    ensures Booked(ForkCode(Done), m, self) && Owed(ForkCode(Done)) == 0
  {
    hide Booked, Owed;
    var m1 := After(Create, m);
    NothingIsBooked(m1.(holding := Nobody), self);
    StartIsBooked(Done, m1, self);
    DoBooked(Create, StartCode(Done), m, self);
  }

  lemma HandlerIsBooked(k: Code, m: Mode, self: Pid)
    requires m.irq && m.on == None && Settled(k, self) && Booked(k, m, self)
    ensures Booked(HandlerCode(k), m, self) && Owed(HandlerCode(k)) == Owed(k)
  {
    hide Booked, Owed;
    var m1 := After(Save, m);
    assert After(Restore, m1) == m;
    QueuedIsBooked(QueueSelf(Run), k, m, self);
    DoBooked(Restore, YieldCode(k), m1, self);
    DoBooked(Sweep, Do(Restore, YieldCode(k)), m1, self);
    DoBooked(Save, Do(Sweep, Do(Restore, YieldCode(k))), m, self);
  }

  /** The timer interrupt in front of the code that it hits owes what that code does. */
  lemma IrqIsBooked(k: Code, m: Mode, self: Pid)
    requires m.irq && m.on == None && Settled(k, self) && Booked(k, m, self)
    ensures Booked(IrqCode(k), m, self) && Owed(IrqCode(k)) == Owed(k) && Neutral(IrqCode(k))
  {
    hide Booked, Owed, HandlerCode;
    var m1 := After(Save, m);
    var m2 := After(Enable, m1);
    var m3 := After(Disable, m2);
    var end := Do(Disable, Do(Restore, k));
    assert After(Restore, m3) == m;
    DoBooked(Restore, k, m3, self);
    DoBooked(Disable, Do(Restore, k), m2, self);
    HandlerIsBooked(end, m2, self);
    HandlerIsNeutral(end);
    DoBooked(Enable, HandlerCode(end), m1, self);
    DoBooked(Save, Do(Enable, HandlerCode(end)), m, self);
  }

  lemma HandlerIsNeutral(k: Code)
    ensures Neutral(HandlerCode(k))
  {
  }

  /** Every call of the kernel passes, and owes nothing when it begins. */
  lemma RoutinesAreBooked(r: Routine, m: Mode, self: Pid)
    requires MayCall(r, self) && m.on == None && m.holding == Nobody
    ensures Booked(CodeOf(r), m, self) && Neutral(CodeOf(r)) && Owed(CodeOf(r)) == 0
  {
    hide Booked, Owed;
    NothingIsBooked(m, self);
    NothingIsBooked(m.(irq := true), self);
    NothingIsBooked(m.(irq := false), self);
    match r {
      case Fork => ForkIsBooked(m, self);
      case Yield => QueuedIsBooked(QueueSelf(Run), Done, m, self);
      case Sleep(ms) => QueuedIsBooked(SleepSelf(ms), Done, m, self);
      case SemCreate(count) => DoBooked(MakeSem(count), Done, m, self);
      case P(i) => PIsBooked(i, Done, m, self);
      case V(i) => VIsBooked(i, Done, m, self);
      case Cleanup => CleanupIsBooked(m, self);
      case Schedule => ScheduleIsBooked(Done, m, self);
      case Reap => ReapIsBooked(m);
    }
  }

  // ----- the invariant -----

  /** A thread passes the check, holds somebody when it should, and where it may be left is settled. */
  ghost predicate Tidy(m: Machine, p: Pid)
    requires p in m.threads
  {
    var t := m.threads[p];
    && Booked(t.code, t.mode, p)
    && HandsFull(t)
    && (p != m.s.current ==> Settled(t.code, p))
  }

  /** How far the dead semaphore's count is ahead of its waiters at this point of P or V. */
  function Skew(c: Code): int {
    match c
    case Done => 0
    case Do(i, _) => if i == QueueSelf(Wait(DEAD_SEM)) then 1 else if i == Take(Wait(DEAD_SEM)) then -1 else 0
    case If(t, _, _) => if t == Negative(DEAD_SEM) then 1 else if t == Waiting(DEAD_SEM) then -1 else 0
  }

  /** The books, given what the threads owe together and the code that runs. */
  ghost predicate Account(s: State, owed: int, c: Code) {
    && DEAD_SEM < |s.sems|
    && var x := s.sems[DEAD_SEM];
    && |s.dead| == x.count - owed
    && |x.waiters| == (if x.count + Skew(c) < 0 then -(x.count + Skew(c)) else 0)
    && (Starts(c, QueueSelf(Wait(DEAD_SEM))) ==> x.count < 0)
    && (c.Do? && c.i.Take? && c.i.q.Wait? ==> Q(s, c.i.q) != [])
  }

  function TotalOwed(m: Machine): int
    requires REAPER in m.threads && m.s.current in m.threads
  {
    Owed(m.threads[REAPER].code) + if m.s.current == REAPER then 0 else Owed(m.threads[m.s.current].code)
  }

  ghost predicate AccountInv(m: Machine) {
    && MachineInv(m) && REAPER in m.threads && m.s.current in m.threads
    && (forall p :: p in m.threads ==> Tidy(m, p))
    && Account(m.s, TotalOwed(m), CurrentThread(m).code)
  }

  /** Only the reaper ever waits for the dead. */
  lemma ReaperIsNotWaiting(s: State)
    requires QueuesOk(s) && !Queued(s, REAPER) && DEAD_SEM < |s.sems|
    ensures s.sems[DEAD_SEM].waiters == []
  {
    var w := s.sems[DEAD_SEM].waiters;
    if w != [] { assert On(s, w[0], Wait(DEAD_SEM)); }
  }

  /** What the reaper takes from the dead queue is there. */
  lemma DeadQueueFilled(m: Machine)
    requires AccountInv(m) && Starts(CurrentThread(m).code, Take(Dead))
    ensures m.s.current == REAPER && m.s.dead != []
  {
    hide Check;
    assert Tidy(m, m.s.current) && ThreadOk(m, m.s.current);
    ReaperIsNotWaiting(m.s);
  }

  // ----- one primitive -----

  lemma TestAccount(s: State, owed: int, t: Test, yes: Code, no: Code)
    requires Account(s, owed, If(t, yes, no)) && MayTest(t, yes, no)
    ensures Account(s, owed, if Holds(s, t) then yes else no)
  {
  }

  /** A primitive that touches neither the dead queue nor its semaphore. */
  lemma QuietAccount(s: State, s2: State, owed: int, i: Instr, rest: Code)
    requires Account(s, owed, Do(i, rest)) && Neutral(rest)
    requires s2.dead == s.dead && |s2.sems| > DEAD_SEM && s2.sems[DEAD_SEM] == s.sems[DEAD_SEM]
    requires i != QueueSelf(Wait(DEAD_SEM)) && i != Take(Wait(DEAD_SEM))
    ensures Account(s2, owed, rest)
  {
  }

  lemma AppendAccount(s: State, p: Pid, owed: int, q: QueueId, rest: Code)
    requires Account(s, owed, Do(QueueSelf(q), rest)) && Neutral(rest) && q != Tick
    ensures Account(Append(s, q, p), owed - Gain(QueueSelf(q)), rest)
  {
  }

  lemma CountAccount(s: State, owed: int, i: Instr, k: nat, delta: int, rest: Code)
    requires Account(s, owed, Do(i, rest)) && Follows(i, rest)
    requires (i == Decrement(k) && delta == -1) || (i == Increment(k) && delta == 1)
    ensures Account(CountSem(s, k, delta), owed - Gain(i), rest)
  {
  }

  lemma TakeAccount(s: State, owed: int, q: QueueId, rest: Code)
    requires Account(s, owed, Do(Take(q), rest)) && Neutral(rest) && q != Tick && q != Run && Q(s, q) != []
    ensures Account(TakeHead(s, q), owed - Gain(Take(q)), rest)
  {
  }

  /** What the current thread takes from any queue is there. */
  lemma TakeFinds(m: Machine, q: QueueId)
    requires AccountInv(m) && Starts(CurrentThread(m).code, Take(q))
    ensures q != Run && q != Tick && Q(m.s, q) != []
  {
    hide QueuesOk, Booked;
    CurrentFacts(m);
    assert Demand(Take(q), CurrentThread(m).mode, m.s.current);
    if q == Dead { DeadQueueFilled(m); }
  }

  /** What the current thread hands on or gives back is in its hand. */
  lemma HandIsFull(m: Machine)
    requires AccountInv(m)
    requires Starts(CurrentThread(m).code, Give) || Starts(CurrentThread(m).code, Release)
    ensures CurrentThread(m).hand != None
  {
    assert Tidy(m, m.s.current);
  }

  /** The code that the current thread has left behind one primitive. */
  function NextCode(s: State, c: Code): Code {
    match c
    case Done => Done
    case Do(_, rest) => rest
    case If(t, yes, no) => if Holds(s, t) then yes else no
  }

  lemma PrimitiveDemands(m: Machine)
    requires AccountInv(m)
    ensures var t := CurrentThread(m);
      && (t.code.Do? ==> Demand(t.code.i, t.mode, m.s.current) && MayDo(t.code.i, t.code.rest, t.mode, m.s.current))
      && (t.code.If? ==> MayTest(t.code.t, t.code.yes, t.code.no))
  {
    hide MachineInv, Account;
    CurrentFacts(m);
    assert Tidy(m, m.s.current);
  }

  /** The books after one primitive, whoever runs next. */
  lemma PrimitiveAccount(m: Machine)
    requires AccountInv(m) && CanRun(m)
    ensures var c := CurrentThread(m).code;
      Account(RunPrimitive(m).s, TotalOwed(m) - (if c.Do? then Gain(c.i) else 0), NextCode(m.s, c))
  {
    hide MachineInv, Tidy, Account, Q, Append, TakeHead, CountSem, AddSem, Awaken, Owed, Dispatch, Demand, Check,
      Booked, Neutral, TotalOwed;
    var s, t, owed := m.s, CurrentThread(m), TotalOwed(m);
    PrimitiveDemands(m);
    if t.code.If? {
      TestAccount(s, owed, t.code.t, t.code.yes, t.code.no);
    } else {
      var rest := t.code.rest;
      match t.code.i {
        case QueueSelf(q) => AppendAccount(s, s.current, owed, q, rest);
        case Decrement(i) => CountAccount(s, owed, t.code.i, i, -1, rest);
        case Increment(i) => CountAccount(s, owed, t.code.i, i, 1, rest);
        case Take(q) =>
          TakeFinds(m, q);
          TakeAccount(s, owed, q, rest);
        case _ => StillAccount(m);
      }
    }
  }

  lemma StillAccount(m: Machine)
    requires AccountInv(m) && CanRun(m) && CurrentThread(m).code.Do?
    requires var i := CurrentThread(m).code.i;
      !i.QueueSelf? && !i.Decrement? && !i.Increment? && !i.Take? && Follows(i, CurrentThread(m).code.rest)
    ensures var c := CurrentThread(m).code;
      Account(RunPrimitive(m).s, TotalOwed(m) - Gain(c.i), c.rest)
  {
    hide MachineInv, Account, Owed;
    AccountHasSem(m.s, TotalOwed(m), CurrentThread(m).code);
    QuietAccount(m.s, RunPrimitive(m).s, TotalOwed(m), CurrentThread(m).code.i, CurrentThread(m).code.rest);
  }

  lemma AccountHasSem(s: State, owed: int, c: Code)
    requires Account(s, owed, c)
    ensures DEAD_SEM < |s.sems|
  {
  }

  function NextMode(t: Thread): Mode
    requires t.code.Do? && t.code.i == Restore ==> t.mode.saved != []
  {
    if t.code.Do? then After(t.code.i, t.mode) else t.mode
  }

  /** A local variable that should hold somebody does. */
  predicate HandsFull(t: Thread) {
    t.mode.holding != Nobody ==> t.hand != None
  }

  /** What happens to the threads: the current one goes on, one may appear, one may vanish. */
  ghost predicate WentOn(m: Machine, n: Machine)
    requires CanRun(m)
  {
    var c, t := m.s.current, CurrentThread(m);
    && c in n.threads && n.threads[c].code == NextCode(m.s, t.code) && n.threads[c].mode == NextMode(t)
    && (HandsFull(t) ==> HandsFull(n.threads[c]))
    && (forall p :: p in n.threads && p != c ==> (p in m.threads && n.threads[p] == m.threads[p]) || n.threads[p] == FRESH)
    && (REAPER in n.threads && REAPER != c ==> REAPER in m.threads && n.threads[REAPER] == m.threads[REAPER])
    && (n.s.current == c || Starts(t.code, Switch))
  }

  lemma WentOnPlain(m: Machine)
    requires CanRun(m) && !Starts(CurrentThread(m).code, Create) && !Starts(CurrentThread(m).code, Release)
    requires CurrentThread(m).code.Do? && CurrentThread(m).code.i.Take? ==> Q(m.s, CurrentThread(m).code.i.q) != []
    ensures WentOn(m, RunPrimitive(m))
  {
    hide Q, Holds, Dispatch;
  }

  lemma WentOnCreate(m: Machine)
    requires CanRun(m) && Starts(CurrentThread(m).code, Create)
    requires m.s.nextPid !in m.threads && m.s.nextPid != REAPER
    ensures WentOn(m, RunPrimitive(m))
  {
  }

  lemma WentOnRelease(m: Machine)
    requires CanRun(m) && Starts(CurrentThread(m).code, Release)
    requires CurrentThread(m).hand.Some? ==> CurrentThread(m).hand.value != m.s.current && CurrentThread(m).hand.value != REAPER
    ensures WentOn(m, RunPrimitive(m))
  {
  }

  lemma PrimitiveThreads(m: Machine)
    requires AccountInv(m) && CanRun(m)
    ensures WentOn(m, RunPrimitive(m))
  {
    hide WentOn, RunPrimitive, MachineInv, Tidy, Account;
    var t := CurrentThread(m);
    if Starts(t.code, Create) {
      FreshPid(m);
      WentOnCreate(m);
    } else if Starts(t.code, Release) {
      CorpseIsOther(m);
      WentOnRelease(m);
    } else {
      if t.code.Do? && t.code.i.Take? { TakeFinds(m, t.code.i.q); }
      WentOnPlain(m);
    }
  }

  lemma FreshPid(m: Machine)
    requires MachineInv(m)
    ensures m.s.nextPid !in m.threads && m.s.current in m.threads && m.s.nextPid != REAPER
  {
    hide Check, Queued;
  }

  lemma CorpseIsOther(m: Machine)
    requires AccountInv(m) && Starts(CurrentThread(m).code, Release)
    ensures CurrentThread(m).hand.Some? ==>
      CurrentThread(m).hand.value != m.s.current && CurrentThread(m).hand.value != REAPER
  {
    hide Booked, Queued, Account;
    CurrentFacts(m);
    var t := CurrentThread(m);
    assert Demand(Release, t.mode, m.s.current);
    if t.hand.Some? { assert InHandOf(m, m.s.current, t.hand.value) && HandOk(m, m.s.current, t.hand.value); }
  }

  lemma PrimitiveTidy(m: Machine)
    requires AccountInv(m) && CanRun(m)
    ensures forall p :: p in RunPrimitive(m).threads ==> Tidy(RunPrimitive(m), p)
  {
    var n, c := RunPrimitive(m), m.s.current;
    PrimitiveThreads(m);
    assert Tidy(m, c);
    DoneOwesNothing();
    hide RunPrimitive, MachineInv, Account, Owed, MayDo, MayTest;
    forall p | p in n.threads
      ensures Tidy(n, p)
    {
      if p != c && p in m.threads { assert Tidy(m, p); }
    }
  }

  lemma DoneOwesNothing()
    ensures Owed(Done) == 0
  {
  }

  /** The books do not depend on the code of a thread that may be left where it is. */
  lemma NeutralAccount(s: State, owed: int, c: Code, d: Code)
    requires Account(s, owed, c) && Neutral(c) && Neutral(d)
    ensures Account(s, owed, d)
  {
  }

  lemma PrimitiveOwed(m: Machine)
    requires AccountInv(m) && CanRun(m) && !Starts(CurrentThread(m).code, Switch)
    requires REAPER in RunPrimitive(m).threads && m.s.current in RunPrimitive(m).threads
    ensures RunPrimitive(m).s.current == m.s.current
    ensures var c := CurrentThread(m).code;
      TotalOwed(RunPrimitive(m)) == TotalOwed(m) - if c.Do? then Gain(c.i) else 0
  {
    assert Tidy(m, m.s.current);
    PrimitiveThreads(m);
    hide RunPrimitive, MachineInv, Account;
  }

  /** Behind a switch nobody but the reaper owes anything. */
  lemma SwitchOwed(m: Machine, n: Machine)
    requires AccountInv(m) && CanRun(m) && Starts(CurrentThread(m).code, Switch) && n == RunPrimitive(m)
    requires REAPER in n.threads && n.s.current in n.threads
    requires forall p :: p in n.threads ==> Tidy(n, p)
    ensures TotalOwed(n) == TotalOwed(m) && Neutral(CurrentThread(m).code.rest) && Neutral(CurrentThread(n).code)
  {
    hide RunPrimitive, MachineInv, Account, Check, Booked, Neutral;
    var c, d := m.s.current, n.s.current;
    PrimitiveThreads(m);
    PrimitiveDemands(m);
    SwitchAddsNobody(m);
    assert Tidy(m, c) && Tidy(m, REAPER) && (d != c ==> Tidy(m, d));
  }

  lemma SwitchAddsNobody(m: Machine)
    requires CanRun(m) && Starts(CurrentThread(m).code, Switch)
    ensures forall p :: p in RunPrimitive(m).threads && p != m.s.current ==>
      p in m.threads && RunPrimitive(m).threads[p] == m.threads[p]
  {
  }

  lemma PrimitiveKeepsAccount(m: Machine)
    requires AccountInv(m) && CanRun(m)
    ensures AccountInv(RunPrimitive(m))
  {
    hide MachineInv, Account, Tidy, TotalOwed, RunPrimitive, Owed, Settled, Neutral, Meaningful, Holds;
    var n := RunPrimitive(m);
    PrimitiveKeepsInv(m);
    MachineFacts(n);
    PrimitiveTidy(m);
    PrimitiveAccount(m);
    PrimitiveThreads(m);
    if Starts(CurrentThread(m).code, Switch) {
      SwitchOwed(m, n);
      NeutralAccount(n.s, TotalOwed(m), CurrentThread(m).code.rest, CurrentThread(n).code);
    } else {
      PrimitiveOwed(m);
    }
  }

  lemma MachineFacts(m: Machine)
    requires MachineInv(m)
    ensures REAPER in m.threads && m.s.current in m.threads
  {
    hide Check, Queued;
  }

  // ----- a tick, a call -----

  lemma TimerKeepsAccount(m: Machine)
    requires AccountInv(m) && Possible(m, Timer)
    ensures AccountInv(Act(m, Timer))
  {
    hide MachineInv, ClockHandler, Account, Booked, Owed, Neutral, TotalOwed, Check;
    var n := Act(m, Timer);
    ActKeepsInv(m, Timer);
    MachineFacts(n);
    HandlerSparesTheDead(m.s);
    SettledWhereOpen(m);
    forall p | p in n.threads
      ensures Tidy(n, p)
    {
      assert Tidy(m, p);
    }
    assert Tidy(m, n.s.current);
    HandlerOwes(m, n);
    SameBooksAccount(m.s, n.s, TotalOwed(m), CurrentThread(m).code);
    NeutralAccount(n.s, TotalOwed(m), CurrentThread(m).code, CurrentThread(n).code);
  }

  /** Two settled threads: it does not matter which of them is current. */
  lemma HandlerOwes(m: Machine, n: Machine)
    requires REAPER in m.threads && m.s.current in m.threads && n.threads == m.threads && n.s.current in m.threads
    requires Settled(CurrentThread(m).code, m.s.current) && Settled(CurrentThread(n).code, n.s.current)
    ensures TotalOwed(n) == TotalOwed(m)
  {
    hide Owed, Neutral;
  }

  lemma HandlerSparesTheDead(s: State)
    ensures ClockHandler(s).dead == s.dead && ClockHandler(s).sems == s.sems
  {
  }

  lemma SameBooksAccount(s: State, s2: State, owed: int, c: Code)
    requires Account(s, owed, c) && Neutral(c) && s2.dead == s.dead && s2.sems == s.sems
    ensures Account(s2, owed, c)
  {
  }

  lemma CallKeepsAccount(m: Machine, r: Routine)
    requires AccountInv(m) && Possible(m, Call(CodeOf(r))) && MayCall(r, m.s.current)
    ensures AccountInv(Act(m, Call(CodeOf(r))))
  {
    hide MachineInv, Account, CodeOf, Check, Booked, Owed, Neutral, TotalOwed;
    var c := m.s.current;
    var n := Act(m, Call(CodeOf(r)));
    ActKeepsInv(m, Call(CodeOf(r)));
    FreeThread(m);
    RoutinesAreBooked(r, CurrentThread(m).mode, c);
    NeutralAccount(m.s, TotalOwed(m), Done, CodeOf(r));
    DoneOwesNothing();
    CallOwed(m, n, CodeOf(r));
    forall p | p in n.threads
      ensures Tidy(n, p)
    {
      assert Tidy(m, p);
    }
  }

  lemma FreeThread(m: Machine)
    requires AccountInv(m) && CurrentThread(m).code == Done
    ensures CurrentThread(m).mode.on == None && CurrentThread(m).mode.holding == Nobody && Neutral(Done)
  {
    hide Account, Booked;
    CurrentFacts(m);
  }

  lemma CallOwed(m: Machine, n: Machine, c: Code)
    requires REAPER in m.threads && m.s.current in m.threads && Owed(c) == Owed(CurrentThread(m).code)
    requires n == m.(threads := m.threads[m.s.current := CurrentThread(m).(code := c)])
    ensures TotalOwed(n) == TotalOwed(m)
  {
  }

  lemma InterruptKeepsAccount(m: Machine)
    requires AccountInv(m) && Possible(m, Interrupt)
    ensures AccountInv(Act(m, Interrupt))
  {
    hide MachineInv, Account, IrqCode, Check, Owed, Neutral, TotalOwed, Booked;
    var t, n := CurrentThread(m), Act(m, Interrupt);
    ActKeepsInv(m, Interrupt);
    SettledWhereOpen(m);
    IrqIsBooked(t.code, t.mode, m.s.current);
    NeutralAccount(m.s, TotalOwed(m), t.code, IrqCode(t.code));
    CallOwed(m, n, IrqCode(t.code));
    forall p | p in n.threads
      ensures Tidy(n, p)
    {
      assert Tidy(m, p);
    }
  }

  /** A thread that can be interrupted is settled. */
  lemma SettledWhereOpen(m: Machine)
    requires AccountInv(m) && Interruptible(m)
    ensures Settled(CurrentThread(m).code, m.s.current) && Booked(CurrentThread(m).code, CurrentThread(m).mode, m.s.current)
  {
    hide MachineInv, Account;
    assert Tidy(m, m.s.current);
  }

  // ----- all interleavings -----

  /** Whose call it is: idle only schedules, and only a user process sleeps, ends, or waits for others. */
  predicate Plays(r: Routine, self: Pid) {
    match r
    case Schedule => self == IDLE
    case Reap => self == REAPER
    case P(_) => self != IDLE && self != REAPER
    case Sleep(_) => self != IDLE && self != REAPER
    case Cleanup => self != IDLE && self != REAPER
    case _ => true
  }

  /** Nothing is left out: each call is possible with interrupts on or off. */
  lemma EveryCallIsPossible(m: Machine, r: Routine)
    requires MachineInv(m) && CurrentThread(m).code == Done && MayCall(r, m.s.current) && Plays(r, m.s.current)
    ensures Possible(m, Call(CodeOf(r)))
  {
    hide MachineInv, Check, D.Careful;
    CurrentFacts(m);
    D.FreeThreadMode(m);
    var t, self := CurrentThread(m), m.s.current;
    D.CallsAreDisciplined(t.mode.irq, t.mode.saved, self, if r.P? || r.V? then r.sem else 1);
    D.YieldAndSleepAreChecked(t.mode.irq, t.mode.saved, self, if r.Sleep? then r.ms else 0);
    if !r.Yield? && !r.Sleep? { D.CarefulIsChecked(CodeOf(r), t.mode, self); }
  }

  lemma BootAccount()
    ensures AccountInv(BOOT)
  {
    BootHolds();
    hide MachineInv;
  }

  lemma {:induction false} KernelTraceKeeps(m: Machine, acts: seq<Action>)
    requires AccountInv(m) && KernelTrace(m, acts)
    ensures Trace(m, acts) && AccountInv(Reach(m, acts))
    decreases |acts|
  {
    hide AccountInv, Act, Possible, CodeOf;
    if acts != [] {
      StepKeepsAccount(m, acts[0]);
      KernelTraceKeeps(Act(m, acts[0]), acts[1..]);
    }
  }

  lemma StepKeepsAccount(m: Machine, a: Action)
    requires AccountInv(m) && Possible(m, a)
    requires a.Call? ==> exists r :: MayCall(r, m.s.current) && a.code == CodeOf(r)
    ensures AccountInv(Act(m, a))
  {
    hide AccountInv, CodeOf, RunPrimitive, Check;
    match a
    case Primitive => PrimitiveKeepsAccount(m);
    case Timer => TimerKeepsAccount(m);
    case Interrupt => InterruptKeepsAccount(m);
    case Call(c) =>
      var r :| MayCall(r, m.s.current) && c == CodeOf(r);
      CallKeepsAccount(m, r);
  }

  /**
   * However the kernel's calls and the ticks interleave, interrupts on or off at each call,
   * with ticks everywhere but in the gap: a dequeue always finds somebody,
   * the reaper's included, so it never frees through NULL; and what is started or freed is
   * always in hand.
   */
  lemma NothingIsTakenInVain(acts: seq<Action>)
    requires KernelTrace(BOOT, acts)
    ensures Trace(BOOT, acts) && REAPER in Reach(BOOT, acts).threads && Reach(BOOT, acts).s.current in Reach(BOOT, acts).threads
    ensures var m := Reach(BOOT, acts);
      var c := CurrentThread(m).code;
      && (c.Do? && c.i.Take? ==> Q(m.s, c.i.q) != [])
      && (Starts(c, Take(Dead)) ==> m.s.current == REAPER)
      && DEAD_SEM < |m.s.sems| && |m.s.dead| == m.s.sems[DEAD_SEM].count - TotalOwed(m)
      && (Starts(c, Give) || Starts(c, Release) ==> CurrentThread(m).hand != None)
  {
    BootAccount();
    KernelTraceKeeps(BOOT, acts);
    var m := Reach(BOOT, acts);
    MachineFacts(m);
    var c := CurrentThread(m).code;
    hide MachineInv, Tidy;
    if c.Do? && c.i.Take? { TakeFinds(m, c.i.q); }
    if Starts(c, Take(Dead)) { DeadQueueFilled(m); }
    if Starts(c, Give) || Starts(c, Release) { HandIsFull(m); }
  }
}
