/** Which calls of the kernel survive a timer interrupt, and what they amount to without one. */
module Discipline {
  import opened Basics
  import opened Scheduler
  import opened Placement
  import opened Preemption
  import Runs

  /** A call made by a thread that is on no queue and holds nobody. */
  function Entry(irq: bool, saved: seq<bool>): Mode {
    Mode(irq, saved, None, Nobody)
  }

  /**
   * The check of module Preemption, and on top of it: interrupts are never enabled while the
   * thread is on a queue. Code that passes has no gap.
   */
  predicate Careful(c: Code, m: Mode, self: Pid) {
    match c
    case Done => m.on == None && m.holding == Nobody
    case Do(i, rest) =>
      && Demand(i, m, self) && (i == Restore ==> m.saved[0] ==> m.on == None)
      && Careful(rest, After(i, m), self)
    case If(_, yes, no) => !m.irq && Careful(yes, m, self) && Careful(no, m, self)
  }

  lemma {:induction false} CarefulIsChecked(c: Code, m: Mode, self: Pid)
    requires Careful(c, m, self)
    ensures Check(c, m, self)
  {
    match c
    case Done =>
    case Do(i, rest) => CarefulIsChecked(rest, After(i, m), self);
    case If(_, yes, no) =>
      CarefulIsChecked(yes, m, self);
      CarefulIsChecked(no, m, self);
  }

  /** process_fork, semaphore_P, semaphore_V, cleanup, the idle loop and the reaper's loop. */
  lemma CallsAreDisciplined(irq: bool, saved: seq<bool>, self: Pid, i: nat)
    ensures Careful(ForkCode(Done), Entry(irq, saved), self)
    ensures self != IDLE && (i == DEAD_SEM <==> self == REAPER) ==> Careful(PCode(i, Done), Entry(irq, saved), self)
    ensures Careful(VCode(i, Done), Entry(irq, saved), self)
    ensures self != IDLE && self != REAPER ==> Careful(CleanupCode(Done), Entry(irq, saved), self)
    ensures Careful(ScheduleCode(Done), Entry(irq, saved), self) <==> self == IDLE
    ensures self == REAPER ==> Careful(ReapCode(Done), Entry(irq, saved), self)
    ensures forall count: int :: Careful(CreateSemCode(count, Done), Entry(irq, saved), self)
  {
    forall count: int
      ensures Careful(CreateSemCode(count, Done), Entry(irq, saved), self)
    {
      assert Careful(Done, After(MakeSem(count), Entry(irq, saved)), self);
    }
    hide Demand, After, Allowed;
    if self != IDLE && (i == DEAD_SEM <==> self == REAPER) { PIsDisciplined(i, Done, Entry(irq, saved), self); }
    VIsDisciplined(i, Done, Entry(irq, saved), self);
    ForkIsDisciplined(irq, saved, self);
    if self != IDLE && self != REAPER { CleanupIsDisciplined(irq, saved, self); }
    OnlyIdleMaySchedule(irq, saved, self);
    if self == REAPER { ReapIsDisciplined(irq, saved); }
  }

  lemma ForkIsDisciplined(irq: bool, saved: seq<bool>, self: Pid)
    ensures Careful(ForkCode(Done), Entry(irq, saved), self)
  {
    StartIsDisciplined(Done, Entry(false, saved).(holding := Somebody), self);
  }

  lemma CleanupIsDisciplined(irq: bool, saved: seq<bool>, self: Pid)
    requires self != IDLE && self != REAPER
    ensures Careful(CleanupCode(Done), Entry(irq, saved), self)
  {
    var dying := Mode(false, saved, Some(Dead), Nobody);
    LeavingIsDisciplined(Done, dying, self);
    VIsDisciplined(DEAD_SEM, ScheduleCode(Done), dying, self);
    assert Careful(Do(QueueSelf(Dead), VCode(DEAD_SEM, ScheduleCode(Done))), After(Disable, Entry(irq, saved)), self);
  }

  lemma OnlyIdleMaySchedule(irq: bool, saved: seq<bool>, self: Pid)
    ensures Careful(ScheduleCode(Done), Entry(irq, saved), self) <==> self == IDLE
  {
    if self == IDLE {
      LeavingIsDisciplined(Done, Entry(irq, saved), self);
    } else {
      assert !Careful(Do(Switch, Do(Enable, Done)), After(Disable, Entry(irq, saved)), self);
    }
  }

  lemma ReapIsDisciplined(irq: bool, saved: seq<bool>)
    ensures Careful(ReapCode(Done), Entry(irq, saved), REAPER)
  {
    var m1 := After(Save, Entry(irq, saved));
    var m2 := After(Take(Dead), m1);
    assert After(Restore, m2) == Entry(irq, saved).(holding := Corpse);
    assert Careful(Do(Release, Done), After(Restore, m2), REAPER);
    assert Careful(Do(Restore, Do(Release, Done)), m2, REAPER);
    assert Careful(Do(Take(Dead), Do(Restore, Do(Release, Done))), m1, REAPER);
    PIsDisciplined(DEAD_SEM, Do(Save, Do(Take(Dead), Do(Restore, Do(Release, Done)))), Entry(irq, saved), REAPER);
  }

  lemma StartIsDisciplined(k: Code, m: Mode, self: Pid)
    requires m.irq ==> m.on == None
    ensures Careful(StartCode(k), m, self) <==> Careful(k, m.(holding := Nobody), self)
  {
    var m1 := After(Save, m);
    var m2 := After(Give, m1);
    assert After(Restore, m2) == m.(holding := Nobody);
    assert Careful(Do(Restore, k), m2, self) <==> Careful(k, After(Restore, m2), self);
    assert Careful(Do(Give, Do(Restore, k)), m1, self) <==> Careful(Do(Restore, k), m2, self);
  }

  /** The tail of every blocking call, run by a thread that has queued itself. */
  lemma LeavingIsDisciplined(k: Code, m: Mode, self: Pid)
    requires (m.on != None || self == IDLE) && m.holding == Nobody
    ensures Careful(ScheduleCode(k), m, self) <==> Careful(k, m.(irq := true, on := None), self)
  {
    var m1 := After(Disable, m);
    var m2 := After(Switch, m1);
    assert After(Enable, m2) == m.(irq := true, on := None);
    assert Careful(Do(Enable, k), m2, self) <==> Careful(k, After(Enable, m2), self);
    assert Careful(Do(Switch, Do(Enable, k)), m1, self) <==> Careful(Do(Enable, k), m2, self);
  }

  lemma PIsDisciplined(i: nat, k: Code, m: Mode, self: Pid)
    requires m.on == None && m.holding == Nobody && self != IDLE && (i == DEAD_SEM <==> self == REAPER)
    requires Careful(k, m, self)
    ensures Careful(PCode(i, k), m, self)
  {
    var m1 := After(Save, m);
    var m2 := After(QueueSelf(Wait(i)), m1);
    var m3 := m2.(irq := true, on := None);
    assert After(Restore, m1) == m && After(Restore, m3) == m;
    assert Careful(Do(Restore, k), m1, self) && Careful(Do(Restore, k), m3, self);
    LeavingIsDisciplined(Do(Restore, k), m2, self);
    assert Careful(Do(QueueSelf(Wait(i)), ScheduleCode(Do(Restore, k))), m1, self);
    assert Careful(Do(Decrement(i),
      If(Negative(i), Do(QueueSelf(Wait(i)), ScheduleCode(Do(Restore, k))), Do(Restore, k))), m1, self);
  }

  lemma VIsDisciplined(i: nat, k: Code, m: Mode, self: Pid)
    requires m.holding == Nobody && (m.irq ==> m.on == None) && m.on != Some(Wait(i))
    requires Careful(k, m, self)
    ensures Careful(VCode(i, k), m, self)
  {
    var m1 := After(Save, m);
    var m2 := After(Take(Wait(i)), m1);
    assert After(Restore, m1) == m;
    assert Careful(Do(Restore, k), m1, self);
    assert m2.(holding := Nobody) == m1;
    StartIsDisciplined(Do(Restore, k), m2, self);
    assert Careful(Do(Take(Wait(i)), StartCode(Do(Restore, k))), m1, self);
    assert Careful(Do(Increment(i),
      If(Waiting(i), Do(Take(Wait(i)), StartCode(Do(Restore, k))), Do(Restore, k))), m1, self);
  }

  /** process_yield and proc_sleep_ms are careful exactly when they are entered with interrupts off. */
  lemma YieldAndSleepNeedInterruptsOff(irq: bool, saved: seq<bool>, self: Pid, ms: int)
    ensures Careful(YieldCode(Done), Entry(irq, saved), self) <==> !irq
    ensures self != IDLE && self != REAPER ==> (Careful(SleepCode(ms, Done), Entry(irq, saved), self) <==> !irq)
  {
    QueuedTail(irq, saved, Run, self);
    QueuedTail(irq, saved, Tick, self);
    var m1 := After(Save, Entry(irq, saved));
    assert Careful(Do(QueueSelf(Run), Do(Restore, ScheduleCode(Done))), m1, self)
      <==> Careful(Do(Restore, ScheduleCode(Done)), m1.(on := Some(Run)), self);
    assert Careful(Do(SleepSelf(ms), Do(Restore, ScheduleCode(Done))), m1, self)
      <==> Allowed(InP, self, Tick) && Careful(Do(Restore, ScheduleCode(Done)), m1.(on := Some(Tick)), self);
  }

  lemma QueuedTail(irq: bool, saved: seq<bool>, q: QueueId, self: Pid)
    ensures Careful(Do(Restore, ScheduleCode(Done)), Mode(false, [irq] + saved, Some(q), Nobody), self) <==> !irq
  {
    var m := Mode(false, [irq] + saved, Some(q), Nobody);
    assert After(Restore, m) == Mode(irq, saved, Some(q), Nobody);
    LeavingIsDisciplined(Done, After(Restore, m), self);
  }

  /** At either level they pass the check that says nothing about the gap. */
  lemma YieldAndSleepAreChecked(irq: bool, saved: seq<bool>, self: Pid, ms: int)
    ensures Check(YieldCode(Done), Entry(irq, saved), self)
    ensures self != IDLE && self != REAPER ==> Check(SleepCode(ms, Done), Entry(irq, saved), self)
  {
    QueuedIsChecked(QueueSelf(Run), Done, Entry(irq, saved), Run, self);
    if self != IDLE && self != REAPER { QueuedIsChecked(SleepSelf(ms), Done, Entry(irq, saved), Tick, self); }
  }

  /** clock_handler has the gap of its process_yield, again unless it is entered with interrupts off. */
  lemma HandlerNeedsInterruptsOff(irq: bool, saved: seq<bool>, self: Pid)
    ensures Careful(HandlerCode(Done), Entry(irq, saved), self) <==> !irq
  {
    YieldAndSleepNeedInterruptsOff(irq, saved, self, 0);
    var m1 := After(Save, Entry(irq, saved));
    assert After(Restore, m1) == Entry(irq, saved);
    assert Careful(Do(Restore, YieldCode(Done)), m1, self) <==> Careful(YieldCode(Done), After(Restore, m1), self);
    assert Careful(Do(Sweep, Do(Restore, YieldCode(Done))), m1, self) <==> Careful(Do(Restore, YieldCode(Done)), m1, self);
  }

  /** And c_irq_handler enters it with interrupts on, whatever it interrupts. */
  lemma IrqHandlerIsNotCareful(k: Code, m: Mode, self: Pid)
    ensures !Careful(IrqCode(k), m, self)
  {
    var m2 := After(Enable, After(Save, m));
    var end := Do(Disable, Do(Restore, k));
    YieldIsNotCareful(end, m2, self);
    var m3 := After(Save, m2);
    assert After(Restore, m3) == m2;
    assert !Careful(Do(Restore, YieldCode(end)), m3, self);
    assert !Careful(Do(Sweep, Do(Restore, YieldCode(end))), m3, self);
    assert !Careful(HandlerCode(end), m2, self);
  }

  lemma YieldIsNotCareful(k: Code, m: Mode, self: Pid)
    requires m.irq
    ensures !Careful(YieldCode(k), m, self)
  {
    var m1 := After(Save, m);
    var m2 := After(QueueSelf(Run), m1);
    assert !Careful(Do(Restore, ScheduleCode(k)), m2, self);
    assert !Careful(Do(QueueSelf(Run), Do(Restore, ScheduleCode(k))), m1, self);
  }

  /**
   * salloc returns with interrupts off when it succeeds, and nothing in process_fork turns
   * them on again; so a process_yield right behind a process_fork is safe after all.
   */
  lemma YieldBehindForkIsDisciplined(irq: bool, saved: seq<bool>, self: Pid)
    ensures Careful(ForkCode(YieldCode(Done)), Entry(irq, saved), self)
  {
    YieldAndSleepNeedInterruptsOff(false, saved, self, 0);
    StartIsDisciplined(YieldCode(Done), Entry(false, saved).(holding := Somebody), self);
  }

  // ----- the race -----

  /** n primitives of the current thread in a row, no interrupt. */
  ghost predicate Arrives(m: Machine, n: nat, goal: Machine)
    decreases n
  {
    if n == 0 then m == goal else CanRun(m) && Arrives(RunPrimitive(m), n - 1, goal)
  }

  /** The same for state and thread alone; only the last primitive may be the switch. */
  ghost predicate Goes(s: State, t: Thread, n: nat, s2: State, t2: Thread)
    decreases n
  {
    if n == 0 then s == s2 && t == t2
    else
      && MayStep(s, t)
      && (n > 1 ==> StepOf(s, t).s.current == s.current)
      && Goes(StepOf(s, t).s, StepOf(s, t).t, n - 1, s2, t2)
  }

  predicate MayStep(s: State, t: Thread) {
    t.code.If? || (t.code.Do? && Meaningful(t.code.i, t.mode, s) && t.code.i != Create && t.code.i != Release)
  }

  lemma {:induction false} GoesArrives(m: Machine, n: nat, s2: State, t2: Thread)
    requires m.s.current in m.threads && Goes(m.s, CurrentThread(m), n, s2, t2)
    ensures Arrives(m, n, Machine(s2, m.threads[m.s.current := t2]))
    decreases n
  {
    hide StepOf;
    if n == 0 {
      assert m.threads[m.s.current := t2] == m.threads;
    } else {
      var l := StepOf(m.s, CurrentThread(m));
      var m1 := Machine(l.s, m.threads[m.s.current := l.t]);
      assert RunPrimitive(m) == m1;
      if n > 1 {
        GoesArrives(m1, n - 1, s2, t2);
        assert m1.threads[m.s.current := t2] == m.threads[m.s.current := t2];
      } else {
        assert Arrives(m1, 0, m1);
      }
    }
  }

  lemma Begin(s: State, t: Thread)
    ensures Goes(s, t, 0, s, t)
  {
  }

  /** One more primitive at the end. */
  lemma {:induction false} Then(s: State, t: Thread, n: nat, s1: State, t1: Thread, s2: State, t2: Thread)
    requires Goes(s, t, n, s1, t1) && (n > 0 ==> s1.current == s.current)
    requires MayStep(s1, t1) && StepOf(s1, t1) == Local(s2, t2)
    ensures Goes(s, t, n + 1, s2, t2)
    decreases n
  {
    hide StepOf;
    if n > 0 {
      GoesKeepsCurrent(s, t, n, s1, t1);
      Then(StepOf(s, t).s, StepOf(s, t).t, n - 1, s1, t1, s2, t2);
    } else {
      assert Goes(s2, t2, 0, s2, t2);
    }
  }

  lemma {:induction false} GoesKeepsCurrent(s: State, t: Thread, n: nat, s1: State, t1: Thread)
    requires Goes(s, t, n, s1, t1) && n > 0 && s1.current == s.current
    ensures StepOf(s, t).s.current == s.current
    decreases n
  {
    hide StepOf;
  }

  /** A primitive that changes the thread's mode only. */
  lemma Plain(s: State, t: Thread)
    requires t.code.Do? && (t.code.i == Save || t.code.i == Enable || t.code.i == Disable
      || (t.code.i == Restore && t.mode.saved != []))
    ensures MayStep(s, t) && StepOf(s, t) == Local(s, t.(code := t.code.rest, mode := After(t.code.i, t.mode)))
  {
  }

  lemma SaveRestore(m: Mode)
    ensures After(Save, m).saved != [] && After(Restore, After(Save, m)) == m
  {
  }

  lemma SwitchIsStep(s: State, t: Thread)
    requires t.code.Do? && t.code.i == Switch
    ensures MayStep(s, t) && StepOf(s, t) == Local(Dispatch(s), t.(code := t.code.rest, mode := After(Switch, t.mode)))
  {
    hide Dispatch;
  }

  lemma SweepIsStep(s: State, t: Thread)
    requires t.code.Do? && t.code.i == Sweep && s.ticks < INT_MAX
    ensures MayStep(s, t) && StepOf(s, t) == Local(Awaken(s.(ticks := s.ticks + 1)), t.(code := t.code.rest))
  {
    hide Awaken;
  }

  /** Two stretches, the first without the switch. */
  lemma {:induction false} GoesOn(s: State, t: Thread, n: nat, s1: State, t1: Thread, k: nat, s2: State, t2: Thread)
    requires Goes(s, t, n, s1, t1) && s1.current == s.current && Goes(s1, t1, k, s2, t2)
    ensures Goes(s, t, n + k, s2, t2)
    decreases n
  {
    hide StepOf;
    if n > 0 {
      GoesKeepsCurrent(s, t, n, s1, t1);
      GoesOn(StepOf(s, t).s, StepOf(s, t).t, n - 1, s1, t1, k, s2, t2);
    }
  }

  /** Up to the gap: queued, interrupt level restored. */
  lemma GapGoes(s: State, t: Thread, i: Instr, q: QueueId, k: Code, s2: State)
    requires t.code == Do(Save, Do(i, Do(Restore, ScheduleCode(k))))
    requires (i == QueueSelf(Run) && q == Run && s2 == Start(s, s.current))
      || (i.SleepSelf? && q == Tick && s2 == s.(tick := s.tick + [Sleeper(s.current, WakeTick(i.ms, s.ticks))]))
    ensures Goes(s, t, 3, s2, t.(code := ScheduleCode(k), mode := t.mode.(on := Some(q))))
  {
    hide Goes, WakeTick;
    var t1 := t.(code := t.code.rest, mode := After(Save, t.mode));
    var t2 := t.(code := t1.code.rest, mode := After(i, t1.mode));
    var t3 := t.(code := ScheduleCode(k), mode := t.mode.(on := Some(q)));
    Begin(s, t);
    Then(s, t, 0, s, t, s, t1);
    Then(s, t, 1, s, t1, s2, t2);
    assert After(Restore, t2.mode) == t3.mode;
    Then(s, t, 2, s2, t2, s2, t3);
  }

  /** The state of a machine after the current thread has gone on to code k in mode md. */
  function Moved(m: Machine, s: State, k: Code, md: Mode): Machine
    requires m.s.current in m.threads
  {
    Machine(s, m.threads[m.s.current := CurrentThread(m).(code := k, mode := md)])
  }

  /** A thread that enters process_yield runs into the gap. */
  lemma YieldGap(m: Machine, k: Code)
    requires m.s.current in m.threads && CurrentThread(m).code == YieldCode(k)
    ensures Arrives(m, 3, Moved(m, Start(m.s, m.s.current), ScheduleCode(k), CurrentThread(m).mode.(on := Some(Run))))
  {
    hide Arrives, Goes;
    var t := CurrentThread(m);
    GapGoes(m.s, t, QueueSelf(Run), Run, k, Start(m.s, m.s.current));
    GoesArrives(m, 3, Start(m.s, m.s.current), t.(code := ScheduleCode(k), mode := t.mode.(on := Some(Run))));
  }

  lemma SleepGap(m: Machine, ms: int, k: Code)
    requires m.s.current in m.threads && CurrentThread(m).code == SleepCode(ms, k)
    ensures Arrives(m, 3, Moved(m, m.s.(tick := m.s.tick + [Sleeper(m.s.current, WakeTick(ms, m.s.ticks))]),
      ScheduleCode(k), CurrentThread(m).mode.(on := Some(Tick))))
  {
    hide Arrives, Goes, WakeTick;
    var t := CurrentThread(m);
    var s := m.s.(tick := m.s.tick + [Sleeper(m.s.current, WakeTick(ms, m.s.ticks))]);
    GapGoes(m.s, t, SleepSelf(ms), Tick, k, s);
    GoesArrives(m, 3, s, t.(code := ScheduleCode(k), mode := t.mode.(on := Some(Tick))));
  }

  /** Process p is listed at two positions, of one queue or of two. */
  ghost predicate Twice(s: State, p: Pid) {
    exists q, i: nat, r, j: nat ::
      i < |Q(s, q)| && Q(s, q)[i] == p && j < |Q(s, r)| && Q(s, r)[j] == p && (q != r || i != j)
  }

  lemma TwiceAt(s: State, p: Pid, q: QueueId, i: nat, r: QueueId, j: nat)
    requires i < |Q(s, q)| && Q(s, q)[i] == p && j < |Q(s, r)| && Q(s, r)[j] == p && (q != r || i != j)
    ensures Twice(s, p)
  {
  }

  lemma TwiceIsNotOk(s: State, p: Pid)
    requires QueuesOk(s)
    ensures !Twice(s, p)
  {
    forall q, i: nat, r, j: nat | i < |Q(s, q)| && Q(s, q)[i] == p && j < |Q(s, r)| && Q(s, r)[j] == p
      ensures q == r && i == j
    {
      assert On(s, p, q) && On(s, p, r) && NoDup(Q(s, q));
    }
  }

  /** Inside the handler, behind the sweep. */
  function Swept(s: State): State {
    Awaken(s.(ticks := s.ticks + 1))
  }

  /** Then, in front of its dispatch: the interrupted process has been appended. */
  function InHandler(s: State): State {
    Start(Swept(s), s.current)
  }

  /** A tick can come here, in the gap or not. */
  predicate TickMayCome(m: Machine) {
    Interruptible(m) && m.s.ticks < INT_MAX
  }

  /** And if it does, its handler appends a process that is already listed. */
  ghost predicate TickQueuesTwice(m: Machine) {
    TickMayCome(m) && Twice(InHandler(m.s), m.s.current)
  }

  /** Whoever is on a queue is still on one after the sweep. */
  lemma SweepKeepsListed(s: State, p: Pid, q: QueueId)
    requires On(s, p, q)
    ensures exists r :: On(Awaken(s), p, r)
  {
    var t := Awaken(s);
    if q == Tick {
      var i :| 0 <= i < |s.tick| && PidsOf(s.tick)[i] == p;
      Runs.NotDueMembers(s.tick, s.ticks, s.tick[i]);
      if IsDue(s.tick[i], s.ticks) {
        assert On(t, p, Run);
      } else {
        var j :| 0 <= j < |t.tick| && t.tick[j] == s.tick[i];
        assert PidsOf(t.tick)[j] == p && On(t, p, Tick);
      }
    } else {
      assert On(t, p, q);
    }
  }

  /** A tick that finds the current process on a queue queues it a second time. */
  lemma TickInGap(m: Machine, q: QueueId)
    requires TickMayCome(m) && On(m.s, m.s.current, q)
    ensures TickQueuesTwice(m) && ClockHandler(m.s) == Dispatch(InHandler(m.s))
  {
    var c, u := m.s.current, Swept(m.s);
    var v := InHandler(m.s);
    assert On(m.s.(ticks := m.s.ticks + 1), c, q);
    SweepKeepsListed(m.s.(ticks := m.s.ticks + 1), c, q);
    var r :| On(u, c, r);
    var i: nat :| i < |Q(u, r)| && Q(u, r)[i] == c;
    assert Q(v, r)[i] == c && Q(v, Run)[|u.run|] == c;
    TwiceAt(v, c, r, i, Run, |u.run|);
  }

  /** And it does so only then. */
  lemma TickQueuesTwiceExactly(m: Machine)
    requires QueuesOk(m.s) && m.s.reaper == InP && TickMayCome(m)
    ensures TickQueuesTwice(m) <==> Queued(m.s, m.s.current)
  {
    hide Awaken, QueuesOk, Twice, On, Q, ClockHandler;
    if Queued(m.s, m.s.current) {
      var q :| On(m.s, m.s.current, q);
      TickInGap(m, q);
    } else {
      SweepFacts(m.s);
      TwiceIsNotOk(InHandler(m.s), m.s.current);
    }
  }

  /** In every reachable state: a tick lists somebody twice exactly if it comes in the gap. */
  lemma TickInGapExactly(m: Machine)
    requires MachineInv(m) && TickMayCome(m)
    ensures TickQueuesTwice(m) <==> InGap(m)
  {
    hide Check, TickQueuesTwice;
    TickQueuesTwiceExactly(m);
    OnWhat(m);
    assert ThreadOk(m, m.s.current);
    if Queued(m.s, m.s.current) { var q :| On(m.s, m.s.current, q); }
  }

  /** The same member at index i of a queue, before and after the head of the run queue has left. */
  lemma DispatchShifts(s: State, q: QueueId, i: nat)
    requires s.run != [] && i < |Q(s, q)| && (q == Run ==> i > 0)
    ensures var j := if q == Run then i - 1 else i;
      j < |Q(Dispatch(s), q)| && Q(Dispatch(s), q)[j] == Q(s, q)[i]
  {
  }

  /** A dispatch of somebody else leaves both listings. */
  lemma DispatchKeepsTwice(s: State, p: Pid)
    requires Twice(s, p) && s.run != [] && s.run[0] != p
    ensures Twice(Dispatch(s), p)
  {
    var q, i: nat, r, j: nat :|
      i < |Q(s, q)| && Q(s, q)[i] == p && j < |Q(s, r)| && Q(s, r)[j] == p && (q != r || i != j);
    assert q == Run ==> i > 0;
    assert r == Run ==> j > 0;
    hide Q, Dispatch, Twice;
    DispatchShifts(s, q, i);
    DispatchShifts(s, r, j);
    TwiceAt(Dispatch(s), p, q, if q == Run then i - 1 else i, r, if r == Run then j - 1 else j);
  }

  lemma OneSleeper(x: Sleeper, now: nat)
    ensures Due([x], now) == (if IsDue(x, now) then [x.pid] else [])
    ensures NotDue([x], now) == (if IsDue(x, now) then [] else [x])
  {
  }

  /** The last sleeper is the last to become runnable, or stays the last sleeper. */
  lemma LastSleeperSwept(s: State, front: seq<Sleeper>, x: Sleeper)
    requires s.tick == front + [x]
    ensures var u := Swept(s);
      if x.wake <= s.ticks + 1 then |u.run| > 0 && u.run[|u.run| - 1] == x.pid
      else |u.tick| > 0 && u.tick[|u.tick| - 1].pid == x.pid
  {
    Runs.SweepIsStable(front, [x], s.ticks + 1);
    OneSleeper(x, s.ticks + 1);
    hide Due, NotDue;
  }

  /** Somebody else is at the head of the run queue. */
  predicate OtherWaits(s: State) {
    s.run != [] && s.run[0] != s.current
  }

  /**
   * If somebody else heads the run queue, both entries are still there when the handler leaves.
   * This counts entries in the order in which they are meant to be taken; the one pair of links
   * that a process has cannot hold two, and module IntrusiveQueue says what they hold instead.
   */
  lemma DoubleListingStays(m: Machine)
    requires TickQueuesTwice(m) && OtherWaits(m.s)
    ensures Twice(ClockHandler(m.s), m.s.current)
  {
    DispatchKeepsTwice(InHandler(m.s), m.s.current);
  }

  /** A process on the run queue ends up on it twice. */
  lemma AppendedTwice(s: State, k: nat)
    requires k < |s.run| && s.run[k] == s.current
    ensures !NoDup(InHandler(s).run)
  {
    var r := InHandler(s).run;
    assert r[k] == r[|r| - 1] == s.current;
  }

  /**
   * process_yield entered with interrupts enabled: three primitives later a tick is possible
   * whose handler appends the process to the run queue although it is on it: as its last
   * member, if nobody is due. The tick handler itself enters it like this.
   */
  lemma YieldRace(m: Machine, k: Code) returns (gap: Machine)
    requires m.s.current in m.threads && CurrentThread(m).code == YieldCode(k)
    requires CurrentThread(m).mode.irq && m.s.ticks < INT_MAX
    ensures Arrives(m, 3, gap) && TickQueuesTwice(gap) && ClockHandler(gap.s) == Dispatch(InHandler(gap.s))
    ensures !NoDup(InHandler(gap.s).run)
    ensures Swept(gap.s).run == m.s.run + [m.s.current] + Due(m.s.tick, m.s.ticks + 1)
    ensures OtherWaits(m.s) ==> Twice(ClockHandler(gap.s), m.s.current)
  {
    hide TickQueuesTwice, Twice, InHandler, Dispatch, RunPrimitive, Arrives;
    gap := Moved(m, Start(m.s, m.s.current), ScheduleCode(k), CurrentThread(m).mode.(on := Some(Run)));
    YieldGap(m, k);
    assert gap.s.run[|m.s.run|] == m.s.current;
    TickInGap(gap, Run);
    AppendedTwice(gap.s, |m.s.run|);
    if OtherWaits(m.s) { DoubleListingStays(gap); }
  }

  /**
   * proc_sleep_ms entered with interrupts enabled: the handler appends the process to the run
   * queue while it is the last member of that queue, if it is due at once, or else of the tick
   * queue.
   */
  lemma SleepRace(m: Machine, ms: int, k: Code) returns (gap: Machine)
    requires m.s.current in m.threads && CurrentThread(m).code == SleepCode(ms, k)
    requires CurrentThread(m).mode.irq && m.s.ticks < INT_MAX
    ensures Arrives(m, 3, gap) && TickQueuesTwice(gap) && ClockHandler(gap.s) == Dispatch(InHandler(gap.s))
    ensures var u := Swept(gap.s);
      if WakeTick(ms, m.s.ticks) <= m.s.ticks + 1 then |u.run| > 0 && u.run[|u.run| - 1] == m.s.current
      else |u.tick| > 0 && u.tick[|u.tick| - 1].pid == m.s.current
    ensures OtherWaits(m.s) ==> Twice(ClockHandler(gap.s), m.s.current)
  {
    hide TickQueuesTwice, Twice, InHandler, Swept, Dispatch, RunPrimitive, Arrives, WakeTick;
    var s := m.s.(tick := m.s.tick + [Sleeper(m.s.current, WakeTick(ms, m.s.ticks))]);
    gap := Moved(m, s, ScheduleCode(k), CurrentThread(m).mode.(on := Some(Tick)));
    SleepGap(m, ms, k);
    assert PidsOf(s.tick)[|m.s.tick|] == m.s.current;
    TickInGap(gap, Tick);
    LastSleeperSwept(gap.s, m.s.tick, Sleeper(m.s.current, WakeTick(ms, m.s.ticks)));
    if OtherWaits(m.s) { DoubleListingStays(gap); }
  }

  // ----- safe if and only if interrupts are off -----

  /** The machine in which the current thread is about to run code c. */
  function Entering(m: Machine, c: Code): Machine
    requires m.s.current in m.threads
  {
    m.(threads := m.threads[m.s.current := CurrentThread(m).(code := c)])
  }

  /** A thread without a gap, in what it is to run and at present. */
  predicate Gapless(t: Thread, self: Pid) {
    Careful(t.code, t.mode, self) && (t.mode.irq ==> t.mode.on == None)
  }

  /** Every thread is without a gap, so a tick is harmless wherever it can come. */
  ghost predicate CarefulInv(m: Machine) {
    MachineInv(m) && forall p :: p in m.threads ==> Gapless(m.threads[p], p)
  }

  /** Primitives, ticks wherever interrupts are enabled, and calls that are careful. */
  ghost predicate CarefulTrace(m: Machine, acts: seq<Action>): (r: bool)
    ensures r ==> Trace(m, acts)
    decreases |acts|
  {
    acts == [] || (
      && Possible(m, acts[0]) && acts[0] != Interrupt
      && (acts[0].Call? ==> Careful(acts[0].code, CurrentThread(m).mode, m.s.current))
      && CarefulTrace(Act(m, acts[0]), acts[1..]))
  }

  /** No tick of any interleaving from here on appends a process that is already listed. */
  ghost predicate NeverTwice(m: Machine) {
    forall acts :: CarefulTrace(m, acts) ==> !TickQueuesTwice(Reach(m, acts))
  }

  lemma GaplessNext(m: Machine)
    requires CanRun(m) && Gapless(CurrentThread(m), m.s.current)
    ensures forall p :: p in RunPrimitive(m).threads && p in m.threads ==>
      RunPrimitive(m).threads[p] == m.threads[p] || Gapless(RunPrimitive(m).threads[p], p)
      || RunPrimitive(m).threads[p] == FRESH
    ensures forall p :: p in RunPrimitive(m).threads && p !in m.threads ==> RunPrimitive(m).threads[p] == FRESH
  {
    hide StepOf, Careful;
    var t := CurrentThread(m);
    if t.code.If? || (t.code.i != Create && t.code.i != Release) {
      GaplessStep(m.s, t, m.s.current);
    } else {
      GaplessEnds(m.s, t, m.s.current);
    }
  }

  lemma GaplessStep(s: State, t: Thread, self: Pid)
    requires MayStep(s, t) && Gapless(t, self)
    ensures Gapless(StepOf(s, t).t, self)
  {
    hide Q, Append, TakeHead, CountSem, AddSem, Dispatch, Awaken, Holds, Allowed;
  }

  lemma GaplessEnds(s: State, t: Thread, self: Pid)
    requires Gapless(t, self) && t.code.Do? && (t.code.i == Create || t.code.i == Release)
    ensures Gapless(t.(code := t.code.rest, mode := After(t.code.i, t.mode)), self)
    ensures forall h :: Gapless(Thread(t.code.rest, After(t.code.i, t.mode), h), self)
    ensures t.code.i == Release ==> Gapless(StepOf(s, t).t, self)
  {
  }

  lemma CarefulStep(m: Machine, a: Action)
    requires CarefulInv(m) && Possible(m, a) && a != Interrupt
    requires a.Call? ==> Careful(a.code, CurrentThread(m).mode, m.s.current)
    ensures CarefulInv(Act(m, a))
  {
    hide MachineInv, Careful, RunPrimitive, Check;
    ActKeepsInv(m, a);
    CurrentFacts(m);
    FreshIsGapless();
    if a == Primitive { GaplessNext(m); }
  }

  lemma FreshIsGapless()
    ensures forall p :: Gapless(FRESH, p)
  {
  }

  lemma {:induction false} CarefulTraceKeeps(m: Machine, acts: seq<Action>)
    requires CarefulInv(m) && CarefulTrace(m, acts)
    ensures CarefulInv(Reach(m, acts))
    decreases |acts|
  {
    hide CarefulInv, Act, Possible, Careful;
    if acts != [] {
      CarefulStep(m, acts[0]);
      CarefulTraceKeeps(Act(m, acts[0]), acts[1..]);
    }
  }

  lemma InvIsSafe(m: Machine)
    requires CarefulInv(m)
    ensures !TickQueuesTwice(m)
  {
    if TickMayCome(m) {
      assert Gapless(m.threads[m.s.current], m.s.current);
      TickInGapExactly(m);
    }
  }

  /** The boot state is careful, so every run of careful calls is safe from ticks at any point. */
  lemma BootIsSafe()
    ensures CarefulInv(BOOT) && NeverTwice(BOOT)
  {
    BootHolds();
    FreshIsGapless();
    hide MachineInv, TickQueuesTwice;
    forall acts | CarefulTrace(BOOT, acts)
      ensures !TickQueuesTwice(Reach(BOOT, acts))
    {
      CarefulTraceKeeps(BOOT, acts);
      InvIsSafe(Reach(BOOT, acts));
    }
  }

  /** A careful call is safe, whatever careful calls and ticks interleave with it and follow it. */
  lemma CarefulIsSafe(m: Machine, c: Code)
    requires CarefulInv(m) && CurrentThread(m).code == Done && Careful(c, CurrentThread(m).mode, m.s.current)
    ensures NeverTwice(Entering(m, c))
  {
    hide MachineInv, Careful, TickQueuesTwice;
    CurrentFacts(m);
    CarefulIsChecked(c, CurrentThread(m).mode, m.s.current);
    assert Possible(m, Call(c)) && Act(m, Call(c)) == Entering(m, c);
    CarefulStep(m, Call(c));
    forall acts | CarefulTrace(Entering(m, c), acts)
      ensures !TickQueuesTwice(Reach(Entering(m, c), acts))
    {
      CarefulTraceKeeps(Entering(m, c), acts);
      InvIsSafe(Reach(Entering(m, c), acts));
    }
  }

  lemma {:induction false} ArrivesByTrace(m: Machine, n: nat, goal: Machine) returns (acts: seq<Action>)
    requires Arrives(m, n, goal)
    ensures CarefulTrace(m, acts) && Reach(m, acts) == goal
    decreases n
  {
    if n == 0 { return []; }
    var rest := ArrivesByTrace(RunPrimitive(m), n - 1, goal);
    acts := [Primitive] + rest;
    assert acts[1..] == rest && Possible(m, Primitive);
  }

  lemma FreeThreadMode(m: Machine)
    requires MachineInv(m) && CurrentThread(m).code == Done
    ensures m.s.current in m.threads
    ensures CurrentThread(m).mode == Entry(CurrentThread(m).mode.irq, CurrentThread(m).mode.saved)
  {
    assert ThreadOk(m, m.s.current);
  }

  /** process_yield made in any reachable situation is safe if and only if interrupts are off. */
  lemma YieldSafeExactly(m: Machine)
    requires CarefulInv(m) && CurrentThread(m).code == Done && m.s.ticks < INT_MAX
    ensures NeverTwice(Entering(m, YieldCode(Done))) <==> !CurrentThread(m).mode.irq
  {
    hide MachineInv, Careful, TickQueuesTwice;
    FreeThreadMode(m);
    var md := CurrentThread(m).mode;
    if md.irq {
      var gap := YieldRace(Entering(m, YieldCode(Done)), Done);
      var acts := ArrivesByTrace(Entering(m, YieldCode(Done)), 3, gap);
    } else {
      YieldAndSleepNeedInterruptsOff(md.irq, md.saved, m.s.current, 0);
      CarefulIsSafe(m, YieldCode(Done));
    }
  }

  /** And so is proc_sleep_ms. */
  lemma SleepSafeExactly(m: Machine, ms: int)
    requires CarefulInv(m) && CurrentThread(m).code == Done && m.s.ticks < INT_MAX
    requires m.s.current != IDLE && m.s.current != REAPER
    ensures NeverTwice(Entering(m, SleepCode(ms, Done))) <==> !CurrentThread(m).mode.irq
  {
    hide MachineInv, Careful, TickQueuesTwice;
    FreeThreadMode(m);
    var md := CurrentThread(m).mode;
    if md.irq {
      var gap := SleepRace(Entering(m, SleepCode(ms, Done)), ms, Done);
      var acts := ArrivesByTrace(Entering(m, SleepCode(ms, Done)), 3, gap);
    } else {
      YieldAndSleepNeedInterruptsOff(md.irq, md.saved, m.s.current, ms);
      CarefulIsSafe(m, SleepCode(ms, Done));
    }
  }

  // ----- without an interrupt, a call is one step of module Scheduler -----

  /** The thread at code k in mode md. */
  function GoneOn(t: Thread, k: Code, md: Mode): Thread {
    t.(code := k, mode := md)
  }

  /**
   * Dispatched again in whatever state of the scheduler, the thread has finished its call after n
   * more primitives: it goes on with code k at this interrupt level and with these levels saved.
   */
  ghost predicate Returns(t: Thread, n: nat, k: Code, md: Mode) {
    forall s: State :: Goes(s, t, n, s, GoneOn(t, k, md))
  }

  /** Primitives that change the mode only lead back. */
  lemma ReturnsOne(t: Thread, t1: Thread, n: nat, k: Code, md: Mode)
    requires t.code.Do? && (t.code.i == Save || t.code.i == Enable || t.code.i == Disable
      || (t.code.i == Restore && t.mode.saved != []))
    requires t1 == t.(code := t.code.rest, mode := After(t.code.i, t.mode)) && Returns(t1, n, k, md)
    ensures Returns(t, n + 1, k, md)
  {
    hide StepOf;
    var more := n + 1;
    forall s: State
      ensures Goes(s, t, more, s, GoneOn(t, k, md))
    {
      Plain(s, t);
      assert Goes(s, t1, n, s, GoneOn(t1, k, md)) && GoneOn(t1, k, md) == GoneOn(t, k, md);
    }
  }

  lemma ReturnsNow(t: Thread)
    ensures Returns(t, 0, t.code, t.mode)
  {
    assert GoneOn(t, t.code, t.mode) == t;
  }

  /** The end of schedule_next_process. */
  lemma EnableReturns(t: Thread, k: Code)
    requires t.code == Do(Enable, k)
    ensures Returns(t, 1, k, t.mode.(irq := true))
  {
    hide Returns;
    var t1 := t.(code := k, mode := t.mode.(irq := true));
    ReturnsNow(t1);
    ReturnsOne(t, t1, 0, k, t1.mode);
  }

  /** And of semaphore_P behind it. */
  lemma EnableRestoreReturns(t: Thread, k: Code, md: Mode)
    requires t.code == Do(Enable, Do(Restore, k)) && t.mode.saved == [md.irq] + md.saved
    requires t.mode.on == md.on && t.mode.holding == md.holding
    ensures Returns(t, 2, k, md)
  {
    hide Returns;
    var t1 := t.(code := Do(Restore, k), mode := t.mode.(irq := true));
    var t2 := t.(code := k, mode := md);
    assert After(Restore, t1.mode) == md;
    ReturnsNow(t2);
    ReturnsOne(t1, t2, 0, k, md);
    ReturnsOne(t, t1, 1, k, md);
  }

  /** And of c_irq_handler. */
  lemma IrqReturns(t: Thread, k: Code, md: Mode)
    requires t.code == Do(Enable, Do(Disable, Do(Restore, k))) && t.mode.saved == [md.irq] + md.saved
    requires t.mode.on == md.on && t.mode.holding == md.holding
    ensures Returns(t, 3, k, md)
  {
    hide Returns;
    var t1 := t.(code := Do(Disable, Do(Restore, k)), mode := t.mode.(irq := true));
    var t2 := t.(code := Do(Restore, k), mode := t.mode.(irq := false));
    var t3 := t.(code := k, mode := md);
    assert After(Restore, t2.mode) == md;
    ReturnsNow(t3);
    ReturnsOne(t2, t3, 0, k, md);
    ReturnsOne(t1, t2, 1, k, md);
    ReturnsOne(t, t1, 2, k, md);
  }

  /** What has become of the machine when only its current thread and the scheduler's state have changed. */
  ghost predicate OnlyCurrent(m: Machine, goal: Machine) {
    m.s.current in goal.threads && goal.threads == m.threads[m.s.current := goal.threads[m.s.current]]
  }

  /** The current thread gives up the processor. */
  lemma ScheduleGoes(s: State, t: Thread, k: Code)
    requires t.code == ScheduleCode(k)
    ensures Goes(s, t, 2, Dispatch(s), t.(code := Do(Enable, k), mode := t.mode.(irq := false, on := None)))
  {
    hide Goes, Dispatch, StepOf;
    var t1 := t.(code := t.code.rest, mode := After(Disable, t.mode));
    Begin(s, t);
    Plain(s, t);
    Then(s, t, 0, s, t, s, t1);
    SwitchIsStep(s, t1);
    Then(s, t, 1, s, t1, Dispatch(s), t.(code := Do(Enable, k), mode := After(Switch, t1.mode)));
  }

  /** process_yield and proc_sleep_ms. */
  lemma QueuedGoes(s: State, t: Thread, i: Instr, q: QueueId, k: Code, s2: State) returns (t2: Thread)
    requires t.code == Do(Save, Do(i, Do(Restore, ScheduleCode(k))))
    requires (i == QueueSelf(Run) && q == Run && s2 == Start(s, s.current))
      || (i.SleepSelf? && q == Tick && s2 == s.(tick := s.tick + [Sleeper(s.current, WakeTick(i.ms, s.ticks))]))
    ensures Goes(s, t, 5, Dispatch(s2), t2) && t2 == t.(code := Do(Enable, k), mode := t.mode.(irq := false, on := None))
  {
    hide Goes, Dispatch, WakeTick;
    var t1 := t.(code := ScheduleCode(k), mode := t.mode.(on := Some(q)));
    GapGoes(s, t, i, q, k, s2);
    ScheduleGoes(s2, t1, k);
    t2 := t1.(code := Do(Enable, k), mode := t1.mode.(irq := false, on := None));
    GoesOn(s, t, 3, s2, t1, 2, Dispatch(s2), t2);
  }

  lemma YieldIsOneStep(m: Machine, k: Code) returns (goal: Machine)
    requires m.s.current in m.threads && CurrentThread(m).code == YieldCode(k)
    ensures Arrives(m, 5, goal) && goal.s == Yield(m.s) && OnlyCurrent(m, goal)
    ensures Returns(goal.threads[m.s.current], 1, k, CurrentThread(m).mode.(irq := true, on := None))
  {
    hide Goes, Arrives, Returns, Dispatch;
    var t := QueuedGoes(m.s, CurrentThread(m), QueueSelf(Run), Run, k, Start(m.s, m.s.current));
    GoesArrives(m, 5, Yield(m.s), t);
    EnableReturns(t, k);
    goal := Machine(Yield(m.s), m.threads[m.s.current := t]);
  }

  lemma SleepIsOneStep(m: Machine, ms: int, k: Code) returns (goal: Machine)
    requires m.s.current in m.threads && CurrentThread(m).code == SleepCode(ms, k)
    ensures Arrives(m, 5, goal) && goal.s == Sleep(m.s, ms) && OnlyCurrent(m, goal)
    ensures Returns(goal.threads[m.s.current], 1, k, CurrentThread(m).mode.(irq := true, on := None))
  {
    hide Goes, Arrives, Returns, Dispatch, WakeTick;
    var s := m.s.(tick := m.s.tick + [Sleeper(m.s.current, WakeTick(ms, m.s.ticks))]);
    var t := QueuedGoes(m.s, CurrentThread(m), SleepSelf(ms), Tick, k, s);
    GoesArrives(m, 5, Sleep(m.s, ms), t);
    EnableReturns(t, k);
    goal := Machine(Sleep(m.s, ms), m.threads[m.s.current := t]);
  }

  /** schedule_next_process by itself, as the idle process calls it. */
  lemma ScheduleIsOneStep(m: Machine, k: Code) returns (goal: Machine)
    requires m.s.current in m.threads && CurrentThread(m).code == ScheduleCode(k)
    ensures Arrives(m, 2, goal) && goal.s == Dispatch(m.s) && OnlyCurrent(m, goal)
    ensures Returns(goal.threads[m.s.current], 1, k, CurrentThread(m).mode.(irq := true, on := None))
  {
    hide Goes, Arrives, Returns, Dispatch;
    var t := CurrentThread(m);
    var t2 := t.(code := Do(Enable, k), mode := t.mode.(irq := false, on := None));
    ScheduleGoes(m.s, t, k);
    GoesArrives(m, 2, Dispatch(m.s), t2);
    EnableReturns(t2, k);
    goal := Machine(Dispatch(m.s), m.threads[m.s.current := t2]);
  }

  /** clock_handler up to its process_yield. */
  lemma HandlerGoes(s: State, t: Thread, k: Code)
    requires t.code == HandlerCode(k) && s.ticks < INT_MAX
    ensures Goes(s, t, 3, Awaken(s.(ticks := s.ticks + 1)), t.(code := YieldCode(k)))
  {
    hide Goes, Awaken, YieldCode, StepOf, After;
    SaveRestore(t.mode);
    var s2 := Awaken(s.(ticks := s.ticks + 1));
    var t1 := t.(code := Do(Sweep, Do(Restore, YieldCode(k))), mode := After(Save, t.mode));
    var t2 := t1.(code := Do(Restore, YieldCode(k)));
    SweepKeepsCurrent(s);
    Begin(s, t);
    Plain(s, t);
    Then(s, t, 0, s, t, s, t1);
    SweepIsStep(s, t1);
    Then(s, t, 1, s, t1, s2, t2);
    Plain(s2, t2);
    Then(s, t, 2, s2, t2, s2, t.(code := YieldCode(k)));
  }

  /**
   * One timer interrupt, with its handler as code, uninterrupted up to its switch. When the
   * process is dispatched again it goes on where it was interrupted, at the level it had there.
   */
  lemma IrqIsOneTick(m: Machine, k: Code) returns (goal: Machine)
    requires m.s.current in m.threads && CurrentThread(m).code == IrqCode(k) && m.s.ticks < INT_MAX
    ensures Arrives(m, 10, goal) && goal.s == ClockHandler(m.s) && OnlyCurrent(m, goal)
    ensures Returns(goal.threads[m.s.current], 3, k, CurrentThread(m).mode.(on := None))
  {
    hide Goes, Arrives, Returns, Dispatch, Awaken, StepOf, HandlerCode;
    var s, t := m.s, CurrentThread(m);
    var end := Do(Disable, Do(Restore, k));
    var s2 := Awaken(s.(ticks := s.ticks + 1));
    var t1 := t.(code := Do(Enable, HandlerCode(end)), mode := After(Save, t.mode));
    var t2 := t.(code := HandlerCode(end), mode := After(Enable, t1.mode));
    var t5 := t.(code := YieldCode(end), mode := t2.mode);
    SweepKeepsCurrent(s);
    Begin(s, t);
    Plain(s, t);
    Then(s, t, 0, s, t, s, t1);
    Plain(s, t1);
    Then(s, t, 1, s, t1, s, t2);
    HandlerGoes(s, t2, end);
    GoesOn(s, t, 2, s, t2, 3, s2, t5);
    var t6 := QueuedGoes(s2, t5, QueueSelf(Run), Run, end, Start(s2, s2.current));
    GoesOn(s, t, 5, s2, t5, 5, Yield(s2), t6);
    GoesArrives(m, 10, Yield(s2), t6);
    IrqReturns(t6, k, t.mode.(on := None));
    goal := Machine(Yield(s2), m.threads[m.s.current := t6]);
  }

  lemma SweepKeepsCurrent(s: State)
    ensures Awaken(s.(ticks := s.ticks + 1)).current == s.current
  {
  }

  /**
   * semaphore_P, on both branches. A P that does not block has finished the call with the mode of
   * its entry; one that does gets there when it is dispatched again.
   */
  lemma PIsOneStep(m: Machine, i: nat, k: Code) returns (n: nat, goal: Machine)
    requires m.s.current in m.threads && CurrentThread(m).code == PCode(i, k) && i < |m.s.sems|
    ensures Arrives(m, n, goal) && goal.s == SemP(m.s, i) && OnlyCurrent(m, goal)
    ensures m.s.sems[i].count > 0 ==> goal == Moved(m, SemP(m.s, i), k, CurrentThread(m).mode)
    ensures m.s.sems[i].count <= 0 ==> Returns(goal.threads[m.s.current], 2, k, CurrentThread(m).mode.(on := None))
  {
    hide Goes, Arrives, Returns, Dispatch;
    var s, t := m.s, CurrentThread(m);
    if s.sems[i].count > 0 {
      PGoes(s, t, i, k);
      n := 4;
      GoesArrives(m, 4, SemP(s, i), t.(code := k));
      goal := Moved(m, SemP(s, i), k, t.mode);
    } else {
      var t5 := PBlocks(s, t, i, k);
      n := 6;
      GoesArrives(m, 6, SemP(s, i), t5);
      EnableRestoreReturns(t5, k, t.mode.(on := None));
      goal := Machine(SemP(s, i), m.threads[s.current := t5]);
    }
  }

  lemma PGoes(s: State, t: Thread, i: nat, k: Code)
    requires t.code == PCode(i, k) && i < |s.sems| && s.sems[i].count > 0
    ensures Goes(s, t, 4, SemP(s, i), t.(code := k))
  {
    hide Goes, Dispatch;
    var s2 := CountSem(s, i, -1);
    var t1 := t.(code := t.code.rest, mode := After(Save, t.mode));
    var t2 := t1.(code := t1.code.rest);
    var t3 := t1.(code := t2.code.no);
    Begin(s, t);
    Then(s, t, 0, s, t, s, t1);
    Then(s, t, 1, s, t1, s2, t2);
    Then(s, t, 2, s2, t2, s2, t3);
    assert After(Restore, t3.mode) == t.mode;
    Then(s, t, 3, s2, t3, s2, t.(code := k));
  }

  lemma PBlocks(s: State, t: Thread, i: nat, k: Code) returns (t5: Thread)
    requires t.code == PCode(i, k) && i < |s.sems| && s.sems[i].count <= 0
    ensures Goes(s, t, 6, SemP(s, i), t5)
    ensures t5.code == Do(Enable, Do(Restore, k)) && t5.mode == After(Save, t.mode).(irq := false, on := None)
    ensures t5.hand == t.hand
  {
    hide Goes, Dispatch;
    var s2 := CountSem(s, i, -1);
    var s3 := Append(s2, Wait(i), s.current);
    var no := Do(Restore, k);
    var yes := Do(QueueSelf(Wait(i)), ScheduleCode(no));
    var t1 := t.(code := t.code.rest, mode := After(Save, t.mode));
    var t2 := t1.(code := If(Negative(i), yes, no));
    var t3 := t1.(code := yes);
    var t4 := t1.(code := ScheduleCode(no), mode := After(QueueSelf(Wait(i)), t1.mode));
    t5 := t4.(code := Do(Enable, no), mode := t4.mode.(irq := false, on := None));
    Begin(s, t);
    Then(s, t, 0, s, t, s, t1);
    Then(s, t, 1, s, t1, s2, t2);
    Then(s, t, 2, s2, t2, s2, t3);
    Then(s, t, 3, s2, t3, s3, t4);
    ScheduleGoes(s3, t4, no);
    GoesOn(s, t, 4, s3, t4, 2, Dispatch(s3), t5);
    BlockedIsP(s, i);
  }

  lemma BlockedIsP(s: State, i: nat)
    requires i < |s.sems| && s.sems[i].count - 1 < 0
    ensures Dispatch(Append(CountSem(s, i, -1), Wait(i), s.current)) == SemP(s, i)
  {
    hide Dispatch;
    var down := s.sems[i].(count := s.sems[i].count - 1);
    var x := down.(waiters := down.waiters + [s.current]);
    assert s.sems[i := down][i := x] == s.sems[i := x];
  }

  /** process_start of the process in hand. */
  lemma StartGoes(s: State, t: Thread, h: Pid, k: Code)
    requires t.code == StartCode(k) && t.hand == Some(h)
    ensures Goes(s, t, 3, Start(s, h), Thread(k, t.mode.(holding := Nobody), None))
  {
    hide Goes;
    var t1 := t.(code := t.code.rest, mode := After(Save, t.mode));
    var t2 := Thread(Do(Restore, k), After(Give, t1.mode), None);
    assert After(Restore, t2.mode) == t.mode.(holding := Nobody);
    Begin(s, t);
    Then(s, t, 0, s, t, s, t1);
    Then(s, t, 1, s, t1, Start(s, h), t2);
    Then(s, t, 2, Start(s, h), t2, Start(s, h), Thread(k, t.mode.(holding := Nobody), None));
  }

  /** semaphore_V */
  lemma VGoes(s: State, t: Thread, i: nat, k: Code) returns (n: nat)
    requires t.code == VCode(i, k) && i < |s.sems| && t.hand == None && t.mode.holding == Nobody
    ensures Goes(s, t, n, SemV(s, i), t.(code := k))
  {
    hide Goes;
    var s2 := CountSem(s, i, 1);
    var no := Do(Restore, k);
    var yes := Do(Take(Wait(i)), StartCode(no));
    var t1 := t.(code := t.code.rest, mode := After(Save, t.mode));
    var t2 := t1.(code := If(Waiting(i), yes, no));
    Begin(s, t);
    Then(s, t, 0, s, t, s, t1);
    Then(s, t, 1, s, t1, s2, t2);
    if |s2.sems[i].waiters| > 0 {
      var h := s2.sems[i].waiters[0];
      var s3 := TakeHead(s2, Wait(i));
      var t3 := t1.(code := yes);
      var t4 := Thread(StartCode(no), After(Take(Wait(i)), t1.mode), Some(h));
      Then(s, t, 2, s2, t2, s2, t3);
      Then(s, t, 3, s2, t3, s3, t4);
      StartGoes(s3, t4, h, no);
      assert t4.mode.(holding := Nobody) == t1.mode;
      GoesOn(s, t, 4, s3, t4, 3, Start(s3, h), t1.(code := no));
      WokenIsV(s, i);
      n := 7;
    } else {
      Then(s, t, 2, s2, t2, s2, t1.(code := no));
      n := 3;
    }
    assert After(Restore, t1.mode) == t.mode;
    Then(s, t, n, SemV(s, i), t1.(code := no), SemV(s, i), t.(code := k));
    n := n + 1;
  }

  lemma WokenIsV(s: State, i: nat)
    requires i < |s.sems| && |s.sems[i].waiters| > 0
    ensures Start(TakeHead(CountSem(s, i, 1), Wait(i)), s.sems[i].waiters[0]) == SemV(s, i)
  {
    var up := s.sems[i].(count := s.sems[i].count + 1);
    var x := up.(waiters := up.waiters[1..]);
    assert s.sems[i := up][i := x] == s.sems[i := x];
  }

  /** semaphore_V, on both branches; the mode is that of the entry. */
  lemma VIsOneStep(m: Machine, i: nat, k: Code) returns (n: nat, goal: Machine)
    requires m.s.current in m.threads && CurrentThread(m).code == VCode(i, k) && i < |m.s.sems|
    requires CurrentThread(m).hand == None && CurrentThread(m).mode.holding == Nobody
    ensures Arrives(m, n, goal) && goal == Moved(m, SemV(m.s, i), k, CurrentThread(m).mode)
  {
    hide Goes, Arrives, SemV;
    var t := CurrentThread(m);
    n := VGoes(m.s, t, i, k);
    goal := Moved(m, SemV(m.s, i), k, t.mode);
    GoesArrives(m, n, SemV(m.s, i), t.(code := k));
  }

  /** process_fork leaves interrupts off and nothing in hand; the new process starts with them on. */
  lemma ForkIsOneStep(m: Machine, k: Code) returns (goal: Machine)
    requires m.s.current in m.threads && CurrentThread(m).code == ForkCode(k) && m.s.nextPid !in m.threads
    ensures Arrives(m, 4, goal) && goal.s == Fork(m.s)
    ensures CurrentThread(goal) == Thread(k, CurrentThread(m).mode.(irq := false, holding := Nobody), None)
    ensures m.s.nextPid in goal.threads && goal.threads[m.s.nextPid] == Thread(Done, Mode(true, [], None, Nobody), None)
    ensures forall p :: p in m.threads && p != m.s.current ==> p in goal.threads && goal.threads[p] == m.threads[p]
  {
    hide Goes, RunPrimitive, StepOf, CanRun;
    var h, t := m.s.nextPid, CurrentThread(m);
    var t1 := Thread(StartCode(k), After(Create, t.mode), Some(h));
    var m1 := Machine(m.s.(nextPid := h + 1, live := m.s.live + {h}), m.threads[h := FRESH][m.s.current := t1]);
    CreateRuns(m, StartCode(k));
    StartGoes(m1.s, t1, h, k);
    GoesArrives(m1, 3, Start(m1.s, h), Thread(k, t1.mode.(holding := Nobody), None));
    goal := Machine(Start(m1.s, h), m1.threads[m.s.current := Thread(k, t1.mode.(holding := Nobody), None)]);
  }

  lemma CreateRuns(m: Machine, k: Code)
    requires m.s.current in m.threads && CurrentThread(m).code == Do(Create, k)
    ensures CanRun(m)
    ensures var h := m.s.nextPid;
      RunPrimitive(m) == Machine(m.s.(nextPid := h + 1, live := m.s.live + {h}),
        m.threads[h := FRESH][m.s.current := Thread(k, After(Create, CurrentThread(m).mode), Some(h))])
  {
    hide StepOf;
  }

  /** semaphore_create: the new semaphore has the given count and no waiters, and interrupts are off. */
  lemma SemCreateIsOneStep(m: Machine, count: int, k: Code) returns (goal: Machine)
    requires m.s.current in m.threads && CurrentThread(m).code == CreateSemCode(count, k)
    ensures Arrives(m, 1, goal)
    ensures goal == Moved(m, m.s.(sems := m.s.sems + [Sem(count, [])]), k, CurrentThread(m).mode.(irq := false))
  {
    hide Goes, Arrives;
    var s2 := m.s.(sems := m.s.sems + [Sem(count, [])]);
    var t := CurrentThread(m);
    var t2 := t.(code := k, mode := t.mode.(irq := false));
    Begin(m.s, t);
    Then(m.s, t, 0, m.s, t, s2, t2);
    GoesArrives(m, 1, s2, t2);
    goal := Moved(m, s2, k, t2.mode);
  }

  /** The reaper's loop behind a P that does not block: dequeue and free, at the level of the entry. */
  lemma ReapIsOneStep(m: Machine, k: Code) returns (goal: Machine)
    requires m.s.current in m.threads && CurrentThread(m).code == ReapCode(k)
    requires CurrentThread(m).hand == None && CurrentThread(m).mode.holding == Nobody
    requires DEAD_SEM < |m.s.sems| && m.s.sems[DEAD_SEM].count > 0
    requires m.s.dead != [] && m.s.dead[0] != m.s.current
    ensures Arrives(m, 8, goal)
    ensures goal.s == SemP(m.s, DEAD_SEM).(dead := m.s.dead[1..], live := m.s.live - {m.s.dead[0]})
    ensures goal.threads == m.threads[m.s.current := CurrentThread(m).(code := k)] - {m.s.dead[0]}
  {
    hide Goes, Arrives, Dispatch;
    var s, t := m.s, CurrentThread(m);
    var v := s.dead[0];
    var free := Do(Release, k);
    var take := Do(Save, Do(Take(Dead), Do(Restore, free)));
    var s1 := SemP(s, DEAD_SEM);
    var s2 := s1.(dead := s.dead[1..]);
    var t1 := t.(code := take);
    var t2 := t.(code := take.rest, mode := After(Save, t.mode));
    var t3 := Thread(Do(Restore, free), After(Take(Dead), t2.mode), Some(v));
    var t4 := Thread(free, t.mode.(holding := Corpse), Some(v));
    PGoes(s, t, DEAD_SEM, take);
    Then(s, t, 4, s1, t1, s1, t2);
    Then(s, t, 5, s1, t2, s2, t3);
    assert After(Restore, t3.mode) == t4.mode;
    Then(s, t, 6, s2, t3, s2, t4);
    var m4 := Machine(s2, m.threads[s.current := t4]);
    GoesArrives(m, 7, s2, t4);
    goal := Machine(s2.(live := s.live - {v}), m.threads[s.current := t.(code := k)] - {v});
    ReleaseRuns(m4, k, v);
    assert t4.(code := k, mode := After(Release, t4.mode), hand := None) == t.(code := k);
    assert m4.threads[s.current := t.(code := k)] == m.threads[s.current := t.(code := k)];
    ArriveOne(m, 7, m4, goal);
  }

  lemma ReleaseRuns(m: Machine, k: Code, v: Pid)
    requires m.s.current in m.threads && CurrentThread(m).code == Do(Release, k) && CurrentThread(m).hand == Some(v)
    ensures CanRun(m)
    ensures var u := CurrentThread(m).(code := k, mode := After(Release, CurrentThread(m).mode), hand := None);
      RunPrimitive(m) == Machine(m.s.(live := m.s.live - {v}), m.threads[m.s.current := u] - {v})
  {
    hide StepOf;
  }

  lemma {:induction false} ArriveOne(m: Machine, n: nat, mid: Machine, goal: Machine)
    requires Arrives(m, n, mid) && CanRun(mid) && RunPrimitive(mid) == goal
    ensures Arrives(m, n + 1, goal)
    decreases n
  {
    hide RunPrimitive;
    if n > 0 {
      ArriveOne(RunPrimitive(m), n - 1, mid, goal);
    } else {
      assert Arrives(goal, 0, goal);
    }
  }

  lemma CleanupIsOneStep(m: Machine, k: Code) returns (n: nat, goal: Machine)
    requires m.s.current in m.threads && CurrentThread(m).code == CleanupCode(k) && DEAD_SEM < |m.s.sems|
    requires CurrentThread(m).hand == None && CurrentThread(m).mode.holding == Nobody
    ensures Arrives(m, n, goal) && goal.s == Exit(m.s)
  {
    hide Goes, Arrives, Dispatch, SemV;
    var s, t := m.s, CurrentThread(m);
    var s2 := s.(dead := s.dead + [s.current]);
    var s3 := SemV(s2, DEAD_SEM);
    var leave := ScheduleCode(k);
    var t1 := t.(code := t.code.rest, mode := After(Disable, t.mode));
    var t2 := t.(code := VCode(DEAD_SEM, leave), mode := After(QueueSelf(Dead), t1.mode));
    var t4 := t2.(code := leave);
    var t5 := t4.(code := Do(Enable, k), mode := t4.mode.(irq := false, on := None));
    Begin(s, t);
    Then(s, t, 0, s, t, s, t1);
    Then(s, t, 1, s, t1, s2, t2);
    var j := VGoes(s2, t2, DEAD_SEM, leave);
    VKeepsCurrent(s2, DEAD_SEM);
    GoesOn(s, t, 2, s2, t2, j, s3, t4);
    ScheduleGoes(s3, t4, k);
    GoesOn(s, t, 2 + j, s3, t4, 2, Dispatch(s3), t5);
    GoesArrives(m, 4 + j, Dispatch(s3), t5);
    n := 4 + j;
    goal := Machine(Dispatch(s3), m.threads[s.current := t5]);
  }

  lemma VKeepsCurrent(s: State, i: nat)
    requires i < |s.sems|
    ensures SemV(s, i).current == s.current
  {
  }
}
