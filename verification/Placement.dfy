/** One place for every process: the safety of the shared link fields, over all runs. */
module Placement {
  import opened Basics
  import opened Scheduler

  /** Who may be listed where: idle is only ever preempted, and only the reaper waits for the dead. */
  predicate Allowed(pc: ReaperPc, p: Pid, q: QueueId) {
    && (p == IDLE ==> q == Run)
    && (p == REAPER ==> q == Run || (q == Wait(DEAD_SEM) && pc == InP))
    && (q == Wait(DEAD_SEM) ==> p == REAPER)
  }

  /** The queues are duplicate-free, pairwise disjoint, and hold live processes only. */
  ghost predicate QueuesOk(s: State) {
    && (forall q :: NoDup(Q(s, q)))
    && (forall q, r, p :: On(s, p, q) && On(s, p, r) ==> q == r)
    && (forall q, p :: On(s, p, q) ==> p in s.live && !Held(s, p) && Allowed(s.reaper, p, q))
    && s.current in s.live && IDLE in s.live && REAPER in s.live
    && (forall p :: Held(s, p) ==> p in s.live && p != IDLE && p != REAPER)
  }

  /** Between calls: the current process is off every queue, and nobody else is lost. */
  ghost predicate Placed(s: State) {
    && QueuesOk(s)
    && !Queued(s, s.current) && !Held(s, s.current)
    && (forall p :: p in s.live && p != s.current && p != IDLE && !Held(s, p) ==> Queued(s, p))
  }

  /** In front of a dispatch: the caller has put itself somewhere, or is idle. */
  ghost predicate Settled(s: State) {
    && QueuesOk(s)
    && (forall p :: p in s.live && p != IDLE && !Held(s, p) ==> Queued(s, p))
  }

  // ----- the three moves -----

  ghost predicate SameButQueues(s: State, t: State) {
    t.live == s.live && t.current == s.current && t.reaper == s.reaper
  }

  /** t is s with p appended to queue q. */
  ghost predicate Appended(s: State, t: State, q: QueueId, p: Pid) {
    && SameButQueues(s, t)
    && forall r :: Q(t, r) == if r == q then Q(s, q) + [p] else Q(s, r)
  }

  /** t is s with the member at position k of queue q taken out. */
  ghost predicate Removed(s: State, t: State, q: QueueId, k: nat) {
    && SameButQueues(s, t)
    && k < |Q(s, q)|
    && forall r :: Q(t, r) == if r == q then Without(Q(s, q), k) else Q(s, r)
  }

  /** The members of the queues after an append or a removal. */
  lemma AppendedMembers(s: State, t: State, q: QueueId, p: Pid)
    requires Appended(s, t, q, p)
    ensures forall x, r :: On(t, x, r) <==> On(s, x, r) || (x == p && r == q)
  {
  }

  lemma RemovedMembers(s: State, t: State, q: QueueId, k: nat)
    requires Removed(s, t, q, k)
    requires NoDup(Q(s, q)) && forall r :: On(s, Q(s, q)[k], r) ==> r == q
    ensures forall x, r :: On(t, x, r) <==> On(s, x, r) && x != Q(s, q)[k]
  {
  }

  lemma AppendKeeps(s: State, t: State, q: QueueId, p: Pid)
    requires QueuesOk(s) && Appended(s, t, q, p)
    requires p in s.live && !Queued(s, p) && !Held(s, p) && Allowed(s.reaper, p, q)
    ensures QueuesOk(t)
    ensures forall x :: Queued(t, x) <==> Queued(s, x) || x == p
  {
    AppendedMembers(s, t, q, p);
    assert !On(s, p, q);
    forall r ensures NoDup(Q(t, r)) { assert NoDup(Q(s, r)); }
    forall x
      ensures Queued(t, x) <==> Queued(s, x) || x == p
    {
      if Queued(s, x) { var r :| On(s, x, r); assert On(t, x, r); }
      if x == p { assert On(t, x, q); }
    }
  }

  lemma RemoveKeeps(s: State, t: State, q: QueueId, k: nat)
    requires QueuesOk(s) && Removed(s, t, q, k)
    ensures QueuesOk(t)
    ensures Queued(s, Q(s, q)[k])
    ensures forall x :: Queued(t, x) <==> Queued(s, x) && x != Q(s, q)[k]
  {
    var p := Q(s, q)[k];
    assert NoDup(Q(s, q)) && On(s, p, q);
    RemovedMembers(s, t, q, k);
    WithoutMembers(Q(s, q), k);
    forall r ensures NoDup(Q(t, r)) { assert NoDup(Q(s, r)); }
    forall x
      ensures Queued(t, x) <==> Queued(s, x) && x != p
    {
      if Queued(s, x) && x != p { var r :| On(s, x, r); assert On(t, x, r); }
    }
  }

  /** The predicates depend on the queues, the live set and the reaper only. */
  lemma SameQueues(s: State, t: State)
    requires QueuesOk(s) && t.live == s.live && t.reaper == s.reaper && t.current in s.live
    requires forall r :: Q(t, r) == Q(s, r)
    ensures QueuesOk(t)
    ensures forall x :: Queued(t, x) <==> Queued(s, x)
  {
    assert forall x, r :: On(t, x, r) <==> On(s, x, r);
    forall r ensures NoDup(Q(t, r)) { assert NoDup(Q(s, r)); }
    forall x
      ensures Queued(t, x) <==> Queued(s, x)
    {
      if Queued(s, x) { var r :| On(s, x, r); assert On(t, x, r); }
    }
  }

  lemma DispatchPlaces(s: State)
    requires Settled(s)
    ensures Placed(Dispatch(s))
  {
    if |s.run| > 0 { DispatchHead(s); } else { DispatchIdle(s); }
  }

  lemma DispatchHead(s: State)
    requires Settled(s) && |s.run| > 0
    ensures Placed(Dispatch(s))
  {
    hide Allowed, NoDup;
    var p := s.run[0];
    var u := s.(run := s.run[1..]);
    assert On(s, p, Run);
    assert s.run[1..] == Without(s.run, 0);
    RemoveKeeps(s, u, Run, 0);
    Redirected(u, Dispatch(s));
  }

  /** Making an unlisted process current, when everybody else is accounted for. */
  lemma Redirected(u: State, t: State)
    requires QueuesOk(u) && t == u.(current := t.current) && t.current in u.live
    requires !Queued(u, t.current) && !Held(u, t.current)
    requires forall p :: p in u.live && p != t.current && p != IDLE && !Held(u, p) ==> Queued(u, p)
    ensures Placed(t)
  {
    SameQueues(u, t);
  }

  lemma DispatchIdle(s: State)
    requires Settled(s) && s.run == []
    ensures Placed(Dispatch(s))
  {
    assert !On(s, IDLE, Run);
    SameQueues(s, Dispatch(s));
  }

  lemma StaysPlaced(s: State, t: State)
    requires Placed(s) && t.live == s.live && t.reaper == s.reaper && t.current == s.current
    requires forall r :: Q(t, r) == Q(s, r)
    ensures Placed(t)
  {
    SameQueues(s, t);
  }

  /** The current process joins a queue and gives up the processor. */
  lemma LeaveFor(s: State, t: State, q: QueueId)
    requires Placed(s) && Appended(s, t, q, s.current) && Allowed(s.reaper, s.current, q)
    ensures Placed(Dispatch(t))
  {
    AppendKeeps(s, t, q, s.current);
    DispatchPlaces(t);
  }

  // ----- the invariant -----

  /** A semaphore's count is either the permits left or, negated, the number of waiters. */
  ghost predicate SemOk(x: Sem) {
    |x.waiters| == if x.count < 0 then -x.count else 0
  }

  ghost predicate Counts(s: State) {
    && |s.sems| > DEAD_SEM
    && SemOk(s.sems[DEAD_SEM])
    && |s.dead| == s.sems[DEAD_SEM].count + if s.reaper == InP then 1 else 0
  }

  ghost predicate Clocks(s: State) {
    && (forall p :: p in s.live ==> p < s.nextPid)
    && s.ticks <= INT_MAX
  }

  ghost predicate Inv(s: State) {
    Placed(s) && Counts(s) && Clocks(s)
  }

  lemma InitHolds()
    ensures Inv(INIT)
  {
    assert forall q :: Q(INIT, q) == if q == Run then [REAPER, MAIN] else [];
    assert On(INIT, REAPER, Run) && On(INIT, MAIN, Run);
  }

  /** Replacing the waiters of one semaphore replaces that queue and no other. */
  lemma WaitersReplaced(s: State, i: nat, x: Sem)
    requires i < |s.sems|
    ensures forall r :: Q(s.(sems := s.sems[i := x]), r) == if r == Wait(i) then x.waiters else Q(s, r)
  {
    var t := s.(sems := s.sems[i := x]);
    forall r
      ensures Q(t, r) == if r == Wait(i) then x.waiters else Q(s, r)
    {
      if r.Wait? && r.sem < |s.sems| && r.sem != i { assert t.sems[r.sem] == s.sems[r.sem]; }
    }
  }

  lemma SemPPlaced(s: State, i: nat)
    requires Placed(s) && i < |s.sems| && Allowed(s.reaper, s.current, Wait(i))
    ensures Placed(SemP(s, i))
  {
    hide Placed, Allowed, Q;
    var down := s.sems[i].(count := s.sems[i].count - 1);
    assert Q(s, Wait(i)) == s.sems[i].waiters by { QWait(s, i); }
    if down.count < 0 {
      var x := down.(waiters := down.waiters + [s.current]);
      WaitersReplaced(s, i, x);
      LeaveFor(s, s.(sems := s.sems[i := x]), Wait(i));
    } else {
      WaitersReplaced(s, i, down);
      StaysPlaced(s, SemP(s, i));
    }
  }

  lemma QWait(s: State, i: nat)
    requires i < |s.sems|
    ensures Q(s, Wait(i)) == s.sems[i].waiters
  {
  }

  lemma QStart(s: State, p: Pid)
    ensures forall r :: Q(Start(s, p), r) == if r == Run then Q(s, Run) + [p] else Q(s, r)
  {
  }

  /** Moving the head of a queue to the end of the run queue. */
  lemma MoveToRun(s: State, u: State, q: QueueId)
    requires QueuesOk(s) && Removed(s, u, q, 0)
    ensures QueuesOk(Start(u, Q(s, q)[0]))
    ensures forall x :: Queued(Start(u, Q(s, q)[0]), x) <==> Queued(s, x)
  {
    var p := Q(s, q)[0];
    assert On(s, p, q);
    assert Allowed(s.reaper, p, q) && !Held(s, p) && p in s.live;
    AllowedOnRun(s.reaper, p, q);
    RemoveKeeps(s, u, q, 0);
    QStart(u, p);
    hide QueuesOk, Q, Queued, Allowed, Held;
    AppendKeeps(u, Start(u, p), Run, p);
  }

  /** V moves the head waiter, if any, to the run queue; nobody else moves. */
  lemma SemVMoves(s: State, i: nat)
    requires QueuesOk(s) && i < |s.sems|
    ensures QueuesOk(SemV(s, i))
    ensures forall x :: Queued(SemV(s, i), x) <==> Queued(s, x)
  {
    var up := s.sems[i].(count := s.sems[i].count + 1);
    QWait(s, i);
    if |up.waiters| > 0 {
      hide QueuesOk, Queued, Q;
      var x := up.(waiters := up.waiters[1..]);
      assert x.waiters == Without(Q(s, Wait(i)), 0);
      WaitersReplaced(s, i, x);
      MoveToRun(s, s.(sems := s.sems[i := x]), Wait(i));
    } else {
      WaitersReplaced(s, i, up);
      SameQueues(s, SemV(s, i));
    }
  }

  lemma SemVPlaced(s: State, i: nat)
    requires Placed(s) && i < |s.sems|
    ensures Placed(SemV(s, i))
  {
    SemVMoves(s, i);
  }

  lemma ExitPlaced(s: State)
    requires Placed(s) && |s.sems| > DEAD_SEM && UserRuns(s)
    ensures Placed(Exit(s))
  {
    var t := s.(dead := s.dead + [s.current]);
    AppendKeeps(s, t, Dead, s.current);
    SemVMoves(t, DEAD_SEM);
    DispatchPlaces(SemV(t, DEAD_SEM));
  }

  lemma ForkPlaced(s: State)
    requires Placed(s) && Clocks(s)
    ensures Placed(Fork(s))
  {
    var p := s.nextPid;
    var u := s.(nextPid := p + 1, live := s.live + {p});
    assert forall x, r :: On(u, x, r) <==> On(s, x, r);
    assert QueuesOk(u) by { forall r ensures NoDup(Q(u, r)) { assert NoDup(Q(s, r)); } }
    forall x
      ensures Queued(u, x) <==> Queued(s, x)
    {
      if Queued(s, x) { var r :| On(s, x, r); assert On(u, x, r); }
    }
    AppendKeeps(u, Fork(s), Run, p);
  }

  // ----- the clock -----

  /** The first due sleeper, as queue_find reports it. */
  function FirstDue(tick: seq<Sleeper>, now: nat): (k: nat)
    ensures k <= |tick|
    ensures k < |tick| ==> IsDue(tick[k], now)
    ensures forall i :: 0 <= i < k ==> !IsDue(tick[i], now)
  {
    if tick == [] || IsDue(tick[0], now) then 0 else 1 + FirstDue(tick[1..], now)
  }

  /** One round of the loop in clock_handler takes the next element off the partition. */
  lemma {:induction false} RoundOfPartition(tick: seq<Sleeper>, k: nat, now: nat)
    requires k < |tick| && IsDue(tick[k], now) && forall i :: 0 <= i < k ==> !IsDue(tick[i], now)
    ensures Due(tick, now) == [tick[k].pid] + Due(Without(tick, k), now)
    ensures NotDue(tick, now) == NotDue(Without(tick, k), now)
  {
    if k == 0 {
      assert Without(tick, 0) == tick[1..];
    } else {
      assert !IsDue(tick[0], now);
      assert Without(tick, k)[1..] == Without(tick[1..], k - 1);
      RoundOfPartition(tick[1..], k - 1, now);
    }
  }

  lemma {:induction false} NobodyDue(tick: seq<Sleeper>, now: nat)
    requires forall i :: 0 <= i < |tick| ==> !IsDue(tick[i], now)
    ensures Due(tick, now) == [] && NotDue(tick, now) == tick
  {
    if tick != [] { NobodyDue(tick[1..], now); }
  }

  /** The body of the loop in clock_handler: delete one sleeper, start it. */
  function Awakened(s: State, k: nat): State
    requires k < |s.tick|
  {
    Start(s.(tick := Without(s.tick, k)), s.tick[k].pid)
  }

  lemma AwakenOne(s: State, k: nat)
    requires QueuesOk(s) && k < |s.tick|
    ensures QueuesOk(Awakened(s, k))
    ensures forall x :: Queued(Awakened(s, k), x) <==> Queued(s, x)
  {
    hide NoDup, Allowed;
    var p := s.tick[k].pid;
    var u := s.(tick := Without(s.tick, k));
    assert PidsOf(u.tick) == Without(PidsOf(s.tick), k);
    assert On(s, p, Tick) by { assert PidsOf(s.tick)[k] == p; }
    assert Allowed(s.reaper, p, Tick) && !Held(s, p);
    RemoveKeeps(s, u, Tick, k);
    AllowedOnRun(s.reaper, p, Tick);
    AppendKeeps(u, Awakened(s, k), Run, p);
  }

  lemma AllowedOnRun(pc: ReaperPc, p: Pid, q: QueueId)
    requires Allowed(pc, p, q)
    ensures Allowed(pc, p, Run)
  {
  }

  /** The clock's sweep keeps everybody queued exactly as before. */
  lemma {:induction false} AwakenMoves(s: State)
    requires QueuesOk(s)
    ensures QueuesOk(Awaken(s))
    ensures forall x :: Queued(Awaken(s), x) <==> Queued(s, x)
    decreases |s.tick|
  {
    var k := FirstDue(s.tick, s.ticks);
    if k == |s.tick| {
      NobodyDue(s.tick, s.ticks);
      assert Awaken(s) == s;
    } else {
      hide QueuesOk, Queued;
      AwakenOne(s, k);
      RoundOfPartition(s.tick, k, s.ticks);
      assert Awaken(s) == Awaken(Awakened(s, k));
      AwakenMoves(Awakened(s, k));
    }
  }

  lemma YieldPlaced(s: State)
    requires Placed(s)
    ensures Placed(Yield(s))
  {
    LeaveFor(s, Start(s, s.current), Run);
  }

  lemma AwakenPlaced(s: State)
    requires Placed(s)
    ensures Placed(Awaken(s))
  {
    AwakenMoves(s);
  }

  lemma ClockPlaced(s: State)
    requires Placed(s)
    ensures Placed(ClockHandler(s))
  {
    hide Placed, Awaken, Yield;
    var u := s.(ticks := s.ticks + 1);
    assert forall r :: Q(u, r) == Q(s, r);
    StaysPlaced(s, u);
    AwakenPlaced(u);
    YieldPlaced(Awaken(u));
  }

  // ----- every step keeps the invariant -----

  lemma StepPlaced(s: State, e: Event)
    requires Inv(s) && Enabled(s, e)
    ensures Placed(Step(s, e))
  {
    var t := Step(s, e);
    match e
    case EFork => ForkPlaced(s);
    case EYield => YieldPlaced(s);
    case ESleep(ms) =>
      LeaveFor(s, s.(tick := s.tick + [Sleeper(s.current, WakeTick(ms, s.ticks))]), Tick);
    case ESemCreate(count) => StaysPlaced(s, t);
    case EP(i) => SemPPlaced(s, i);
    case EV(i) => SemVPlaced(s, i);
    case EExit => ExitPlaced(s);
    case EClock => ClockPlaced(s);
    case EIdleLoop => DispatchPlaces(s);
    case EReaperP => 
      ReaperMoves(s, s.(reaper := InP));
      SemPPlaced(s.(reaper := InP), DEAD_SEM);
    case EReaperDequeue => DequeuePlaced(s);
    case EReaperFreeStack => ReaperMoves(s, t);
    case EReaperFreePcb => ReleasePlaced(s);
  }

  /** The reaper's program counter moves without changing whom it holds. */
  lemma ReaperMoves(s: State, t: State)
    requires Placed(s) && s.current == REAPER
    requires t == s.(reaper := t.reaper) && forall x :: Held(t, x) <==> Held(s, x)
    ensures Placed(t)
  {
    assert forall r :: Q(t, r) == Q(s, r);
    assert forall x, r :: On(t, x, r) <==> On(s, x, r);
    forall r ensures NoDup(Q(t, r)) { assert NoDup(Q(s, r)); }
    forall x
      ensures Queued(t, x) <==> Queued(s, x)
    {
      if Queued(s, x) { var r :| On(s, x, r); assert On(t, x, r); }
    }
  }

  /** The reaper never finds the dead queue empty. */
  lemma DeadQueueFilled(s: State)
    requires Inv(s) && s.current == REAPER && s.reaper == InP
    ensures s.dead != []
  {
    var w := s.sems[DEAD_SEM].waiters;
    assert w == [] by {
      if w != [] { assert On(s, w[0], Wait(DEAD_SEM)); }
    }
    assert SemOk(s.sems[DEAD_SEM]);
  }

  lemma DequeuePlaced(s: State)
    requires Inv(s) && s.current == REAPER && s.reaper == InP
    ensures Placed(Step(s, EReaperDequeue))
  {
    DeadQueueFilled(s);
    var t := Step(s, EReaperDequeue);
    var u := s.(dead := s.dead[1..]);
    var p := s.dead[0];
    assert On(s, p, Dead);
    assert s.dead[1..] == Without(s.dead, 0);
    RemoveKeeps(s, u, Dead, 0);
    assert !Queued(u, REAPER) && !Queued(u, p);
    assert forall x, r :: On(t, x, r) <==> On(u, x, r);
    forall r ensures NoDup(Q(t, r)) { assert NoDup(Q(u, r)); }
    forall x
      ensures Queued(t, x) <==> Queued(u, x)
    {
      if Queued(u, x) { var r :| On(u, x, r); assert On(t, x, r); }
    }
    assert p != IDLE && p != REAPER;
  }

  lemma ReleasePlaced(s: State)
    requires Placed(s) && s.current == REAPER && s.reaper.FreePcb?
    ensures Placed(Step(s, EReaperFreePcb))
  {
    var t := Step(s, EReaperFreePcb);
    assert forall x, r :: On(t, x, r) <==> On(s, x, r);
    forall r ensures NoDup(Q(t, r)) { assert NoDup(Q(s, r)); }
    forall x
      ensures Queued(t, x) <==> Queued(s, x)
    {
      if Queued(s, x) { var r :| On(s, x, r); assert On(t, x, r); }
    }
  }

  lemma StepCounts(s: State, e: Event)
    requires Inv(s) && Enabled(s, e)
    ensures Counts(Step(s, e))
  {
    if e == EReaperDequeue { DeadQueueFilled(s); }
    hide Placed, Clocks, Due, NotDue;
  }

  lemma StepClocks(s: State, e: Event)
    requires Inv(s) && Enabled(s, e)
    ensures Clocks(Step(s, e))
  {
    assert s.current in s.live;
    hide Placed, Counts, Due, NotDue;
  }

  lemma StepKeepsInv(s: State, e: Event)
    requires Inv(s) && Enabled(s, e)
    ensures Inv(Step(s, e))
  {
    StepPlaced(s, e);
    StepCounts(s, e);
    StepClocks(s, e);
  }

  lemma {:induction false} RunKeepsInv(s: State, es: seq<Event>)
    requires Inv(s) && Legal(s, es)
    ensures Inv(Exec(s, es))
    decreases |es|
  {
    if es != [] {
      StepKeepsInv(s, es[0]);
      RunKeepsInv(Step(s, es[0]), es[1..]);
    }
  }
}
