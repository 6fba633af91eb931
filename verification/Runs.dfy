/** What holds over whole runs of the scheduler, from its boot state. */
module Runs {
  import opened Basics
  import opened Scheduler
  import opened Placement

  // ----- one place for everybody -----

  datatype Place = Current | Listed(q: QueueId, i: nat) | WithReaper | Parked

  /** Idle may be parked: neither running nor listed. */
  ghost predicate InPlace(s: State, p: Pid, at: Place) {
    match at
    case Current => p == s.current
    case Listed(q, i) => i < |Q(s, q)| && Q(s, q)[i] == p
    case WithReaper => Held(s, p)
    case Parked => p == IDLE && p != s.current && !Queued(s, p)
  }

  lemma PlaceIsUnique(s: State, p: Pid, a: Place, b: Place)
    requires Placed(s) && InPlace(s, p, a) && InPlace(s, p, b)
    ensures a == b && p in s.live
  {
    if a.Listed? { assert On(s, p, a.q); }
    if b.Listed? { assert On(s, p, b.q); }
    if a.Listed? && b.Listed? { assert NoDup(Q(s, a.q)); }
  }

  lemma PlaceExists(s: State, p: Pid) returns (at: Place)
    requires Placed(s) && p in s.live
    ensures InPlace(s, p, at)
  {
    if p == s.current { return Current; }
    if Held(s, p) { return WithReaper; }
    if Queued(s, p) {
      var q :| On(s, p, q);
      var i: nat :| i < |Q(s, q)| && Q(s, q)[i] == p;
      return Listed(q, i);
    }
    return Parked;
  }

  /** In every reachable state a process is live exactly when it has a place, and it has only one. */
  lemma OnePlaceAlways(es: seq<Event>)
    requires Legal(INIT, es)
    ensures forall p :: p in Exec(INIT, es).live <==> exists at :: InPlace(Exec(INIT, es), p, at)
    ensures forall p, a, b :: InPlace(Exec(INIT, es), p, a) && InPlace(Exec(INIT, es), p, b) ==> a == b
  {
    InitHolds();
    RunKeepsInv(INIT, es);
    var s := Exec(INIT, es);
    forall p
      ensures p in s.live <==> exists at :: InPlace(s, p, at)
    {
      if p in s.live { var at := PlaceExists(s, p); }
      if at :| InPlace(s, p, at) { PlaceIsUnique(s, p, at, at); }
    }
    forall p, a, b | InPlace(s, p, a) && InPlace(s, p, b)
      ensures a == b
    {
      PlaceIsUnique(s, p, a, b);
    }
  }

  // ----- semaphores -----

  predicate IsP(e: Event, i: nat) {
    e == EP(i) || (e == EReaperP && i == DEAD_SEM)
  }

  predicate IsV(e: Event, i: nat) {
    e == EV(i) || (e == EExit && i == DEAD_SEM)
  }

  function Ps(es: seq<Event>, i: nat): nat {
    if es == [] then 0 else (if IsP(es[0], i) then 1 else 0) + Ps(es[1..], i)
  }

  function Vs(es: seq<Event>, i: nat): nat {
    if es == [] then 0 else (if IsV(es[0], i) then 1 else 0) + Vs(es[1..], i)
  }

  /** Who is blocked on, and who is woken from, semaphore i by one event. */
  function BlockedBy(s: State, e: Event, i: nat): seq<Pid> {
    if IsP(e, i) && i < |s.sems| && s.sems[i].count <= 0 then [s.current] else []
  }

  function WokenBy(s: State, e: Event, i: nat): seq<Pid> {
    if IsV(e, i) && i < |s.sems| && |s.sems[i].waiters| > 0 then [s.sems[i].waiters[0]] else []
  }

  ghost function Blocked(s: State, es: seq<Event>, i: nat): seq<Pid>
    requires Legal(s, es)
    decreases |es|
  {
    if es == [] then [] else BlockedBy(s, es[0], i) + Blocked(Step(s, es[0]), es[1..], i)
  }

  ghost function Woken(s: State, es: seq<Event>, i: nat): seq<Pid>
    requires Legal(s, es)
    decreases |es|
  {
    if es == [] then [] else WokenBy(s, es[0], i) + Woken(Step(s, es[0]), es[1..], i)
  }

  lemma SemPEffect(s: State, j: nat)
    requires j < |s.sems|
    ensures var x, y := s.sems[j], SemP(s, j).sems[j];
      && SemP(s, j).sems == s.sems[j := y]
      && y == Sem(x.count - 1, x.waiters + if x.count <= 0 then [s.current] else [])
  {
  }

  lemma SemVEffect(s: State, j: nat)
    requires j < |s.sems|
    ensures var x, y := s.sems[j], SemV(s, j).sems[j];
      && SemV(s, j).sems == s.sems[j := y]
      && y == Sem(x.count + 1, x.waiters[if |x.waiters| > 0 then 1 else 0..])
  {
  }

  lemma SemStep(s: State, e: Event, i: nat)
    requires Enabled(s, e) && i < |s.sems|
    ensures |Step(s, e).sems| >= |s.sems|
    ensures Step(s, e).sems[i].count
         == s.sems[i].count + (if IsV(e, i) then 1 else 0) - (if IsP(e, i) then 1 else 0)
    ensures s.sems[i].waiters + BlockedBy(s, e, i) == WokenBy(s, e, i) + Step(s, e).sems[i].waiters
  {
    hide Due, NotDue, SemP, SemV;
    match e
    case EP(j) => SemPEffect(s, j);
    case EReaperP => SemPEffect(s.(reaper := InP), DEAD_SEM);
    case EV(j) => SemVEffect(s, j);
    case EExit => SemVEffect(s.(dead := s.dead + [s.current]), DEAD_SEM);
    case _ =>
  }

  /** Joining two steps of a queue: what was there and came in is what went out and is left. */
  lemma Chain(p: seq<Pid>, x: seq<Pid>, more: seq<Pid>, y: seq<Pid>, q: seq<Pid>, gone: seq<Pid>, r: seq<Pid>)
    requires p + x == y + q && q + more == gone + r
    ensures p + (x + more) == (y + gone) + r
  {
    calc {
      p + (x + more);
      (p + x) + more;
      y + (q + more);
      (y + gone) + r;
    }
  }

  /** Counting, order and conservation of the waiters along any run. */
  lemma {:induction false} SemRun(s: State, es: seq<Event>, i: nat)
    requires Legal(s, es) && i < |s.sems|
    ensures |Exec(s, es).sems| >= |s.sems|
    ensures Exec(s, es).sems[i].count == s.sems[i].count + Vs(es, i) - Ps(es, i)
    ensures s.sems[i].waiters + Blocked(s, es, i) == Woken(s, es, i) + Exec(s, es).sems[i].waiters
    decreases |es|
  {
    hide Step, Enabled, BlockedBy, WokenBy, IsP, IsV;
    if es != [] {
      var t := Step(s, es[0]);
      SemStep(s, es[0], i);
      SemRun(t, es[1..], i);
      Chain(s.sems[i].waiters, BlockedBy(s, es[0], i), Blocked(t, es[1..], i),
        WokenBy(s, es[0], i), t.sems[i].waiters, Woken(t, es[1..], i), Exec(s, es).sems[i].waiters);
    }
  }

  function Min(a: int, b: int): int { if a <= b then a else b }

  /** What a semaphore that stood at (count, no waiters) in state s looks like after a run. */
  ghost predicate ObeysLaw(s: State, es: seq<Event>, i: nat, count: int)
    requires Legal(s, es)
  {
    var t := Exec(s, es);
    && i < |t.sems|
    && t.sems[i].count == count + Vs(es, i) - Ps(es, i)
    && |t.sems[i].waiters| == (if t.sems[i].count < 0 then -t.sems[i].count else 0)
    && Blocked(s, es, i) == Woken(s, es, i) + t.sems[i].waiters
    && Ps(es, i) - |t.sems[i].waiters| == Min(Ps(es, i), count + Vs(es, i))
  }

  /** A semaphore whose count and waiters agree stays so. */
  lemma SemOkStep(s: State, e: Event, i: nat)
    requires Enabled(s, e) && i < |s.sems| && SemOk(s.sems[i])
    ensures |Step(s, e).sems| >= |s.sems| && SemOk(Step(s, e).sems[i])
  {
    SemStep(s, e, i);
    hide Step, Enabled;
  }

  lemma {:induction false} SemOkRun(s: State, es: seq<Event>, i: nat)
    requires Legal(s, es) && i < |s.sems| && SemOk(s.sems[i])
    ensures |Exec(s, es).sems| >= |s.sems| && SemOk(Exec(s, es).sems[i])
    decreases |es|
  {
    hide Step, Enabled, SemOk;
    if es != [] {
      SemOkStep(s, es[0], i);
      SemOkRun(Step(s, es[0]), es[1..], i);
    }
  }

  /**
   * A semaphore made with `count` permits, any run later: its count is count + Vs - Ps,
   * waiters leave in the order in which they came and none is lost, and the number of
   * Ps that have been granted is exactly the smaller of Ps and count + Vs. This is so
   * for every run if and only if the count is not negative; the code accepts any.
   */
  lemma SemaphoreLaw(r: State, count: int)
    requires Enabled(r, ESemCreate(count))
    ensures (forall es :: Legal(Step(r, ESemCreate(count)), es) ==>
        ObeysLaw(Step(r, ESemCreate(count)), es, |r.sems|, count))
      <==> count >= 0
  {
    var s, i := Step(r, ESemCreate(count)), |r.sems|;
    assert s.sems[i] == Sem(count, []);
    hide Step, Enabled;
    if count >= 0 {
      forall es | Legal(s, es)
        ensures ObeysLaw(s, es, i, count)
      {
        SemRun(s, es, i);
        SemOkRun(s, es, i);
        assert [] + Blocked(s, es, i) == Blocked(s, es, i);
      }
    } else {
      assert Legal(s, []) && !ObeysLaw(s, [], i, count);
    }
  }

  /** Whatever the count, it is kept right and the waiters leave in order with none lost. */
  lemma SemaphoreConserves(r: State, count: int, es: seq<Event>)
    requires Enabled(r, ESemCreate(count)) && Legal(Step(r, ESemCreate(count)), es)
    ensures var s, i := Step(r, ESemCreate(count)), |r.sems|;
      var t := Exec(s, es);
      && i < |t.sems| && t.sems[i].count == count + Vs(es, i) - Ps(es, i)
      && Blocked(s, es, i) == Woken(s, es, i) + t.sems[i].waiters
  {
    var s, i := Step(r, ESemCreate(count)), |r.sems|;
    assert s.sems[i] == Sem(count, []);
    hide Step, Enabled;
    SemRun(s, es, i);
    assert [] + Blocked(s, es, i) == Blocked(s, es, i);
  }

  // ----- the dead and the reaper -----

  /** The processes that ended, in order. */
  ghost function Exited(s: State, es: seq<Event>): seq<Pid>
    requires Legal(s, es)
    decreases |es|
  {
    if es == [] then []
    else (if es[0] == EExit then [s.current] else []) + Exited(Step(s, es[0]), es[1..])
  }

  /** The processes whose blocks were given back, in order. */
  ghost function Freed(s: State, es: seq<Event>): seq<Pid>
    requires Legal(s, es)
    decreases |es|
  {
    if es == [] then []
    else (if es[0] == EReaperFreePcb then [s.reaper.victim] else []) + Freed(Step(s, es[0]), es[1..])
  }

  /** The process whose blocks the reaper is giving back, if any. */
  function Hand(s: State): seq<Pid> {
    if s.reaper.FreeStack? || s.reaper.FreePcb? then [s.reaper.victim] else []
  }

  /** Those that ended and are not yet freed: the one in the reaper's hand, then the dead queue. */
  function Pending(s: State): seq<Pid> {
    Hand(s) + s.dead
  }

  /** Only an exit, the reaper's dequeue and its second free change who is pending. */
  lemma DeadStep(s: State, e: Event)
    requires Inv(s) && Enabled(s, e)
    ensures e == EReaperDequeue ==>
      s.dead != [] && Step(s, e).dead == s.dead[1..] && Hand(s) == [] && Hand(Step(s, e)) == [s.dead[0]]
    ensures e == EReaperFreePcb ==> Hand(s) == [s.reaper.victim] && Hand(Step(s, e)) == []
    ensures e != EReaperDequeue ==> Step(s, e).dead == s.dead + if e == EExit then [s.current] else []
    ensures e != EReaperDequeue && e != EReaperFreePcb ==> Hand(Step(s, e)) == Hand(s)
  {
    hide Inv, Due, NotDue, SemP, SemV;
    match e
    case EP(i) => SemsSpareTheDead(s, i);
    case EV(i) => SemsSpareTheDead(s, i);
    case EReaperP => SemsSpareTheDead(s.(reaper := InP), DEAD_SEM);
    case EExit => SemsSpareTheDead(s.(dead := s.dead + [s.current]), DEAD_SEM);
    case EReaperDequeue => DeadQueueFilled(s);
    case _ =>
  }

  lemma SemsSpareTheDead(s: State, i: nat)
    requires i < |s.sems|
    ensures SemP(s, i).dead == s.dead && SemP(s, i).reaper == s.reaper
    ensures SemV(s, i).dead == s.dead && SemV(s, i).reaper == s.reaper
  {
  }

  lemma ExitStep(s: State, e: Event)
    requires Inv(s) && Enabled(s, e)
    ensures Pending(s) + (if e == EExit then [s.current] else [])
         == (if e == EReaperFreePcb then [s.reaper.victim] else []) + Pending(Step(s, e))
  {
    hide Inv, Step, Enabled, Hand;
    DeadStep(s, e);
    if e == EReaperDequeue {
      assert s.dead == [s.dead[0]] + s.dead[1..];
    }
  }

  /** Processes are freed in the order in which they ended, and none is lost on the way. */
  lemma {:induction false} ExitConservation(s: State, es: seq<Event>)
    requires Inv(s) && Legal(s, es)
    ensures Pending(s) + Exited(s, es) == Freed(s, es) + Pending(Exec(s, es))
    decreases |es|
  {
    if es != [] {
      var t := Step(s, es[0]);
      var x := if es[0] == EExit then [s.current] else [];
      var y := if es[0] == EReaperFreePcb then [s.reaper.victim] else [];
      ExitStep(s, es[0]);
      StepKeepsInv(s, es[0]);
      hide Step, Enabled, Inv, Pending;
      ExitConservation(t, es[1..]);
      Chain(Pending(s), x, Exited(t, es[1..]), y, Pending(t), Freed(t, es[1..]), Pending(Exec(s, es)));
    }
  }

  lemma LiveStep(s: State, e: Event, p: Pid)
    requires Inv(s) && Enabled(s, e) && p !in s.live && p < s.nextPid
    ensures p !in Step(s, e).live && p < Step(s, e).nextPid
    ensures e == EReaperFreePcb ==> p != s.reaper.victim
  {
    assert e == EReaperFreePcb ==> Held(s, s.reaper.victim);
    hide Inv, Due, NotDue;
  }

  /** Pids are never reused, so a process that has been freed never comes back. */
  lemma {:induction false} GoneForGood(s: State, es: seq<Event>, p: Pid)
    requires Inv(s) && Legal(s, es) && p !in s.live && p < s.nextPid
    ensures p !in Exec(s, es).live && p !in Freed(s, es)
    decreases |es|
  {
    if es != [] {
      LiveStep(s, es[0], p);
      StepKeepsInv(s, es[0]);
      hide Step, Enabled, Inv;
      GoneForGood(Step(s, es[0]), es[1..], p);
    }
  }

  /** Nobody is freed twice. */
  lemma {:induction false} FreedOnce(s: State, es: seq<Event>)
    requires Inv(s) && Legal(s, es)
    ensures NoDup(Freed(s, es))
    decreases |es|
  {
    if es != [] {
      var t := Step(s, es[0]);
      StepKeepsInv(s, es[0]);
      FreedOnce(t, es[1..]);
      if es[0] == EReaperFreePcb {
        assert Held(s, s.reaper.victim);
        GoneForGood(t, es[1..], s.reaper.victim);
        assert Freed(s, es)[1..] == Freed(t, es[1..]);
      } else {
        assert Freed(s, es) == Freed(t, es[1..]);
      }
    }
  }

  lemma ReaperFacts(s: State)
    requires Inv(s)
    ensures |s.sems| > DEAD_SEM
    ensures |s.dead| == s.sems[DEAD_SEM].count + (if s.reaper == InP then 1 else 0)
    ensures Enabled(s, EReaperDequeue) ==> s.dead != []
    ensures forall p :: Held(s, p) ==> p in s.live && p != s.current && !Queued(s, p)
  {
    if Enabled(s, EReaperDequeue) { DeadQueueFilled(s); }
    forall p | Held(s, p)
      ensures !Queued(s, p)
    {
      assert forall q :: !On(s, p, q);
    }
  }

  /** The reaper's accounting in every reachable state. */
  lemma ReaperLaw(es: seq<Event>)
    requires Legal(INIT, es)
    ensures var s := Exec(INIT, es);
      && |s.sems| > DEAD_SEM
      && |s.dead| == s.sems[DEAD_SEM].count + (if s.reaper == InP then 1 else 0)
      && (Enabled(s, EReaperDequeue) ==> s.dead != [])
      && Exited(INIT, es) == Freed(INIT, es) + Pending(s)
      && NoDup(Freed(INIT, es))
      && (forall p :: Held(s, p) ==> p in s.live && p != s.current && !Queued(s, p))
  {
    hide Inv, Enabled, Held, Step, Queued;
    InitHolds();
    RunKeepsInv(INIT, es);
    ReaperFacts(Exec(INIT, es));
    ExitConservation(INIT, es);
    FreedOnce(INIT, es);
    assert Pending(INIT) == [] && [] + Exited(INIT, es) == Exited(INIT, es);
  }

  // ----- round robin -----

  /** Whether the event goes through schedule_next_process. */
  predicate Dispatches(s: State, e: Event) {
    match e
    case EYield => true
    case ESleep(_) => true
    case EExit => true
    case EClock => true
    case EIdleLoop => true
    case EP(i) => i < |s.sems| && s.sems[i].count <= 0
    case EReaperP => DEAD_SEM < |s.sems| && s.sems[DEAD_SEM].count <= 0
    case _ => false
  }

  ghost function DispatchCount(s: State, es: seq<Event>): nat
    requires Legal(s, es)
    decreases |es|
  {
    if es == [] then 0 else (if Dispatches(s, es[0]) then 1 else 0) + DispatchCount(Step(s, es[0]), es[1..])
  }

  /** One event: a dispatch takes the head, and otherwise the queue only grows at its end. */
  lemma RunQueueStep(s: State, e: Event)
    requires Enabled(s, e)
    ensures !Dispatches(s, e) ==> s.run <= Step(s, e).run && Step(s, e).current == s.current
    ensures Dispatches(s, e) && s.run != [] ==> s.run[1..] <= Step(s, e).run && Step(s, e).current == s.run[0]
  {
  }

  /** A process at index k of the run queue moves up by one place with every dispatch. */
  lemma {:induction false} MovesUp(s: State, es: seq<Event>, k: nat)
    requires Legal(s, es) && k < |s.run| && DispatchCount(s, es) <= k
    ensures k - DispatchCount(s, es) < |Exec(s, es).run|
    ensures Exec(s, es).run[k - DispatchCount(s, es)] == s.run[k]
    decreases |es|
  {
    if es != [] {
      RunQueueStep(s, es[0]);
      var t := Step(s, es[0]);
      if Dispatches(s, es[0]) {
        assert t.run[k - 1] == s.run[1..][k - 1];
        MovesUp(t, es[1..], k - 1);
      } else {
        MovesUp(t, es[1..], k);
      }
    }
  }

  /** The process at index k becomes current with exactly the (k+1)-th dispatch from now. */
  lemma RoundRobin(s: State, es: seq<Event>, e: Event, k: nat)
    requires Legal(s, es) && Enabled(Exec(s, es), e) && Dispatches(Exec(s, es), e)
    requires k < |s.run| && DispatchCount(s, es) <= k
    ensures DispatchCount(s, es) == k ==> Step(Exec(s, es), e).current == s.run[k]
    ensures DispatchCount(s, es) < k ==>
      var j := k - DispatchCount(s, es) - 1;
      j < |Step(Exec(s, es), e).run| && Step(Exec(s, es), e).run[j] == s.run[k]
  {
    MovesUp(s, es, k);
    RunQueueStep(Exec(s, es), e);
    var r := Exec(s, es).run;
    var d := k - DispatchCount(s, es);
    if d > 0 { assert r[1..][d - 1] == r[d]; }
  }

  /** The run queue never holds everybody: the current process is not in it. */
  lemma RunQueueBound(s: State)
    requires Placed(s)
    ensures |s.run| < |s.live|
  {
    assert NoDup(Q(s, Run));
    forall x | x in s.run
      ensures x in s.live - {s.current}
    {
      assert On(s, x, Run);
    }
    NoDupFits(s.run, s.live - {s.current});
  }

  /**
   * A process that yields goes on at once if nobody else is runnable. Otherwise it is back
   * with a dispatch that comes after fewer others than there are live processes, whatever
   * happens in between.
   */
  lemma YieldReturns(before: seq<Event>, es: seq<Event>, e: Event)
    requires Legal(INIT, before) && Enabled(Exec(INIT, before), EYield)
    requires Legal(Yield(Exec(INIT, before)), es) && Enabled(Exec(Yield(Exec(INIT, before)), es), e)
    ensures var s := Exec(INIT, before);
      var u := Exec(Yield(s), es);
      && |s.run| < |s.live|
      && (s.run == [] ==> Yield(s).current == s.current)
      && (Dispatches(u, e) && DispatchCount(Yield(s), es) + 1 == |s.run| ==> Step(u, e).current == s.current)
  {
    var s := Exec(INIT, before);
    InitHolds();
    RunKeepsInv(INIT, before);
    RunQueueBound(s);
    if s.run != [] {
      assert Yield(s).run == s.run[1..] + [s.current];
      if Dispatches(Exec(Yield(s), es), e) && DispatchCount(Yield(s), es) + 1 == |s.run| {
        RoundRobin(Yield(s), es, e, |s.run| - 1);
      }
    }
  }

  // ----- sleeping -----

  lemma {:induction false} NotDueMembers(tick: seq<Sleeper>, now: nat, x: Sleeper)
    ensures x in NotDue(tick, now) <==> x in tick && !IsDue(x, now)
    ensures x in tick && IsDue(x, now) ==> x.pid in Due(tick, now)
  {
    if tick != [] {
      NotDueMembers(tick[1..], now, x);
      assert x in tick <==> x == tick[0] || x in tick[1..];
    }
  }

  /** Both halves of the clock's sweep keep the order: they distribute over concatenation. */
  lemma {:induction false} SweepIsStable(a: seq<Sleeper>, b: seq<Sleeper>, now: nat)
    ensures Due(a + b, now) == Due(a, now) + Due(b, now)
    ensures NotDue(a + b, now) == NotDue(a, now) + NotDue(b, now)
  {
    if a == [] {
      assert a + b == b;
    } else {
      assert (a + b)[1..] == a[1..] + b;
      SweepIsStable(a[1..], b, now);
    }
  }

  lemma PidsOfFront(tick: seq<Sleeper>)
    requires tick != []
    ensures PidsOf(tick) == [tick[0].pid] + PidsOf(tick[1..])
  {
  }

  /** And together they lose nobody. */
  lemma {:induction false} SweepIsPartition(tick: seq<Sleeper>, now: nat)
    ensures multiset(PidsOf(tick)) == multiset(Due(tick, now)) + multiset(PidsOf(NotDue(tick, now)))
  {
    hide PidsOf;
    if tick == [] {
      assert |PidsOf(tick)| == 0;
    } else {
      var rest := NotDue(tick[1..], now);
      SweepIsPartition(tick[1..], now);
      PidsOfFront(tick);
      if !IsDue(tick[0], now) {
        PidsOfFront([tick[0]] + rest);
        assert ([tick[0]] + rest)[1..] == rest;
      }
    }
  }

  /** A sleeper stays until the first tick that reaches its wake-up time. */
  lemma SleeperStep(s: State, e: Event, x: Sleeper)
    requires Inv(s) && Enabled(s, e) && x in s.tick
    ensures e == EClock && x.wake <= s.ticks + 1 ==>
      !On(Step(s, e), x.pid, Tick) && (On(Step(s, e), x.pid, Run) || Step(s, e).current == x.pid)
    ensures !(e == EClock && x.wake <= s.ticks + 1) ==> x in Step(s, e).tick
    ensures Step(s, e).ticks == s.ticks + if e == EClock then 1 else 0
  {
    var t := Step(s, e);
    if e == EClock {
      NotDueMembers(s.tick, s.ticks + 1, x);
      assert t.tick == NotDue(s.tick, s.ticks + 1);
      if x.wake <= s.ticks + 1 {
        var r := s.run + Due(s.tick, s.ticks + 1) + [s.current];
        assert x.pid in r && r == [t.current] + t.run;
        StepKeepsInv(s, e);
        assert !On(t, x.pid, Tick) by {
          assert On(t, x.pid, Run) || (x.pid == t.current && !Queued(t, x.pid));
        }
      }
    }
  }

  lemma {:induction false} SleeperRun(s: State, es: seq<Event>, x: Sleeper)
    requires Inv(s) && Legal(s, es) && x in s.tick
    ensures s.ticks <= Exec(s, es).ticks
    ensures Exec(s, es).ticks == s.ticks || Exec(s, es).ticks < x.wake ==> x in Exec(s, es).tick
    decreases |es|
  {
    if es != [] {
      var t := Step(s, es[0]);
      SleeperStep(s, es[0], x);
      StepKeepsInv(s, es[0]);
      if x in t.tick {
        SleeperRun(t, es[1..], x);
      } else {
        TicksGrow(t, es[1..]);
      }
    }
  }

  lemma {:induction false} TicksGrow(s: State, es: seq<Event>)
    requires Legal(s, es)
    ensures s.ticks <= Exec(s, es).ticks
    decreases |es|
  {
    if es != [] { TicksGrow(Step(s, es[0]), es[1..]); }
  }

  /** For ms >= 0 nothing wraps, and a sleeper is never overdue. */
  lemma WakeTickForward(ms: nat, ticks: nat)
    requires ms <= INT_MAX && ticks <= INT_MAX
    ensures WakeTick(ms, ticks) == ticks + ms / 50
  {
  }

  /**
   * A negative argument is accepted by the code. It sleeps for one tick if at least as
   * many ticks have passed as it subtracts, and beyond every tick count otherwise.
   */
  lemma WakeTickBackward(ms: int, ticks: nat)
    requires INT_MIN <= ms < 0 && ticks <= INT_MAX
    ensures WakeTick(ms, ticks) <= ticks + 1 <==> (-ms) / 50 <= ticks
    ensures !((-ms) / 50 <= ticks) ==> WakeTick(ms, ticks) > INT_MAX
  {
  }

  ghost predicate NobodyOverdue(s: State) {
    forall x :: x in s.tick ==> s.ticks <= x.wake
  }

  /** A sleep that names a tick in the past. */
  predicate Backdated(s: State, e: Event) {
    e.ESleep? && e.ms < 0 && 1 <= (-e.ms) / 50 <= s.ticks
  }

  lemma {:induction false} NotDueLater(tick: seq<Sleeper>, now: nat)
    ensures forall i :: 0 <= i < |NotDue(tick, now)| ==> now < NotDue(tick, now)[i].wake
  {
    if tick != [] { NotDueLater(tick[1..], now); }
  }

  /** One call leaves a sleeper overdue if and only if it is a backdated sleep. */
  lemma OverdueStep(s: State, e: Event)
    requires Enabled(s, e) && NobodyOverdue(s) && s.ticks <= INT_MAX
    ensures NobodyOverdue(Step(s, e)) <==> !Backdated(s, e)
  {
    if e == EClock {
      NotDueLater(s.tick, s.ticks + 1);
      assert Step(s, e).tick == NotDue(s.tick, s.ticks + 1);
    } else if e.ESleep? {
      var x := Sleeper(s.current, WakeTick(e.ms, s.ticks));
      assert Step(s, e).tick == s.tick + [x];
      WakeTickRange(e.ms, s.ticks);
      hide WakeTick;
      assert x in Step(s, e).tick && forall y :: y in s.tick ==> y in Step(s, e).tick;
    }
  }

  lemma WakeTickRange(ms: int, ticks: nat)
    requires INT_MIN <= ms <= INT_MAX && ticks <= INT_MAX
    ensures WakeTick(ms, ticks) < ticks <==> ms < 0 && 1 <= (-ms) / 50 <= ticks
  {
  }

  ghost predicate NeverBackdated(s: State, es: seq<Event>)
    requires Legal(s, es)
    decreases |es|
  {
    es == [] || (!Backdated(s, es[0]) && NeverBackdated(Step(s, es[0]), es[1..]))
  }

  /** In a run without backdated sleeps nobody who is asleep is overdue. */
  lemma {:induction false} NobodyOversleeps(s: State, es: seq<Event>)
    requires Inv(s) && NobodyOverdue(s) && Legal(s, es) && NeverBackdated(s, es)
    ensures NobodyOverdue(Exec(s, es))
    decreases |es|
  {
    hide Step, Enabled, NobodyOverdue, Backdated;
    if es != [] {
      OverdueStep(s, es[0]);
      StepKeepsInv(s, es[0]);
      NobodyOversleeps(Step(s, es[0]), es[1..]);
    }
  }

  /**
   * The handler that wakes a process which slept for ms at tick t is exactly the one that
   * sets ticks to max(t + 1, wake-up tick), where the wake-up tick is t + ms / 50 for every
   * ms that is not negative.
   */
  lemma WakesExactly(before: seq<Event>, ms: int, es: seq<Event>, e: Event)
    requires Legal(INIT, before) && Enabled(Exec(INIT, before), ESleep(ms))
    requires Legal(Sleep(Exec(INIT, before), ms), es)
    requires Enabled(Exec(Sleep(Exec(INIT, before), ms), es), e)
    ensures var s := Exec(INIT, before);
      var wake := WakeTick(ms, s.ticks);
      var due := if wake > s.ticks + 1 then wake else s.ticks + 1;
      var u := Exec(Sleep(s, ms), es);
      var t := Step(u, e);
      && (ms >= 0 ==> wake == s.ticks + ms / 50)
      && (u.ticks < due ==> On(u, s.current, Tick))
      && (u.ticks < due && t.ticks == due ==>
            !On(t, s.current, Tick) && (On(t, s.current, Run) || t.current == s.current))
  {
    hide Inv, WakeTick, Step, Enabled, Sleep;
    var s := Exec(INIT, before);
    var x := Sleeper(s.current, WakeTick(ms, s.ticks));
    InitHolds();
    RunKeepsInv(INIT, before);
    SleepingFacts(s, ms);
    var v := Sleep(s, ms);
    RunKeepsInv(v, es);
    SleeperRun(v, es, x);
    var u := Exec(v, es);
    if x in u.tick {
      var i :| 0 <= i < |u.tick| && u.tick[i] == x;
      assert PidsOf(u.tick)[i] == s.current;
      SleeperStep(u, e, x);
    }
  }

  /** A process that has just gone to sleep. */
  lemma SleepingFacts(s: State, ms: int)
    requires Inv(s) && Enabled(s, ESleep(ms))
    ensures var v := Sleep(s, ms);
      && Inv(v) && v.ticks == s.ticks && Sleeper(s.current, WakeTick(ms, s.ticks)) in v.tick
    ensures ms >= 0 ==> WakeTick(ms, s.ticks) == s.ticks + ms / 50
  {
    hide WakeTick;
    StepKeepsInv(s, ESleep(ms));
    if ms >= 0 { WakeTickForward(ms, s.ticks); }
    assert Sleep(s, ms).tick[|s.tick|] == Sleeper(s.current, WakeTick(ms, s.ticks));
  }
}
