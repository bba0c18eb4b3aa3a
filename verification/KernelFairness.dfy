/** Bounded waiting: on the ready queue and on every semaphore of the processes. */
module KernelFairness {
  import opened Seqs
  import opened Layout
  import opened Places
  import opened KernelModel
  import opened KernelSafety
  import opened KernelKill
  import opened KernelSteps
  import opened KernelRuns
  import opened KernelTheorems

  /** How many stand before x. */
  function Pos(s: seq<int>, x: int): nat {
    if s == [] || s[0] == x then 0 else 1 + Pos(s[1..], x)
  }

  lemma {:induction false} PosAppend(s: seq<int>, x: int, t: seq<int>)
    requires x in s
    ensures Pos(s + t, x) == Pos(s, x)
  {
    if s[0] != x {
      PosAppend(s[1..], x, t);
      assert (s + t)[1..] == s[1..] + t;
    }
  }

  lemma {:induction false} PosKeep(s: seq<int>, x: int, gone: set<int>)
    requires x in s && x !in gone
    ensures x in Keep(s, gone) && Pos(Keep(s, gone), x) <= Pos(s, x)
  {
    if s[0] != x {
      PosKeep(s[1..], x, gone);
    }
  }

  /** The event takes the processor from the current process, or finds none: the scheduler is called. */
  predicate Reschedules(k: Kernel, e: Event) {
    match e
    case SysTerminate => true
    case SysP(a) => a == 0 || Val(k.sem, a) - 1 < 0
    case SysV(a) => a == 0
    case SysIO(_, _, _) => true
    case SysClock => true
    case Timeslice => true
    case ClockTick => Cur(k) == NULL
    case DeviceInt(_, _, _) => Cur(k) == NULL
    case _ => false
  }

  /** x is running, or gone, or still ready with no more than n before it. */
  predicate Within(k: Kernel, x: int, n: int) {
    0 <= x < |k.place| &&
    (k.place[x] == Running || k.place[x] == Free ||
     (k.place[x] == Ready && x in Get(k.q, Ready) && Pos(Get(k.q, Ready), x) <= n))
  }

  lemma DispatchAdvances(k: Kernel, x: int, n: int)
    requires Inv(k) && Cur(k) == NULL && Within(k, x, n)
    ensures Within(Dispatch(k), x, n - 1)
  {
    hide Placed, Linked, Rooted, Move, Count, Named, Accounted;
    DispatchInv(k);
    var ready := Get(k.q, Ready);
    Listed(k, x);
    if ready != [] {
      Member(k, Ready, ready[0]);
      Moved(k, ready[0], Running);
    }
  }

  lemma TerminateAdvances(k: Kernel, x: int)
    requires Sound(k) && Cur(k) != NULL && IsPid(x) && k.place[x] == Ready
    ensures Within(Terminate(k), x, Pos(Get(k.q, Ready), x) - 1)
  {
    hide Placed, Linked, Rooted, Move, MoveTo, Count, Named, Accounted, Kill;
    LoopIsExact(k);
    Listed(k, x);
    var k' := Kill(KillStart(k));
    if x !in Descendants(k, Cur(k)) {
      PosKeep(Get(k.q, Ready), x, Descendants(k, Cur(k)));
    }
    DispatchAdvances(k', x, Pos(Get(k.q, Ready), x));
  }

  lemma SleepAdvances(k: Kernel, a: int, x: int)
    requires Sound(k) && Cur(k) != NULL && IsSemAddress(a) && a in k.sem && (IsDevSem(a) || k.sem[a] <= 0)
    requires IsPid(x) && k.place[x] == Ready
    ensures Within(Sleep(k, a), x, Pos(Get(k.q, Ready), x) - 1)
  {
    hide Placed, Linked, Rooted, Move, MoveTo, Count, Named, Accounted;
    DescriptorsSuffice(k, a);
    BlockOnInv(k, a);
    Member(k, Running, Cur(k));
    Moved(k, Cur(k), Blocked(a));
    Listed(k, x);
    DispatchAdvances(BlockOn(k, a), x, Pos(Get(k.q, Ready), x));
  }

  lemma PreemptAdvances(k: Kernel, x: int)
    requires Sound(k) && Cur(k) != NULL && IsPid(x) && k.place[x] == Ready
    ensures Within(Preempt(k), x, Pos(Get(k.q, Ready), x) - 1)
  {
    hide Placed, Linked, Rooted, Move, MoveTo, Count, Named, Accounted;
    var c := Cur(k);
    Member(k, Running, c);
    Moved(k, c, Ready);
    StandingMove(k.place, k.parent, k.birth, k.births, k.root, c, Ready);
    SameWaiters(k.q, MoveTo(k, c, Ready).q, k.sem);
    Listed(k, x);
    PosAppend(Get(k.q, Ready), x, [c]);
    DispatchAdvances(MoveTo(k, c, Ready), x, Pos(Get(k.q, Ready), x));
  }

  /** Waking somebody else does not move x. */
  lemma WakeKeeps(k: Kernel, a: int, x: int)
    requires Core(k) && IsPid(x) && k.place[x] == Ready
    ensures Within(WakeFirst(k, a), x, Pos(Get(k.q, Ready), x))
    ensures Core(WakeFirst(k, a)) && WakeFirst(k, a).place[x] == Ready
    ensures Pos(Get(WakeFirst(k, a).q, Ready), x) == Pos(Get(k.q, Ready), x)
  {
    hide Placed, Linked, Rooted, Move, MoveTo, Count, Named;
    WakeFirstCore(k, a);
    Listed(k, x);
    var waiting := Get(k.q, Blocked(a));
    if waiting != [] {
      Member(k, Blocked(a), waiting[0]);
      Moved(k, waiting[0], Ready);
      PosAppend(Get(k.q, Ready), x, [waiting[0]]);
    }
  }

  lemma {:induction false} DrainKeeps(k: Kernel, a: int, x: int)
    requires Core(k) && IsPid(x) && k.place[x] == Ready
    ensures Within(Drain(k, a), x, Pos(Get(k.q, Ready), x))
    decreases |Get(k.q, Blocked(a))|
  {
    hide Placed, Linked, Rooted, Move, MoveTo, Count, Named, Counted;
    Listed(k, x);
    if Get(k.q, Blocked(a)) != [] {
      WakeFirstCore(k, a);
      WakeKeeps(k, a, x);
      DrainKeeps(WakeFirst(k, a), a, x);
    }
  }

  lemma PAdvances(k: Kernel, a: int, x: int)
    requires Sound(k) && Enabled(k, SysP(a)) && IsPid(x) && k.place[x] == Ready
    ensures Within(Passeren(k, a), x, Pos(Get(k.q, Ready), x) - One(Reschedules(k, SysP(a))))
  {
    hide Placed, Linked, Rooted, Move, MoveTo, Count, Kill, Terminate, Sleep;
    Listed(k, x);
    if a == 0 {
      TerminateAdvances(k, x);
    } else if Val(k.sem, a) - 1 < 0 {
      SleepAdvances(k, a, x);
    }
  }

  lemma VAdvances(k: Kernel, a: int, x: int)
    requires Sound(k) && Enabled(k, SysV(a)) && IsPid(x) && k.place[x] == Ready
    ensures Within(Verhogen(k, a), x, Pos(Get(k.q, Ready), x) - One(Reschedules(k, SysV(a))))
  {
    hide Placed, Linked, Rooted, Move, MoveTo, Count, Kill, Terminate, WakeFirst;
    Listed(k, x);
    if a == 0 {
      TerminateAdvances(k, x);
    } else {
      WakeKeeps(AddTo(k, a, 1), a, x);
    }
  }

  lemma IoAdvances(k: Kernel, line: int, dev: int, a3: int, x: int)
    requires Sound(k) && Cur(k) != NULL && IsPid(x) && k.place[x] == Ready
    ensures Within(WaitIO(k, line, dev, a3), x, Pos(Get(k.q, Ready), x) - 1)
  {
    hide Core, Accounted, Kill, Terminate, Sleep, Within, Pos;
    if GoodDevice(line, dev, a3) {
      IoCellExists(k, line, dev, a3);
      SleepAdvances(k, IoAddress(line, dev, a3), x);
    } else {
      TerminateAdvances(k, x);
    }
  }

  /** While somebody is ready a process is running, so an interrupt returns to it. */
  lemma InterruptKeeps(k: Kernel, e: Event, x: int)
    requires Sound(k) && Enabled(k, e) && (e.ClockTick? || e.DeviceInt?) && IsPid(x) && k.place[x] == Ready
    ensures !Reschedules(k, e)
    ensures Within(Step(k, e), x, Pos(Get(k.q, Ready), x))
  {
    hide Placed, Linked, Rooted, Move, MoveTo, Count, WakeFirst, Drain, Named;
    Listed(k, x);
    match e
    case ClockTick =>
      DrainKeeps(k, SYS_TIMER, x);
      DrainExact(k, SYS_TIMER);
    case DeviceInt(line, dev, tran) =>
      var a := IoAddress(line, dev, 1 - tran);
      WakeKeeps(k, a, x);
      WakeFirstCore(k, a);
  }

  /** One event moves a ready process one place forward if it calls the scheduler, and never back. */
  lemma ReadyAdvances(k: Kernel, e: Event, x: int)
    requires Sound(k) && Enabled(k, e) && IsPid(x) && k.place[x] == Ready
    ensures Within(Step(k, e), x, Pos(Get(k.q, Ready), x) - One(Reschedules(k, e)))
  {
    hide Placed, Linked, Rooted, Count, Passeren, Verhogen, WaitIO, Create, Preempt, Terminate, Tick, DeviceDone;
    Listed(k, x);
    match e
    case SysCreate => CreateMoves(k, x);
    case SysTerminate => TerminateAdvances(k, x);
    case SysP(a) => PAdvances(k, a, x);
    case SysV(a) => VAdvances(k, a, x);
    case SysIO(line, dev, a3) => IoAdvances(k, line, dev, a3, x);
    case SysClock => IoCellExists(k, 3, 0, 0); SleepAdvances(k, SYS_TIMER, x);
    case SysOther =>
    case Timeslice => PreemptAdvances(k, x);
    case _ => InterruptKeeps(k, e, x);
  }

  lemma CreateMoves(k: Kernel, x: int)
    requires Inv(k) && Cur(k) != NULL && IsPid(x) && k.place[x] == Ready
    ensures Within(Create(k), x, Pos(Get(k.q, Ready), x))
  {
    hide Placed, Linked, Rooted, Move, MoveTo, Count, Named, Accounted;
    Listed(k, x);
    CreateInv(k);
    var free := Get(k.q, Free);
    if free != [] {
      Member(k, Free, free[0]);
      Moved(k, free[0], Ready);
      PosAppend(Get(k.q, Ready), x, [free[0]]);
    }
  }

  // ---------------------------------------------------------------- on a semaphore

  /** x was released or killed, or still waits on a with no more than n before it. */
  predicate WaitsWithin(k: Kernel, x: int, a: int, n: int) {
    0 <= x < |k.place| &&
    (k.place[x] == Ready || k.place[x] == Running || k.place[x] == Free ||
     (k.place[x] == Blocked(a) && x in Get(k.q, Blocked(a)) && Pos(Get(k.q, Blocked(a)), x) <= n))
  }

  lemma StillWaits(k: Kernel, x: int, a: int, n: int)
    requires Core(k) && x in Get(k.q, Blocked(a)) && Pos(Get(k.q, Blocked(a)), x) <= n
    ensures WaitsWithin(k, x, a, n)
  {
    Member(k, Blocked(a), x);
  }

  lemma TerminateAndWaiter(k: Kernel, x: int, a: int)
    requires Sound(k) && Cur(k) != NULL && IsPid(x) && k.place[x] == Blocked(a)
    ensures WaitsWithin(Terminate(k), x, a, Pos(Get(k.q, Blocked(a)), x))
  {
    hide Placed, Linked, Rooted, Move, Count, Named, Accounted, Kill;
    LoopIsExact(k);
    Listed(k, x);
    var k', dead := Kill(KillStart(k)), Descendants(k, Cur(k));
    DispatchInv(k');
    if x in dead {
      if Get(k'.q, Ready) != [] {
        Member(k', Ready, Get(k'.q, Ready)[0]);
      }
    } else {
      PosKeep(Get(k.q, Blocked(a)), x, dead);
      StillWaits(Terminate(k), x, a, Pos(Get(k.q, Blocked(a)), x));
    }
  }

  lemma SleepAndWaiter(k: Kernel, b: int, x: int, a: int)
    requires Sound(k) && Cur(k) != NULL && IsSemAddress(b) && b in k.sem && (IsDevSem(b) || k.sem[b] <= 0)
    requires IsPid(x) && k.place[x] == Blocked(a)
    ensures WaitsWithin(Sleep(k, b), x, a, Pos(Get(k.q, Blocked(a)), x))
  {
    hide Placed, Linked, Rooted, Move, MoveTo, Count, Named, Accounted;
    DescriptorsSuffice(k, b);
    BlockOnInv(k, b);
    Member(k, Running, Cur(k));
    Moved(k, Cur(k), Blocked(b));
    Listed(k, x);
    DispatchInv(BlockOn(k, b));
    PosAppend(Get(k.q, Blocked(a)), x, [Cur(k)]);
    StillWaits(Sleep(k, b), x, a, Pos(Get(k.q, Blocked(a)), x));
  }

  lemma FirstIsReady(k: Kernel, a: int)
    requires Core(k) && Get(k.q, Blocked(a)) != []
    ensures var x := Get(k.q, Blocked(a))[0];
      IsPid(x) && |WakeFirst(k, a).place| == MAXPROC && WakeFirst(k, a).place[x] == Ready
  {
    hide Placed, Linked, Rooted, Move, Count, Named;
    Member(k, Blocked(a), Get(k.q, Blocked(a))[0]);
  }

  lemma VAndWaiter(k: Kernel, b: int, x: int, a: int)
    requires Sound(k) && Enabled(k, SysV(b)) && b != 0 && !IsDevSem(a)
    requires IsPid(x) && k.place[x] == Blocked(a)
    ensures WaitsWithin(Verhogen(k, b), x, a, Pos(Get(k.q, Blocked(a)), x) - One(b == a))
  {
    hide Placed, Linked, Rooted, Count, WakeFirst;
    Listed(k, x);
    var k1 := AddTo(k, b, 1);
    WakeFirstCore(k1, b);
    var waiting := Get(k.q, Blocked(b));
    if b == a && x == waiting[0] {
      FirstIsReady(k1, b);
    } else {
      StillWaits(Verhogen(k, b), x, a, Pos(Get(k.q, Blocked(a)), x) - One(b == a));
    }
  }

  lemma InterruptAndWaiter(k: Kernel, e: Event, x: int, a: int)
    requires Sound(k) && Enabled(k, e) && (e.ClockTick? || e.DeviceInt? || e.Timeslice? || e.SysCreate?)
    requires IsPid(x) && k.place[x] == Blocked(a) && !IsDevSem(a)
    ensures WaitsWithin(Step(k, e), x, a, Pos(Get(k.q, Blocked(a)), x))
  {
    hide Placed, Linked, Rooted, Count, Named, Accounted, Preempt, Create, Tick, DeviceDone, Get;
    Listed(k, x);
    StepSound(k, e);
    match e {
      case SysCreate => CreateInv(k);
      case Timeslice => PreemptLists(k, Blocked(a));
      case ClockTick => IoCellExists(k, 3, 0, 0); TickExact(k);
      case DeviceInt(line, dev, tran) => IoCellExists(k, line, dev, 1 - tran); DeviceExact(k, line, dev, tran);
    }
    assert Get(Step(k, e).q, Blocked(a)) == Get(k.q, Blocked(a));
    StillWaits(Step(k, e), x, a, Pos(Get(k.q, Blocked(a)), x));
  }

  lemma PreemptLists(k: Kernel, pl: Place)
    requires Sound(k) && Cur(k) != NULL && pl.Blocked?
    ensures Get(Preempt(k).q, pl) == Get(k.q, pl)
  {
    hide Placed, Linked, Rooted, Move, Count;
    Member(k, Running, Cur(k));
    Moved(k, Cur(k), Ready);
    var k1 := MoveTo(k, Cur(k), Ready);
    var ready := Get(k1.q, Ready);
    Member(k1, Ready, ready[0]);
    Moved(k1, ready[0], Running);
  }

  /** A V on a moves a waiter of a one place forward, and nothing moves it back. */
  lemma WaiterAdvances(k: Kernel, e: Event, x: int, a: int)
    requires Sound(k) && Enabled(k, e) && IsPid(x) && k.place[x] == Blocked(a) && !IsDevSem(a)
    ensures WaitsWithin(Step(k, e), x, a, Pos(Get(k.q, Blocked(a)), x) - One(e == SysV(a)))
  {
    hide Placed, Linked, Rooted, Count, Accounted, Create, Preempt, Terminate, Tick, DeviceDone, Sleep, WakeFirst;
    Listed(k, x);
    AddressOfWaiter(k, x, a);
    match e {
      case SysTerminate => TerminateAndWaiter(k, x, a);
      case SysP(b) =>
        if b == 0 {
          TerminateAndWaiter(k, x, a);
        } else if Val(k.sem, b) - 1 < 0 {
          SleepAndWaiter(k, b, x, a);
        }
      case SysV(b) =>
        if b == 0 {
          TerminateAndWaiter(k, x, a);
        } else {
          VAndWaiter(k, b, x, a);
        }
      case SysIO(line, dev, a3) =>
        if GoodDevice(line, dev, a3) {
          IoCellExists(k, line, dev, a3);
          SleepAndWaiter(k, IoAddress(line, dev, a3), x, a);
        } else {
          TerminateAndWaiter(k, x, a);
        }
      case SysClock => IoCellExists(k, 3, 0, 0); SleepAndWaiter(k, SYS_TIMER, x, a);
      case SysOther =>
      case _ => InterruptAndWaiter(k, e, x, a);
    }
  }

  lemma AddressOfWaiter(k: Kernel, x: int, a: int)
    requires Core(k) && IsPid(x) && k.place[x] == Blocked(a)
    ensures a > 0
  {
    Listed(k, x);
  }

  // ---------------------------------------------------------------- over runs

  /** At some state of the run, the last one included, the place of x satisfies p. */
  ghost predicate Sometime(k: Kernel, es: seq<Event>, x: int, p: Place -> bool)
    requires Sound(k) && Legal(k, es) && IsPid(x)
    decreases |es|
  {
    p(k.place[x]) || (es != [] && (StepSound(k, es[0]); Sometime(Step(k, es[0]), es[1..], x, p)))
  }

  predicate RunsOrIsGone(pl: Place) {
    pl.Running? || pl.Free?
  }

  predicate IsNotBlocked(pl: Place) {
    !pl.Blocked?
  }

  ghost function SchedulerCalls(k: Kernel, es: seq<Event>): nat
    requires Sound(k) && Legal(k, es)
    decreases |es|
  {
    if es == [] then 0
    else
      StepSound(k, es[0]);
      One(Reschedules(k, es[0])) + SchedulerCalls(Step(k, es[0]), es[1..])
  }

  function VCalls(es: seq<Event>, a: int): nat {
    if es == [] then 0 else One(es[0] == SysV(a)) + VCalls(es[1..], a)
  }

  /**
    Whatever the events, a ready process with n before it has run, or was killed, by the time the
    scheduler has been called n + 1 times.
   */
  lemma {:induction false} ReadyIsServed(k: Kernel, es: seq<Event>, x: int)
    requires Sound(k) && Legal(k, es) && IsPid(x) && k.place[x] == Ready
    requires SchedulerCalls(k, es) > Pos(Get(k.q, Ready), x)
    ensures Sometime(k, es, x, RunsOrIsGone)
    decreases |es|
  {
    hide Core, Step, Enabled, Reschedules, Decided;
    var k' := Step(k, es[0]);
    StepSound(k, es[0]);
    StaysSized(k');
    ReadyAdvances(k, es[0], x);
    if k'.place[x] == Ready {
      ReadyIsServed(k', es[1..], x);
    } else {
      assert Sometime(k', es[1..], x, RunsOrIsGone);
    }
  }

  /**
    A process with n before it on a semaphore of the processes has been released, or was killed, by
    the time the semaphore has seen n + 1 V operations.
   */
  lemma {:induction false} WaiterIsServed(k: Kernel, es: seq<Event>, x: int, a: int)
    requires Sound(k) && Legal(k, es) && IsPid(x) && k.place[x] == Blocked(a) && !IsDevSem(a)
    requires VCalls(es, a) > Pos(Get(k.q, Blocked(a)), x)
    ensures Sometime(k, es, x, IsNotBlocked)
    decreases |es|
  {
    hide Core, Step, Enabled, Decided;
    var k' := Step(k, es[0]);
    StepSound(k, es[0]);
    StaysSized(k');
    WaiterAdvances(k, es[0], x, a);
    if k'.place[x] == Blocked(a) {
      WaiterIsServed(k', es[1..], x, a);
    } else {
      assert Sometime(k', es[1..], x, IsNotBlocked);
    }
  }

  lemma StaysSized(k: Kernel)
    requires Sound(k)
    ensures |k.place| == MAXPROC
  {}
}
