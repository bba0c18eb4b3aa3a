/**
  A semaphore that starts at 1 excludes: whatever the processes do otherwise, at most one of them is between
  its P and its V. This is what the pager builds on with swap_pool_sem and with the mutexes of the devices.
 */
module KernelMutex {
  import opened Layout
  import opened Places
  import opened KernelModel
  import opened KernelKill
  import opened KernelSteps
  import opened KernelRuns
  import opened KernelTheorems
  import opened KernelEffects
  import opened KernelDevices

  /**
    Who is past a P on the semaphore and not past the V, once the event has happened: a P that does not block
    lets its caller in, a V lets its caller out and the first waiter in, and the terminated are in no more.
   */
  ghost function Inside(k: Kernel, e: Event, mutex: int, inside: set<int>): set<int>
    requires Sound(k)
  {
    if Ends(e) then inside - Descendants(k, Cur(k))
    else if e == SysP(mutex) && Val(k.sem, mutex) - 1 >= 0 then inside + {Cur(k)}
    else if e == SysV(mutex) then
      if Get(k.q, Blocked(mutex)) == [] then inside - {Cur(k)}
      else inside - {Cur(k)} + {Get(k.q, Blocked(mutex))[0]}
    else inside
  }

  /** Only somebody who is inside performs a V. */
  predicate Proper(k: Kernel, e: Event, mutex: int, inside: set<int>) {
    e == SysV(mutex) ==> Cur(k) in inside
  }

  /** Whoever is inside has taken the one unit. */
  ghost predicate Exclusive(k: Kernel, mutex: int, inside: set<int>) {
    && !IsDevSem(mutex) && IsSemAddress(mutex) && mutex in k.sem && k.sem[mutex] <= 1
    && (forall x, y :: x in inside && y in inside ==> x == y)
    && (inside != {} ==> k.sem[mutex] <= 0)
  }

  /** No event but P, V and a termination changes a semaphore of the processes. */
  lemma OtherCells(k: Kernel, e: Event, mutex: int)
    requires Sound(k) && Enabled(k, e) && !Ends(e) && e != SysP(mutex) && e != SysV(mutex)
    requires !IsDevSem(mutex) && mutex in k.sem
    ensures mutex in Step(k, e).sem && Step(k, e).sem[mutex] == k.sem[mutex]
  {
    hide Core, Accounted, Sleep, Terminate, Create, Preempt, Tick, DeviceDone, WakeFirst;
    IoCellExists(k, 3, 0, 0);
    match e
    case SysCreate => CreateCells(k);
    case SysP(b) =>
      if Val(k.sem, b) - 1 < 0 {
        SleepLists(k, b);
      }
    case SysV(b) => VLists(k, b);
    case SysIO(line, dev, a3) =>
      IoCellExists(k, line, dev, a3);
      SleepLists(k, IoAddress(line, dev, a3));
    case SysClock => SleepLists(k, SYS_TIMER);
    case SysOther =>
    case Timeslice => PreemptAwake(k);
    case ClockTick => TickExact(k);
    case DeviceInt(line, dev, tran) =>
      IoCellExists(k, line, dev, 1 - tran);
      DeviceLists(k, e);
    case _ =>
  }

  lemma EndExclusive(k: Kernel, e: Event, mutex: int, inside: set<int>)
    requires Sound(k) && Enabled(k, e) && Exclusive(k, mutex, inside) && Ends(e)
    ensures Exclusive(Step(k, e), mutex, Inside(k, e, mutex, inside))
  {
    hide Core, Accounted, Kill, Terminate, Descendants;
    assert Step(k, e) == Terminate(k);
    TerminateLists(k);
    MutexStaysTaken(k, Descendants(k, Cur(k)), mutex);
  }

  lemma VExclusive(k: Kernel, mutex: int, inside: set<int>)
    requires Sound(k) && Enabled(k, SysV(mutex)) && Exclusive(k, mutex, inside) && Cur(k) in inside
    ensures Exclusive(Step(k, SysV(mutex)), mutex, Inside(k, SysV(mutex), mutex, inside))
  {
    hide Core, Verhogen;
    VLists(k, mutex);
    assert |Get(k.q, Blocked(mutex))| == if k.sem[mutex] < 0 then -k.sem[mutex] else 0;
    forall x | x in inside ensures x == Cur(k) {
      assert x in inside && Cur(k) in inside;
    }
    assert inside == {Cur(k)};
  }

  lemma StepExclusive(k: Kernel, e: Event, mutex: int, inside: set<int>)
    requires Sound(k) && Enabled(k, e) && Exclusive(k, mutex, inside) && Proper(k, e, mutex, inside)
    ensures Exclusive(Step(k, e), mutex, Inside(k, e, mutex, inside))
  {
    hide Core, Sleep, Terminate, WakeFirst, Create, Preempt, Tick, DeviceDone;
    if Ends(e) {
      EndExclusive(k, e, mutex, inside);
    } else if e == SysP(mutex) {
      if Val(k.sem, mutex) - 1 < 0 {
        SleepLists(k, mutex);
      }
    } else if e == SysV(mutex) {
      VExclusive(k, mutex, inside);
    } else {
      OtherCells(k, e, mutex);
    }
  }

  // ---------------------------------------------------------------- runs

  ghost predicate ProperAll(k: Kernel, es: seq<Event>, mutex: int, inside: set<int>)
    requires Sound(k) && Legal(k, es)
    decreases |es|
  {
    es == [] ||
    (Proper(k, es[0], mutex, inside) &&
     (StepSound(k, es[0]); ProperAll(Step(k, es[0]), es[1..], mutex, Inside(k, es[0], mutex, inside))))
  }

  ghost function InsideAfter(k: Kernel, es: seq<Event>, mutex: int, inside: set<int>): set<int>
    requires Sound(k) && Legal(k, es)
    decreases |es|
  {
    if es == [] then inside
    else
      StepSound(k, es[0]);
      InsideAfter(Step(k, es[0]), es[1..], mutex, Inside(k, es[0], mutex, inside))
  }

  lemma {:induction false} RunExclusive(k: Kernel, es: seq<Event>, mutex: int, inside: set<int>)
    requires Sound(k) && Legal(k, es) && ProperAll(k, es, mutex, inside) && Exclusive(k, mutex, inside)
    ensures Exclusive(Run(k, es), mutex, InsideAfter(k, es, mutex, inside))
    decreases |es|
  {
    hide Sound, Enabled, Step, Exclusive, Proper, Inside;
    if es != [] {
      StepSound(k, es[0]);
      StepExclusive(k, es[0], mutex, inside);
      RunExclusive(Step(k, es[0]), es[1..], mutex, Inside(k, es[0], mutex, inside));
    }
  }

  /** From any state of a run in which the semaphore is 1, at most one process is between its P and its V on it. */
  lemma MutualExclusion(k: Kernel, es: seq<Event>, mutex: int, x: int, y: int)
    requires Sound(k) && Legal(k, es) && ProperAll(k, es, mutex, {})
    requires !IsDevSem(mutex) && IsSemAddress(mutex) && mutex in k.sem && k.sem[mutex] == 1
    requires x in InsideAfter(k, es, mutex, {}) && y in InsideAfter(k, es, mutex, {})
    ensures x == y && mutex in Run(k, es).sem && Run(k, es).sem[mutex] <= 0
  {
    hide Sound, Legal, ProperAll, Run, InsideAfter;
    RunExclusive(k, es, mutex, {});
  }
}
