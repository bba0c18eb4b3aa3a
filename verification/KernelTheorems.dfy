/** The results about all runs of the nucleus, from boot on. */
module KernelTheorems {
  import opened Seqs
  import opened Layout
  import opened Places
  import opened KernelModel
  import opened KernelSafety
  import opened KernelKill
  import opened KernelSteps
  import opened KernelRuns

  // ---------------------------------------------------------------- runs

  /** initKer, before the first call of the scheduler: the last PCB of the table is the boot process. */
  function Booted(sem: map<int, int>): Kernel {
    var free := seq(MAXPROC - 1, i => MAXPROC - 2 - i);
    Kernel(
      Put(map[Ready := [MAXPROC - 1]], Free, free),
      seq(MAXPROC, i => if i == MAXPROC - 1 then Ready else Free),
      Nulls(), Kidless(), Zeros(), 1, MAXPROC - 1,
      sem, 1, 0, Executing)
  }

  function Boot(sem: map<int, int>): Kernel {
    Dispatch(Booted(sem))
  }

  /** The memory the kernel starts from: the device cells exist and no other semaphore is negative. */
  ghost predicate Startable(sem: map<int, int>) {
    && SYS_TIMER in sem
    && (forall row, col :: 0 <= row < 6 && 0 <= col < 8 ==> SemMat(row, col) in sem)
    && (forall a :: a in sem && !IsDevSem(a) ==> sem[a] >= 0)
  }

  lemma BootedLists(sem: map<int, int>)
    ensures var k := Booted(sem);
      && Placed(k.q, k.place) && Quiet(k)
      && Get(k.q, Ready) == [MAXPROC - 1] && |Get(k.q, Free)| == MAXPROC - 1
      && forall pl: Place :: pl.Running? || pl.Dying? || pl.Blocked? ==> Get(k.q, pl) == []
  {
    hide Count;
    var k := Booted(sem);
    var free := Get(k.q, Free);
    assert free == seq(MAXPROC - 1, i => MAXPROC - 2 - i);
    forall pl ensures Lists(Get(k.q, pl), k.place, pl) {
      if pl == Free {
        forall x | 0 <= x < MAXPROC && k.place[x] == Free ensures x in free {
          assert free[MAXPROC - 2 - x] == x;
        }
      }
    }
  }

  lemma BootedInv(sem: map<int, int>)
    requires Startable(sem)
    ensures Inv(Booted(sem)) && Quiet(Booted(sem)) && Cur(Booted(sem)) == NULL
  {
    hide Placed, Put;
    BootedLists(sem);
    CountZero(Booted(sem).place, OnDevice);
  }

  lemma BootSound(sem: map<int, int>)
    requires Startable(sem)
    ensures Sound(Boot(sem))
  {
    BootedInv(sem);
    DispatchSound(Booted(sem));
  }

  /** At the start the last PCB runs, the only process, and the others are free, the one before it first. */
  lemma BootState(sem: map<int, int>)
    requires Startable(sem)
    ensures var k := Boot(sem);
      && Get(k.q, Running) == [MAXPROC - 1]
      && (forall pl: Place :: !pl.Running? && !pl.Free? ==> Get(k.q, pl) == [])
      && |Get(k.q, Free)| == MAXPROC - 1
      && (forall i :: 0 <= i < MAXPROC - 1 ==> Get(k.q, Free)[i] == MAXPROC - 2 - i)
      && |k.parent| == |k.kids| == MAXPROC && (forall x :: IsPid(x) ==> k.parent[x] == NULL && k.kids[x] == [])
      && k.sem == sem && k.count == 1 && k.sb == 0 && k.status == Executing && k.root == MAXPROC - 1
  {
    hide Placed, Move, Count;
    BootedInv(sem);
    BootedLists(sem);
    DispatchInv(Booted(sem));
    DispatchCells(Booted(sem));
    assert Get(Booted(sem).q, Free) == seq(MAXPROC - 1, i => MAXPROC - 2 - i);
  }

  ghost predicate Legal(k: Kernel, es: seq<Event>)
    requires Sound(k)
    decreases |es|
  {
    es == [] || (Enabled(k, es[0]) && (StepSound(k, es[0]); Legal(Step(k, es[0]), es[1..])))
  }

  /** The state after the events, every one of which was enabled when it came. */
  ghost function Run(k: Kernel, es: seq<Event>): (r: Kernel)
    requires Sound(k) && Legal(k, es)
    ensures Sound(r)
    decreases |es|
  {
    if es == [] then k
    else
      StepSound(k, es[0]);
      Run(Step(k, es[0]), es[1..])
  }

  /**
    In every state of every run from boot: each PCB is at one place and its list shows it; the
    counters count; every semaphore of the processes has max(0, -value) waiters; nobody is half dead;
    and insertBlocked never fails.
   */
  lemma EveryRun(sem: map<int, int>, es: seq<Event>)
    requires Startable(sem) && (BootSound(sem); Legal(Boot(sem), es))
    ensures var k := Run(Boot(sem), es);
      && (forall pl :: Lists(Get(k.q, pl), k.place, pl))
      && k.count == MAXPROC - |Get(k.q, Free)|
      && k.sb == Count(k.place, OnDevice)
      && (forall a :: a in k.sem && !IsDevSem(a) ==>
            |Get(k.q, Blocked(a))| == if k.sem[a] < 0 then -k.sem[a] else 0)
      && (forall x :: IsPid(x) ==> !k.place[x].Doomed? && !k.place[x].Dying?)
      && k.status != OutOfDescriptors
  {
    hide Boot;
    BootSound(sem);
    var k := Run(Boot(sem), es);
    forall x | IsPid(x) ensures !k.place[x].Doomed? && !k.place[x].Dying? {
      Listed(k, x);
    }
  }

  // ---------------------------------------------------------------- the tree

  /** The living are one tree: exactly they descend from the root, which is alive while anybody is. */
  lemma {:induction false} OneTree(k: Kernel, x: int)
    requires Sound(k) && IsPid(x)
    ensures !k.place[x].Free? ==> IsPid(k.root) && !k.place[k.root].Free? && Under(k, k.root, x)
    ensures k.place[x].Free? && x != k.root ==> !Under(k, k.root, x)
    decreases k.birth[x]
  {
    Listed(k, x);
    if k.place[x].Free? {
      FreeIsOrphan(k, x);
    } else if k.parent[x] != NULL {
      OneTree(k, k.parent[x]);
    }
  }

  /** A termination leaves the root the root. */
  lemma TerminateRoot(k: Kernel)
    requires Inv(k) && Quiet(k) && Cur(k) != NULL
    ensures Terminate(k).root == k.root
  {
    hide Inv, Quiet, Kill, KillStart;
    LoopIsExact(k);
  }

  /** No elementary step changes who the root is. */
  lemma SameRoot(k: Kernel, a: int)
    ensures Dispatch(k).root == k.root && Sleep(k, a).root == k.root && WakeFirst(k, a).root == k.root
    ensures Create(k).root == k.root && Preempt(k).root == k.root
  {
    hide Move, NoDescriptor, Get;
  }

  lemma ResumeRoot(k: Kernel)
    ensures Resume(k).root == k.root
  {
    hide Dispatch;
    SameRoot(k, 0);
  }

  lemma DeviceRoot(k: Kernel, line: int, dev: int, tran: int)
    ensures DeviceDone(k, line, dev, tran).root == k.root
  {
    hide WakeFirst, Resume;
    var a := IoAddress(line, dev, 1 - tran);
    SameRoot(k, a);
    ResumeRoot(AddTo(WakeFirst(k, a), a, 1));
  }

  lemma TickRoot(k: Kernel)
    requires Core(k)
    ensures Tick(k).root == k.root
  {
    hide Core, Drain, Resume;
    DrainExact(k, SYS_TIMER);
    var k1 := Drain(k, SYS_TIMER);
    ResumeRoot(k1.(sem := k1.sem[SYS_TIMER := 0]));
  }

  /** No event changes who the root is. */
  lemma StepRoot(k: Kernel, e: Event)
    requires Sound(k) && Enabled(k, e)
    ensures Step(k, e).root == k.root
  {
    hide Core, Accounted, Terminate, Dispatch, Sleep, WakeFirst, Create, Preempt, Tick, DeviceDone, Get, MoveTo;
    match e
    case SysTerminate => TerminateRoot(k);
    case SysP(a) => if a == 0 { TerminateRoot(k); } else { SameRoot(k, a); }
    case SysV(a) => if a == 0 { TerminateRoot(k); } else { SameRoot(AddTo(k, a, 1), a); }
    case SysIO(line, dev, a3) =>
      if GoodDevice(line, dev, a3) { SameRoot(k, IoAddress(line, dev, a3)); } else { TerminateRoot(k); }
    case ClockTick => TickRoot(k);
    case DeviceInt(line, dev, tran) => DeviceRoot(k, line, dev, tran);
    case _ => SameRoot(k, SYS_TIMER);
  }

  lemma {:induction false} RunRoot(k: Kernel, es: seq<Event>)
    requires Sound(k) && Legal(k, es)
    ensures Run(k, es).root == k.root
    decreases |es|
  {
    hide Sound, Enabled, Step;
    if es != [] {
      StepSound(k, es[0]);
      StepRoot(k, es[0]);
      RunRoot(Step(k, es[0]), es[1..]);
    }
  }

  lemma BootRoot(sem: map<int, int>)
    ensures Boot(sem).root == MAXPROC - 1
  {
    hide Get;
  }

  /** In every run from boot the living are the boot process, while anybody lives, and its descendants. */
  lemma LivingDescendFromBoot(sem: map<int, int>, es: seq<Event>, x: int)
    requires Startable(sem) && (BootSound(sem); Legal(Boot(sem), es)) && IsPid(x) && x != MAXPROC - 1
    ensures var k := Run(Boot(sem), es);
      && (!k.place[x].Free? <==> Under(k, MAXPROC - 1, x))
      && (!k.place[x].Free? ==> !k.place[MAXPROC - 1].Free?)
  {
    hide Run, Legal, Boot, Sound, Under;
    BootSound(sem);
    BootRoot(sem);
    RunRoot(Boot(sem), es);
    OneTree(Run(Boot(sem), es), x);
  }

  /** A cell of the processes without waiters may be set to any value that is not negative. */
  lemma CellSound(k: Kernel, a: int, value: int)
    requires Sound(k) && !IsDevSem(a) && Get(k.q, Blocked(a)) == [] && value >= 0
    ensures Sound(k.(sem := k.sem[a := value]))
  {
    hide Placed, Linked, Rooted, Counted;
  }

  /** When the boot process terminates, nobody is left and the scheduler halts the machine. */
  lemma RootEndsEverything(k: Kernel)
    requires Sound(k) && Enabled(k, SysTerminate) && Cur(k) == k.root
    ensures Sound(Step(k, SysTerminate))
    ensures Step(k, SysTerminate).status == Halted && Step(k, SysTerminate).count == 0
    ensures forall x :: IsPid(x) ==> Step(k, SysTerminate).place[x].Free?
  {
    hide Placed, Linked, Rooted, Count, Dispatch, Kill, Move, MoveTo;
    TerminateSound(k);
    LoopIsExact(k);
    KillStartInv(k);
    var k' := Kill(KillStart(k));
    forall x | IsPid(x) ensures k'.place[x].Free? {
      if !k.place[x].Free? {
        OneTree(k, x);
      }
    }
    VerdictIsExact(k');
    AllFreeCount(k');
    HaltKeeps(k');
  }

  lemma HaltKeeps(k: Kernel)
    requires Get(k.q, Ready) == []
    ensures Dispatch(k).place == k.place && Dispatch(k).count == k.count
  {}

  lemma AllFreeCount(k: Kernel)
    requires Inv(k) && forall x :: IsPid(x) ==> k.place[x].Free?
    ensures k.count == 0 && Get(k.q, Ready) == []
  {
    FreeInRange(k);
    Pigeonhole(Get(k.q, Free), MAXPROC);
    forall x | 0 <= x < MAXPROC ensures x in Get(k.q, Free) {
      Listed(k, x);
    }
    if Get(k.q, Ready) != [] {
      Member(k, Ready, Get(k.q, Ready)[0]);
      assert false;
    }
  }

  // ---------------------------------------------------------------- the scheduler's verdict

  /**
    The scheduler, called with no current process, runs somebody iff somebody is ready; it halts iff
    nobody is alive; it waits iff nobody is ready but somebody sleeps on a device; and it panics iff
    somebody is alive and all the living sleep on semaphores that are not a device's.
   */
  lemma VerdictIsExact(k: Kernel)
    requires Inv(k) && Quiet(k) && Cur(k) == NULL
    ensures Dispatch(k).status == Executing <==> exists x :: IsPid(x) && k.place[x] == Ready
    ensures Dispatch(k).status == Halted <==> forall x :: IsPid(x) ==> k.place[x] == Free
    ensures Dispatch(k).status == Waiting <==>
      && (forall x :: IsPid(x) ==> k.place[x] != Ready)
      && (exists x :: IsPid(x) && OnDevice(k.place[x]))
    ensures Dispatch(k).status == Deadlocked <==>
      && (exists x :: IsPid(x) && k.place[x] != Free)
      && (forall x :: IsPid(x) && k.place[x] != Free ==> k.place[x].Blocked? && !IsDevSem(k.place[x].address))
  {
    hide Placed, Linked, Rooted, Count, Move;
    forall x | IsPid(x) ensures x in Get(k.q, k.place[x]) {
      Listed(k, x);
    }
    if Get(k.q, Ready) != [] {
      Member(k, Ready, Get(k.q, Ready)[0]);
    }
    FreeInRange(k);
    Pigeonhole(Get(k.q, Free), MAXPROC);
    if k.count == 0 {
      forall x | IsPid(x) ensures k.place[x] == Free {
        assert 0 <= x < MAXPROC;
        Member(k, Free, x);
      }
    } else if forall x :: IsPid(x) ==> k.place[x] == Free {
      AllFreeCount(k);
      assert false;
    }
    CountZero(k.place, OnDevice);
    CountIsNat(k);
  }

  /** From the panic no interrupt could have rescued anybody: no device semaphore has a waiter. */
  lemma DeadlockIsFinal(k: Kernel, a: int)
    requires Sound(k) && k.status == Deadlocked && IsDevSem(a)
    ensures WakeFirst(k, a) == k && Drain(k, a) == k
  {
    hide Placed, Linked, Rooted, Move, MoveTo;
    CountZero(k.place, OnDevice);
    if Get(k.q, Blocked(a)) != [] {
      Member(k, Blocked(a), Get(k.q, Blocked(a))[0]);
      assert false;
    }
  }

  // ---------------------------------------------------------------- interrupts

  /** What the scheduler, if it is called, makes of a ready queue r. */
  ghost predicate Resumed(k: Kernel, k': Kernel, r: seq<int>) {
    if Cur(k) != NULL then Get(k'.q, Running) == Get(k.q, Running) && Get(k'.q, Ready) == r
    else if r == [] then Get(k'.q, Running) == [] && Get(k'.q, Ready) == []
    else Get(k'.q, Running) == [r[0]] && Get(k'.q, Ready) == r[1..]
  }

  lemma ResumeExact(k: Kernel)
    requires Inv(k)
    ensures var k' := Resume(k);
      && Resumed(k, k', Get(k.q, Ready))
      && k'.sem == k.sem && k'.sb == k.sb
      && (forall pl :: pl != Ready && pl != Running ==> Get(k'.q, pl) == Get(k.q, pl))
  {
    if Cur(k) == NULL {
      DispatchInv(k);
      DispatchCells(k);
    }
  }

  lemma DispatchCells(k: Kernel)
    ensures Dispatch(k).sem == k.sem && Dispatch(k).sb == k.sb
  {}

  /**
    The clock tick drains: all who slept on the timer join the tail of the ready queue in the order
    they fell asleep, the device count drops by their number, the timer's semaphore becomes 0 without
    waiters, and no other list changes.
   */
  lemma TickExact(k: Kernel)
    requires Sound(k) && (k.status == Executing || k.status == Waiting)
    ensures var k' := Tick(k); var waiting := Get(k.q, Blocked(SYS_TIMER));
      && Get(k'.q, Blocked(SYS_TIMER)) == []
      && k'.sem == k.sem[SYS_TIMER := 0]
      && k'.sb == k.sb - |waiting|
      && Resumed(k, k', Get(k.q, Ready) + waiting)
      && (forall pl :: pl != Ready && pl != Running && pl != Blocked(SYS_TIMER) ==> Get(k'.q, pl) == Get(k.q, pl))
  {
    hide Move, MoveTo, Placed, Linked, Rooted, Count, Dispatch;
    DrainExact(k, SYS_TIMER);
    var k1 := Drain(k, SYS_TIMER);
    ResumeExact(k1.(sem := k1.sem[SYS_TIMER := 0]));
  }

  /**
    A device interrupt wakes the first process that sleeps on the semaphore SYS5 chose for the same
    device, or nobody, and the semaphore goes up by one in either case.
   */
  lemma DeviceExact(k: Kernel, line: int, dev: int, tran: int)
    requires Sound(k) && (k.status == Executing || k.status == Waiting) && GoodDevice(line, dev, tran)
    ensures var k' := DeviceDone(k, line, dev, tran); var a := IoAddress(line, dev, 1 - tran);
      && a in k.sem && k'.sem == k.sem[a := k.sem[a] + 1]
      && (if Get(k.q, Blocked(a)) == [] then
            k'.sb == k.sb && Get(k'.q, Blocked(a)) == [] && Resumed(k, k', Get(k.q, Ready))
          else
            && k'.sb == k.sb - 1
            && Get(k'.q, Blocked(a)) == Get(k.q, Blocked(a))[1..]
            && Resumed(k, k', Get(k.q, Ready) + [Get(k.q, Blocked(a))[0]]))
      && (forall pl :: pl != Ready && pl != Running && pl != Blocked(a) ==> Get(k'.q, pl) == Get(k.q, pl))
  {
    hide Move, MoveTo, Placed, Linked, Rooted, Count, Dispatch;
    var a := IoAddress(line, dev, 1 - tran);
    IoCellExists(k, line, dev, 1 - tran);
    WakeFirstCore(k, a);
    ResumeExact(AddTo(WakeFirst(k, a), a, 1));
  }

  /** A V that leaves the semaphore of a process at 0 or below finds a waiter and wakes the first. */
  lemma VFindsWaiter(k: Kernel, a: int)
    requires Sound(k) && Enabled(k, SysV(a)) && a != 0 && !IsDevSem(a)
    ensures k.sem[a] + 1 <= 0 <==> Get(k.q, Blocked(a)) != []
    ensures var k' := Step(k, SysV(a)); var waiting := Get(k.q, Blocked(a));
      && k'.sem == k.sem[a := k.sem[a] + 1] && k'.sb == k.sb && Cur(k') == Cur(k)
      && (waiting != [] ==>
            && Get(k'.q, Blocked(a)) == waiting[1..]
            && Get(k'.q, Ready) == Get(k.q, Ready) + [waiting[0]])
      && (waiting == [] ==> k'.q == k.q)
  {
    hide Move, MoveTo, Placed, Linked, Rooted, Count;
    WakeFirstCore(AddTo(k, a, 1), a);
  }
}
