/** What every run of the nucleus keeps. */
module KernelRuns {
  import opened Seqs
  import opened Layout
  import opened Places
  import opened KernelModel
  import opened KernelSafety
  import opened KernelKill
  import opened KernelSteps

  // ---------------------------------------------------------------- descriptors never run out

  /** One waiter for each of some semaphores: as many different processes as there are semaphores. */
  lemma {:induction false} FirstWaiters(k: Kernel, places: set<Place>) returns (waiters: seq<int>)
    requires Core(k) && forall pl :: pl in places ==> pl.Blocked? && pl in k.q
    ensures Distinct(waiters) && |waiters| == |places|
    ensures forall i :: 0 <= i < |waiters| ==> IsPid(waiters[i]) && k.place[waiters[i]] in places
  {
    if places == {} {
      waiters := [];
    } else {
      var pl :| pl in places;
      var rest := FirstWaiters(k, places - {pl});
      assert Get(k.q, pl) == k.q[pl] && k.q[pl][0] in k.q[pl];
      Member(k, pl, k.q[pl][0]);
      waiters := [k.q[pl][0]] + rest;
    }
  }

  /** While a process runs, at most MAXPROC - 1 semaphores have waiters: insertBlocked finds a descriptor. */
  lemma DescriptorsSuffice(k: Kernel, a: int)
    requires Core(k) && Cur(k) != NULL
    ensures |BlockedPlaces(k.q)| < MAXPROC
    ensures !NoDescriptor(k, a)
  {
    var waiters := FirstWaiters(k, BlockedPlaces(k.q));
    Member(k, Running, Cur(k));
    Pigeonhole(waiters + [Cur(k)], MAXPROC);
  }

  // ---------------------------------------------------------------- every step keeps Sound

  lemma DispatchSound(k: Kernel)
    requires Inv(k) && Quiet(k) && Cur(k) == NULL
    ensures Sound(Dispatch(k))
  {
    DispatchInv(k);
    DispatchStatus(k);
  }

  lemma DispatchStatus(k: Kernel)
    requires Inv(k) && Cur(k) == NULL
    ensures Decided(Dispatch(k))
  {
    hide Move, Placed, Linked, Rooted, Count;
    DispatchInv(k);
    Pigeonhole(Get(k.q, Free), MAXPROC) by {
      FreeInRange(k);
    }
    CountIsNat(k);
  }

  lemma FreeInRange(k: Kernel)
    requires Core(k)
    ensures Distinct(Get(k.q, Free)) && forall i :: 0 <= i < |Get(k.q, Free)| ==> IsPid(Get(k.q, Free)[i])
  {
    assert Lists(Get(k.q, Free), k.place, Free);
    forall i | 0 <= i < |Get(k.q, Free)| ensures IsPid(Get(k.q, Free)[i]) {
      Member(k, Free, Get(k.q, Free)[i]);
    }
  }

  lemma CountIsNat(k: Kernel)
    requires Core(k)
    ensures k.sb >= 0
  {}

  lemma SleepSound(k: Kernel, a: int)
    requires Sound(k) && Cur(k) != NULL && IsSemAddress(a) && a in k.sem
    requires IsDevSem(a) || k.sem[a] <= 0
    ensures Sound(Sleep(k, a))
  {
    DescriptorsSuffice(k, a);
    BlockOnInv(k, a);
    DispatchSound(BlockOn(k, a));
  }

  lemma TerminateSound(k: Kernel)
    requires Inv(k) && Quiet(k) && Cur(k) != NULL
    ensures Sound(Terminate(k))
  {
    KillStartInv(k);
    DispatchSound(Kill(KillStart(k)));
  }

  lemma VerhogenSound(k: Kernel, a: int)
    requires Sound(k) && Cur(k) != NULL && (a == 0 || (IsSemAddress(a) && a in k.sem))
    ensures Sound(Verhogen(k, a))
  {
    hide Move, MoveTo, Placed, Linked, Rooted, Count;
    if a == 0 {
      TerminateSound(k);
    } else {
      WakeFirstCore(AddTo(k, a, 1), a);
    }
  }

  lemma {:induction false} DrainExact(k: Kernel, a: int)
    requires Core(k) && IsDevSem(a)
    ensures var k' := Drain(k, a); var waiting := Get(k.q, Blocked(a));
      && Core(k')
      && k' == k.(q := k'.q, place := k'.place, sb := k'.sb)
      && k'.sb == k.sb - |waiting|
      && forall pl :: Get(k'.q, pl) ==
           if pl == Blocked(a) then [] else if pl == Ready then Get(k.q, Ready) + waiting else Get(k.q, pl)
    decreases |Get(k.q, Blocked(a))|
  {
    hide Move, MoveTo, Placed, Linked, Rooted, Count, Named;
    WakeFirstCore(k, a);
    var waiting := Get(k.q, Blocked(a));
    if waiting != [] {
      DrainExact(WakeFirst(k, a), a);
      assert waiting == [waiting[0]] + waiting[1..];
      assert Get(k.q, Ready) + waiting == Get(k.q, Ready) + [waiting[0]] + waiting[1..];
    }
  }

  lemma ResumeSound(k: Kernel, k': Kernel)
    requires Sound(k) && (k.status == Executing || k.status == Waiting)
    requires Inv(k') && Quiet(k') && Cur(k') == Cur(k) && k'.status == k.status
    ensures Sound(Resume(k'))
  {
    if Cur(k) == NULL {
      DispatchSound(k');
    }
  }

  lemma TickSound(k: Kernel)
    requires Sound(k) && (k.status == Executing || k.status == Waiting)
    ensures Sound(Tick(k))
  {
    hide Move, MoveTo, Placed, Linked, Rooted, Count;
    DrainExact(k, SYS_TIMER);
    var k1 := Drain(k, SYS_TIMER);
    ResumeSound(k, k1.(sem := k1.sem[SYS_TIMER := 0]));
  }

  lemma DeviceDoneSound(k: Kernel, line: int, dev: int, tran: int)
    requires Sound(k) && (k.status == Executing || k.status == Waiting) && GoodDevice(line, dev, tran)
    ensures Sound(DeviceDone(k, line, dev, tran))
  {
    hide Move, MoveTo, Placed, Linked, Rooted, Count;
    var a := IoAddress(line, dev, 1 - tran);
    WakeFirstCore(k, a);
    ResumeSound(k, AddTo(WakeFirst(k, a), a, 1));
  }

  lemma PreemptSound(k: Kernel)
    requires Sound(k) && Cur(k) != NULL
    ensures Sound(Preempt(k))
  {
    hide Move, MoveTo, Placed, Linked, Rooted, Count;
    var c := Cur(k);
    Member(k, Running, c);
    Moved(k, c, Ready);
    StandingMove(k.place, k.parent, k.birth, k.births, k.root, c, Ready);
    DispatchSound(MoveTo(k, c, Ready));
  }

  lemma StepSound(k: Kernel, e: Event)
    requires Sound(k) && Enabled(k, e)
    ensures Sound(Step(k, e))
  {
    hide Core, Move, MoveTo, Count, Dispatch, Kill, Terminate, Drain;
    match e
    case SysCreate => CreateInv(k); CreateStatus(k);
    case SysTerminate => TerminateSound(k);
    case SysP(a) =>
      if a == 0 {
        TerminateSound(k);
      } else if Val(k.sem, a) - 1 < 0 {
        SleepSound(k, a);
      } else {
        PositiveSound(k, a);
      }
    case SysV(a) => VerhogenSound(k, a);
    case SysIO(line, dev, a3) =>
      if GoodDevice(line, dev, a3) {
        IoCellExists(k, line, dev, a3);
        SleepSound(k, IoAddress(line, dev, a3));
      } else {
        TerminateSound(k);
      }
    case SysClock => IoCellExists(k, 3, 0, 0); SleepSound(k, SYS_TIMER);
    case SysOther =>
    case Timeslice => PreemptSound(k);
    case ClockTick => TickSound(k);
    case DeviceInt(line, dev, tran) => DeviceDoneSound(k, line, dev, tran);
  }

  lemma CreateStatus(k: Kernel)
    ensures Create(k).status == k.status
  {}

  lemma PositiveSound(k: Kernel, a: int)
    requires Sound(k) && Cur(k) != NULL && a in k.sem && k.sem[a] > 0
    ensures Sound(AddTo(k, a, -1))
  {}

  lemma IoCellExists(k: Kernel, line: int, dev: int, a3: int)
    requires Core(k) && GoodDevice(line, dev, a3)
    ensures IoAddress(line, dev, a3) in k.sem && SYS_TIMER in k.sem
    ensures IsSemAddress(IoAddress(line, dev, a3)) && IsSemAddress(SYS_TIMER)
    ensures IsDevSem(IoAddress(line, dev, a3)) && IsDevSem(SYS_TIMER)
  {}
}
