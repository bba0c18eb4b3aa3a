/**
  No lost wakeup: a device driven as flash_io drives it, with the command and SYS5 in one masked section
  under the mutex of the device, while all other processes do what they like.
 */
module KernelDevices {
  import opened Seqs
  import opened Layout
  import opened Places
  import opened KernelModel
  import opened KernelSafety
  import opened KernelKill
  import opened KernelSteps
  import opened KernelRuns
  import opened KernelTheorems
  import opened KernelEffects
  import opened KernelFairness

  /** SYS5 and the interrupt handler mean the same cell exactly when they mean the same device, or sub-device. */
  lemma SameCell(line: int, dev: int, a3: int, line': int, dev': int, tran: int)
    requires GoodDevice(line, dev, a3) && GoodDevice(line', dev', tran)
    ensures IoAddress(line, dev, a3) == IoAddress(line', dev', 1 - tran) <==>
            line == line' && dev == dev' && (line == 7 ==> a3 == 1 - tran)
  {
    var row, row' := if line < 7 then line - 3 else 4 + a3, if line' < 7 then line' - 3 else 5 - tran;
    SemMatIsInjective(row, dev, row', dev');
  }

  /** How far the owner of the mutex has come in flash_io. */
  datatype Stage = Before | Asleep | After

  datatype Lock =
    | Unlocked
    | Owned(pid: int, stage: Stage)
    | Orphaned(pending: bool)  // its owner was terminated, perhaps with a command still pending

  /** The device has been given a command and has not answered yet. */
  predicate InFlight(s: Lock) {
    (s.Owned? && s.stage.Asleep?) || (s.Orphaned? && s.pending)
  }

  ghost predicate Awake(k: Kernel, x: int) {
    x in Get(k.q, Ready) || x in Get(k.q, Running)
  }

  /** Mutex, device semaphore, owner and waiter agree. */
  ghost predicate Guarded(k: Kernel, mutex: int, a: int, s: Lock) {
    && IsDevSem(a) && a != SYS_TIMER && a in k.sem
    && !IsDevSem(mutex) && IsSemAddress(mutex) && mutex in k.sem
    && (if s.Unlocked? then k.sem[mutex] == 1 else k.sem[mutex] <= 0)
    && k.sem[a] == (if InFlight(s) then -1 else 0)
    && Get(k.q, Blocked(a)) == (if s.Owned? && s.stage.Asleep? then [s.pid] else [])
    && (s.Owned? && !s.stage.Asleep? ==> Awake(k, s.pid))
  }

  /** The event is the completion interrupt of the device. */
  predicate Completes(e: Event, a: int) {
    e.DeviceInt? && GoodDevice(e.line, e.dev, e.tran) && IoAddress(e.line, e.dev, 1 - e.tran) == a
  }

  /** The event is SYS5 on the device. */
  predicate Issues(e: Event, a: int) {
    e.SysIO? && GoodDevice(e.line, e.dev, e.a3) && IoAddress(e.line, e.dev, e.a3) == a
  }

  /**
    The discipline: only the owner of the mutex uses the device, once; having done so it gives the mutex back,
    and it calls nothing that may block in between; and the device answers only to commands.
   */
  predicate Obeys(k: Kernel, e: Event, mutex: int, a: int, s: Lock) {
    && (Completes(e, a) ==> InFlight(s))
    && (Issues(e, a) ==> s == Owned(Cur(k), Before))
    && (e == SysV(mutex) ==> s == Owned(Cur(k), After))
    && e != SysP(a) && e != SysV(a)
    && (s.Owned? && s.pid == Cur(k) && !Ends(e) ==> !e.SysP? && !e.SysClock? && (e.SysIO? ==> Issues(e, a)))
  }

  /** What an event makes of the lock. */
  ghost function LockStep(k: Kernel, e: Event, mutex: int, a: int, s: Lock): Lock
    requires Sound(k)
  {
    if Ends(e) then
      if s.Owned? && s.pid in Descendants(k, Cur(k)) then Orphaned(InFlight(s)) else s
    else if e == SysP(mutex) then
      if s.Unlocked? then Owned(Cur(k), Before) else s
    else if e == SysV(mutex) then
      if Get(k.q, Blocked(mutex)) == [] then Unlocked else Owned(Get(k.q, Blocked(mutex))[0], Before)
    else if Issues(e, a) then Owned(Cur(k), Asleep)
    else if Completes(e, a) then
      if s.Owned? then Owned(s.pid, After) else Orphaned(false)
    else s
  }

  // ---------------------------------------------------------------- what each kind of event does to the lists

  lemma SleepLists(k: Kernel, b: int)
    requires Sound(k) && Cur(k) != NULL && IsSemAddress(b) && b in k.sem && (IsDevSem(b) || k.sem[b] <= 0)
    ensures var k' := Sleep(k, b);
      && k'.sem == k.sem[b := k.sem[b] - 1]
      && (forall c :: Get(k'.q, Blocked(c)) == Get(k.q, Blocked(c)) + if c == b then [Cur(k)] else [])
      && (forall x :: x != Cur(k) && Awake(k, x) ==> Awake(k', x))
  {
    hide Core, Accounted, BlockOn, Get, Dispatch, NoDescriptor;
    DescriptorsSuffice(k, b);
    BlockOnLists(k, b);
    DispatchInv(BlockOn(k, b));
    DispatchCells(BlockOn(k, b));
  }

  lemma BlockOnLists(k: Kernel, b: int)
    requires Sound(k) && Cur(k) != NULL && IsSemAddress(b) && b in k.sem && (IsDevSem(b) || k.sem[b] <= 0)
    ensures var k' := BlockOn(k, b);
      && Inv(k') && Cur(k') == NULL && k'.sem == k.sem[b := k.sem[b] - 1]
      && (forall c :: Get(k'.q, Blocked(c)) == Get(k.q, Blocked(c)) + if c == b then [Cur(k)] else [])
      && Get(k'.q, Ready) == Get(k.q, Ready) && Get(k.q, Running) == [Cur(k)]
  {
    hide Placed, Linked, Rooted, Move, MoveTo, Count, Named, Accounted;
    BlockOnInv(k, b);
    Member(k, Running, Cur(k));
    Moved(k, Cur(k), Blocked(b));
  }

  lemma TerminateLists(k: Kernel)
    requires Sound(k) && Cur(k) != NULL
    ensures var k' := Terminate(k); var gone := Descendants(k, Cur(k));
      && Refunded(k, k')
      && (forall c :: Get(k'.q, Blocked(c)) == Keep(Get(k.q, Blocked(c)), gone))
      && (forall x :: x !in gone && Awake(k, x) ==> Awake(k', x))
  {
    hide Placed, Linked, Rooted, Move, MoveTo, Count, Named, Accounted, Kill;
    LoopIsExact(k);
    var k1 := Kill(KillStart(k));
    DispatchInv(k1);
    DispatchCells(k1);
    forall x | x !in Descendants(k, Cur(k)) && Awake(k, x) ensures Awake(Terminate(k), x) {
      PosKeep(Get(k.q, Ready), x, Descendants(k, Cur(k)));
    }
  }

  lemma PreemptAwake(k: Kernel)
    requires Sound(k) && Cur(k) != NULL
    ensures var k' := Preempt(k);
      && k'.sem == k.sem
      && (forall c :: Get(k'.q, Blocked(c)) == Get(k.q, Blocked(c)))
      && (forall x :: Awake(k, x) ==> Awake(k', x))
  {
    hide Placed, Linked, Rooted, Move, MoveTo, Count, Named, Accounted;
    var c := Cur(k);
    Member(k, Running, c);
    Moved(k, c, Ready);
    StandingMove(k.place, k.parent, k.birth, k.births, k.root, c, Ready);
    var k1 := MoveTo(k, c, Ready);
    SameWaiters(k.q, k1.q, k.sem);
    DispatchInv(k1);
    DispatchCells(k1);
    forall x | Awake(k, x) ensures Awake(Preempt(k), x) {
      assert x in Get(k1.q, Ready);
    }
  }

  // ---------------------------------------------------------------- every event keeps the agreement

  lemma EndGuarded(k: Kernel, e: Event, mutex: int, a: int, s: Lock)
    requires Sound(k) && Enabled(k, e) && Guarded(k, mutex, a, s) && Ends(e)
    ensures Guarded(Step(k, e), mutex, a, LockStep(k, e, mutex, a, s))
  {
    hide Core, Accounted, Kill, Terminate, Descendants;
    assert Step(k, e) == Terminate(k);
    TerminateLists(k);
    var gone := Descendants(k, Cur(k));
    MutexStaysTaken(k, gone, mutex);
    assert Keep([], gone) == [];
    if s.Owned? {
      assert Keep([s.pid], gone) == if s.pid in gone then [] else [s.pid];
    }
  }

  /** The units refunded to the mutex are those of its waiters, never the owner's. */
  lemma MutexStaysTaken(k: Kernel, gone: set<int>, mutex: int)
    requires Sound(k) && mutex in k.sem && !IsDevSem(mutex)
    ensures var n := |Get(k.q, Blocked(mutex))| - |Keep(Get(k.q, Blocked(mutex)), gone)|;
      && (k.sem[mutex] <= 0 ==> k.sem[mutex] + n <= 0)
      && (k.sem[mutex] > 0 ==> n == 0)
  {
    KeepMembers(Get(k.q, Blocked(mutex)), gone);
  }

  lemma SleepGuarded(k: Kernel, b: int, mutex: int, a: int, s: Lock)
    requires Sound(k) && Guarded(k, mutex, a, s) && Cur(k) != NULL
    requires IsSemAddress(b) && b in k.sem && (IsDevSem(b) || k.sem[b] <= 0) && b != a
    requires s.Owned? ==> s.pid != Cur(k)
    requires s.Unlocked? ==> b != mutex
    ensures Guarded(Sleep(k, b), mutex, a, s)
  {
    hide Core, Accounted, Sleep;
    SleepLists(k, b);
  }

  lemma IssueGuarded(k: Kernel, mutex: int, a: int, s: Lock)
    requires Sound(k) && Guarded(k, mutex, a, s) && Cur(k) != NULL && IsSemAddress(a) && s == Owned(Cur(k), Before)
    ensures Guarded(Sleep(k, a), mutex, a, Owned(Cur(k), Asleep))
  {
    hide Core, Accounted, Sleep;
    SleepLists(k, a);
  }

  /** A waiter is not awake, and the current process is. */
  lemma WaiterIsNotCurrent(k: Kernel, a: int, x: int)
    requires Sound(k) && Get(k.q, Blocked(a)) == [x]
    ensures x != Cur(k)
  {
    Member(k, Blocked(a), x);
    if x == Cur(k) && x in Get(k.q, Running) {
      Member(k, Running, x);
      assert false;
    }
  }

  lemma PGuarded(k: Kernel, e: Event, mutex: int, a: int, s: Lock)
    requires Sound(k) && Enabled(k, e) && Guarded(k, mutex, a, s) && Obeys(k, e, mutex, a, s) && !Ends(e)
    requires e.SysP?
    ensures Guarded(Step(k, e), mutex, a, LockStep(k, e, mutex, a, s))
  {
    hide Core, Sleep;
    var b := e.address;
    if Val(k.sem, b) - 1 < 0 {
      if s.Owned? && s.stage.Asleep? {
        WaiterIsNotCurrent(k, a, s.pid);
      }
      SleepGuarded(k, b, mutex, a, s);
    }
  }

  lemma VGuarded(k: Kernel, e: Event, mutex: int, a: int, s: Lock)
    requires Sound(k) && Enabled(k, e) && Guarded(k, mutex, a, s) && Obeys(k, e, mutex, a, s) && !Ends(e)
    requires e.SysV?
    ensures Guarded(Step(k, e), mutex, a, LockStep(k, e, mutex, a, s))
  {
    hide Core, Verhogen;
    VLists(k, e.address);
    assert Accounted(k.q, k.sem);
  }

  lemma VLists(k: Kernel, b: int)
    requires Sound(k) && Enabled(k, SysV(b)) && b != 0
    ensures var k' := Verhogen(k, b); var waiting := Get(k.q, Blocked(b));
      && k'.sem == k.sem[b := k.sem[b] + 1]
      && (forall c :: c != b ==> Get(k'.q, Blocked(c)) == Get(k.q, Blocked(c)))
      && (forall x :: Awake(k, x) ==> Awake(k', x))
      && (waiting != [] && k.sem[b] + 1 <= 0 ==> Awake(k', waiting[0]))
  {
    hide Placed, Linked, Rooted, Count, Move, MoveTo;
    WakeFirstCore(AddTo(k, b, 1), b);
  }

  lemma DeviceLists(k: Kernel, e: Event)
    requires Sound(k) && Enabled(k, e) && e.DeviceInt?
    ensures var k', b := Step(k, e), IoAddress(e.line, e.dev, 1 - e.tran); var waiting := Get(k.q, Blocked(b));
      && b in k.sem && k'.sem == k.sem[b := k.sem[b] + 1]
      && Get(k'.q, Blocked(b)) == (if waiting == [] then [] else waiting[1..])
      && (forall c :: c != b ==> Get(k'.q, Blocked(c)) == Get(k.q, Blocked(c)))
      && (forall x :: Awake(k, x) ==> Awake(k', x))
      && (waiting != [] ==> Awake(k', waiting[0]))
  {
    hide Core, Accounted, DeviceDone, Resumed;
    DeviceExact(k, e.line, e.dev, e.tran);
    var b := IoAddress(e.line, e.dev, 1 - e.tran);
    var waiting := Get(k.q, Blocked(b));
    if waiting == [] {
      ResumedAwake(k, Step(k, e), Get(k.q, Ready));
    } else {
      ResumedAwake(k, Step(k, e), Get(k.q, Ready) + [waiting[0]]);
      assert waiting[0] in Get(k.q, Ready) + [waiting[0]];
    }
  }

  lemma DeviceGuarded(k: Kernel, e: Event, mutex: int, a: int, s: Lock)
    requires Sound(k) && Enabled(k, e) && Guarded(k, mutex, a, s) && Obeys(k, e, mutex, a, s) && e.DeviceInt?
    ensures Guarded(Step(k, e), mutex, a, LockStep(k, e, mutex, a, s))
  {
    hide Core, Accounted, DeviceDone, Descendants, Awake, Step, Decided;
    IoCellExists(k, e.line, e.dev, 1 - e.tran);
    DeviceLists(k, e);
  }

  lemma ResumedAwake(k: Kernel, k': Kernel, r: seq<int>)
    requires Core(k) && Resumed(k, k', r)
    ensures forall x :: x in r || x in Get(k.q, Running) ==> Awake(k', x)
  {
    if Get(k.q, Running) != [] {
      Member(k, Running, Get(k.q, Running)[0]);
    }
  }

  lemma QuietEventGuarded(k: Kernel, e: Event, mutex: int, a: int, s: Lock)
    requires Sound(k) && Enabled(k, e) && Guarded(k, mutex, a, s)
    requires e.SysCreate? || e.SysOther? || e.Timeslice? || e.ClockTick?
    ensures Guarded(Step(k, e), mutex, a, s)
  {
    hide Core, Accounted, Create, Preempt, Tick;
    IoCellExists(k, 3, 0, 0);
    match e
    case SysCreate => CreateInv(k); CreateCells(k);
    case Timeslice => PreemptAwake(k);
    case ClockTick =>
      TickExact(k);
      ResumedAwake(k, Step(k, e), Get(k.q, Ready) + Get(k.q, Blocked(SYS_TIMER)));
    case SysOther =>
  }

  lemma CreateCells(k: Kernel)
    ensures Create(k).sem == k.sem && (Get(k.q, Free) == [] ==> Create(k) == k)
  {}

  /** Every event of a run that keeps to the discipline keeps the agreement. */
  lemma StepGuarded(k: Kernel, e: Event, mutex: int, a: int, s: Lock)
    requires Sound(k) && Enabled(k, e) && Guarded(k, mutex, a, s) && Obeys(k, e, mutex, a, s)
    ensures Guarded(Step(k, e), mutex, a, LockStep(k, e, mutex, a, s))
  {
    hide Core, Accounted, Sleep, Terminate, Create, Preempt, Tick, DeviceDone, Passeren, Verhogen;
    if Ends(e) {
      EndGuarded(k, e, mutex, a, s);
    } else if e.SysP? {
      PGuarded(k, e, mutex, a, s);
    } else if e.SysV? {
      VGuarded(k, e, mutex, a, s);
    } else if e.DeviceInt? {
      DeviceGuarded(k, e, mutex, a, s);
    } else if e.SysIO? || e.SysClock? {
      if s.Owned? && s.stage.Asleep? {
        WaiterIsNotCurrent(k, a, s.pid);
      }
      var b := if e.SysIO? then IoAddress(e.line, e.dev, e.a3) else SYS_TIMER;
      IoCellExists(k, if e.SysIO? then e.line else 3, if e.SysIO? then e.dev else 0, if e.SysIO? then e.a3 else 0);
      if b == a {
        IssueGuarded(k, mutex, a, s);
      } else {
        SleepGuarded(k, b, mutex, a, s);
      }
    } else {
      QuietEventGuarded(k, e, mutex, a, s);
    }
  }

  /** While the mutex is taken, a P on it puts the caller behind all others who wait for it. */
  lemma MutexExcludes(k: Kernel, mutex: int, a: int, s: Lock)
    requires Sound(k) && Enabled(k, SysP(mutex)) && Guarded(k, mutex, a, s) && !s.Unlocked?
    ensures Get(Passeren(k, mutex).q, Blocked(mutex)) == Get(k.q, Blocked(mutex)) + [Cur(k)]
  {
    hide Core, Accounted, Sleep;
    SleepLists(k, mutex);
  }

  // ---------------------------------------------------------------- runs

  ghost predicate ObeysAll(k: Kernel, es: seq<Event>, mutex: int, a: int, s: Lock)
    requires Sound(k) && Legal(k, es)
    decreases |es|
  {
    es == [] ||
    (Obeys(k, es[0], mutex, a, s) &&
     (StepSound(k, es[0]); ObeysAll(Step(k, es[0]), es[1..], mutex, a, LockStep(k, es[0], mutex, a, s))))
  }

  ghost function LockAfter(k: Kernel, es: seq<Event>, mutex: int, a: int, s: Lock): Lock
    requires Sound(k) && Legal(k, es)
    decreases |es|
  {
    if es == [] then s
    else
      StepSound(k, es[0]);
      LockAfter(Step(k, es[0]), es[1..], mutex, a, LockStep(k, es[0], mutex, a, s))
  }

  lemma {:induction false} RunGuarded(k: Kernel, es: seq<Event>, mutex: int, a: int, s: Lock)
    requires Sound(k) && Legal(k, es) && ObeysAll(k, es, mutex, a, s) && Guarded(k, mutex, a, s)
    ensures Guarded(Run(k, es), mutex, a, LockAfter(k, es, mutex, a, s))
    decreases |es|
  {
    hide Sound, Enabled, Step, Guarded, Obeys, LockStep;
    if es != [] {
      StepSound(k, es[0]);
      StepGuarded(k, es[0], mutex, a, s);
      RunGuarded(Step(k, es[0]), es[1..], mutex, a, LockStep(k, es[0], mutex, a, s));
    }
  }

  /** How many commands were issued to the device. */
  function Issued(es: seq<Event>, a: int): nat {
    if es == [] then 0 else One(Issues(es[0], a)) + Issued(es[1..], a)
  }

  /** How many of them it has answered. */
  function Completed(es: seq<Event>, a: int): nat {
    if es == [] then 0 else One(Completes(es[0], a)) + Completed(es[1..], a)
  }

  lemma {:induction false} InFlightIsIssued(k: Kernel, es: seq<Event>, mutex: int, a: int, s: Lock)
    requires Sound(k) && Legal(k, es) && ObeysAll(k, es, mutex, a, s)
    ensures One(InFlight(LockAfter(k, es, mutex, a, s))) == One(InFlight(s)) + Issued(es, a) - Completed(es, a)
    decreases |es|
  {
    hide Sound, Enabled, Step;
    if es != [] {
      StepSound(k, es[0]);
      InFlightIsIssued(Step(k, es[0]), es[1..], mutex, a, LockStep(k, es[0], mutex, a, s));
    }
  }

  /**
    From any state of a run in which the mutex is free and the device idle, however the other processes run: at
    most one process sleeps on the device; its semaphore is minus the number of commands issued and not yet answered,
    none or one; and unless the process that gave it was terminated, a command is in flight exactly while that process,
    the owner of the mutex, sleeps there.
   */
  lemma InFlightIffWaiting(k: Kernel, es: seq<Event>, mutex: int, a: int)
    requires Sound(k) && Legal(k, es) && ObeysAll(k, es, mutex, a, Unlocked)
    requires IsDevSem(a) && a != SYS_TIMER && a in k.sem && k.sem[a] == 0 && Get(k.q, Blocked(a)) == []
    requires !IsDevSem(mutex) && IsSemAddress(mutex) && mutex in k.sem && k.sem[mutex] == 1
    ensures var r, s := Run(k, es), LockAfter(k, es, mutex, a, Unlocked);
      var waiting := Get(r.q, Blocked(a));
      && |waiting| <= 1 && a in r.sem && r.sem[a] == -One(InFlight(s)) == Completed(es, a) - Issued(es, a)
      && (waiting != [] ==> s == Owned(waiting[0], Asleep))
      && (!s.Orphaned? ==> (InFlight(s) <==> waiting != []))
  {
    hide Sound, Legal, ObeysAll, Run, LockAfter;
    RunGuarded(k, es, mutex, a, Unlocked);
    InFlightIsIssued(k, es, mutex, a, Unlocked);
  }

  lemma BootCells(sem: map<int, int>, a: int)
    requires Startable(sem)
    ensures Boot(sem).sem == sem && Get(Boot(sem).q, Blocked(a)) == []
  {
    hide Core, Accounted;
    BootedInv(sem);
    BootedLists(sem);
    DispatchInv(Booted(sem));
    DispatchCells(Booted(sem));
  }

  /** After boot every device is idle, so the two hold from the moment on at which the mutex is set to 1. */
  lemma BootIsIdle(sem: map<int, int>, mutex: int, a: int)
    requires Startable(sem) && IsDevSem(a) && a != SYS_TIMER && a in sem && sem[a] == 0
    requires !IsDevSem(mutex) && IsSemAddress(mutex)
    ensures var k := Boot(sem); var k' := k.(sem := k.sem[mutex := 1]);
      Sound(k') && Guarded(k', mutex, a, Unlocked)
  {
    hide Sound, Boot;
    BootSound(sem);
    BootCells(sem, a);
    BootCells(sem, mutex);
    CellSound(Boot(sem), mutex, 1);
  }

  /** The answer to a command wakes exactly the process that waits for it, and the semaphore returns to 0. */
  lemma CompletionWakes(k: Kernel, line: int, dev: int, a3: int, mutex: int, x: int)
    requires Sound(k) && (k.status == Executing || k.status == Waiting) && GoodDevice(line, dev, a3)
    requires Guarded(k, mutex, IoAddress(line, dev, a3), Owned(x, Asleep))
    ensures var a := IoAddress(line, dev, a3); var k' := DeviceDone(k, line, dev, 1 - a3);
      && k'.sem == k.sem[a := 0] && Get(k'.q, Blocked(a)) == [] && Awake(k', x)
      && Resumed(k, k', Get(k.q, Ready) + [x]) && k'.sb == k.sb - 1
  {
    hide Core, Accounted, DeviceDone;
    DeviceExact(k, line, dev, 1 - a3);
  }
}
