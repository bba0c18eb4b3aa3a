/**
  What each event does, said of the lists, the cells, the counters and the tree alone: the effect of every system
  call and interrupt, complete up to the order of the free list.
 */
module KernelEffects {
  import opened Seqs
  import opened Layout
  import opened Places
  import opened KernelModel
  import opened KernelSafety
  import opened KernelKill
  import opened KernelSteps
  import opened KernelRuns
  import opened KernelTheorems

  /** The event terminates the current process. */
  predicate Ends(e: Event) {
    match e
    case SysTerminate => true
    case SysP(b) => b == 0
    case SysV(b) => b == 0
    case SysIO(line, dev, a3) => !GoodDevice(line, dev, a3)
    case _ => false
  }

  // ---------------------------------------------------------------- the effects

  /** With nobody running, the first of the ready runs. */
  ghost predicate Scheduled(k': Kernel, ready: seq<int>) {
    Get(k'.q, Running) == FirstOf(ready) && Get(k'.q, Ready) == RestOf(ready)
  }

  /** Lists, cells and device count may have changed, and nothing else has. */
  ghost predicate SameFamily(k: Kernel, k': Kernel) {
    k' == k.(q := k'.q, place := k'.place, sem := k'.sem, sb := k'.sb, status := k'.status)
  }

  /** The caller is the last of those who wait on a, the cell is one lower, and the next process runs. */
  ghost predicate Slept(k: Kernel, k': Kernel, a: int)
    requires a in k.sem
  {
    && SameFamily(k, k')
    && k'.sem == k.sem[a := k.sem[a] - 1] && k'.sb == k.sb + One(IsDevSem(a))
    && (forall c :: Get(k'.q, Blocked(c)) == Get(k.q, Blocked(c)) + if c == a then [Cur(k)] else [])
    && Get(k'.q, Free) == Get(k.q, Free)
    && Scheduled(k', Get(k.q, Ready))
  }

  /** The cell is one higher, and the woken, who were the first to wait on a, are the last of the ready. */
  ghost predicate Raised(k: Kernel, k': Kernel, a: int, woken: seq<int>)
    requires a in k.sem
  {
    && SameFamily(k, k')
    && k'.sem == k.sem[a := k.sem[a] + 1] && k'.sb == k.sb - (if IsDevSem(a) then |woken| else 0)
    && Get(k.q, Blocked(a)) == woken + Get(k'.q, Blocked(a))
    && (forall c :: c != a ==> Get(k'.q, Blocked(c)) == Get(k.q, Blocked(c)))
    && Get(k'.q, Free) == Get(k.q, Free)
    && Resumed(k, k', Get(k.q, Ready) + woken)
  }

  /** The time slice is over: the caller is the last of the ready, and the first of them runs. */
  ghost predicate Rotated(k: Kernel, k': Kernel) {
    && SameFamily(k, k') && k'.sem == k.sem && k'.sb == k.sb
    && (forall c :: Get(k'.q, Blocked(c)) == Get(k.q, Blocked(c)))
    && Get(k'.q, Free) == Get(k.q, Free)
    && Scheduled(k', Get(k.q, Ready) + [Cur(k)])
  }

  /** Whoever waited for the clock is ready, in the same order, and the cell is 0. */
  ghost predicate Ticked(k: Kernel, k': Kernel) {
    var waiting := Get(k.q, Blocked(SYS_TIMER));
    && SameFamily(k, k') && k'.sem == k.sem[SYS_TIMER := 0] && k'.sb == k.sb - |waiting|
    && (forall c :: Get(k'.q, Blocked(c)) == if c == SYS_TIMER then [] else Get(k.q, Blocked(c)))
    && Get(k'.q, Free) == Get(k.q, Free)
    && Resumed(k, k', Get(k.q, Ready) + waiting)
  }

  /** The first of the free PCBs is the last of the ready and the first child of the caller, who goes on. */
  ghost predicate Begot(k: Kernel, k': Kernel)
    requires Sound(k) && Get(k.q, Free) != [] && IsPid(Get(k.q, Free)[0]) && IsPid(Cur(k))
  {
    var c := Get(k.q, Free)[0];
    && (forall pl :: pl != Free && pl != Ready ==> Get(k'.q, pl) == Get(k.q, pl))
    && Get(k'.q, Free) == Get(k.q, Free)[1..] && Get(k'.q, Ready) == Get(k.q, Ready) + [c]
    && k'.parent == k.parent[c := Cur(k)] && k'.kids == k.kids[Cur(k) := [c] + k.kids[Cur(k)]]
    && k'.sem == k.sem && k'.sb == k.sb && k'.count == k.count + 1 && k'.root == k.root && k'.status == k.status
  }

  /** x is free, and has neither parent nor children. */
  predicate Gone(k: Kernel, x: int) {
    0 <= x < |k.place| == |k.parent| == |k.kids| &&
    k.place[x] == Free && k.parent[x] == NULL && k.kids[x] == []
  }

  /**
    The caller and its descendants are gone. All others are where they were, but for the first ready one, which
    runs; they are in the same order, and keep their parents and, but for the caller, their children. Each semaphore
    of the processes got back one unit for every waiter it lost.
   */
  ghost predicate Ended(k: Kernel, k': Kernel)
    requires Sound(k) && IsPid(Cur(k))
  {
    var dead := Descendants(k, Cur(k));
    var ready := Keep(Get(k.q, Ready), dead);
    && Cur(k) in dead && (forall x :: x in dead ==> Gone(k', x))
    && |k'.place| == |k'.parent| == |k'.kids| == MAXPROC
    && (forall x :: IsPid(x) && x !in dead ==>
          && k'.place[x] == (if [x] == FirstOf(ready) then Running else k.place[x])
          && k'.parent[x] == k.parent[x]
          && k'.kids[x] == if x == k.parent[Cur(k)] then Remove(k.kids[x], Cur(k)) else k.kids[x])
    && (forall a :: Get(k'.q, Blocked(a)) == Keep(Get(k.q, Blocked(a)), dead))
    && Scheduled(k', ready)
    && k'.count == k.count - |dead| && k'.root == k.root
    && k'.sem.Keys == k.sem.Keys
    && (forall a :: a in k.sem ==>
          k'.sem[a] == k.sem[a] + if IsDevSem(a) then 0 else |Get(k.q, Blocked(a))| - |Get(k'.q, Blocked(a))|)
  }

  /** What an event does. */
  ghost predicate Effect(k: Kernel, e: Event, k': Kernel)
    requires Sound(k) && Enabled(k, e)
  {
    CallerRuns(k, e);
    if Ends(e) then Ended(k, k')
    else
      match e
      case SysCreate => if Get(k.q, Free) == [] then k' == k else Begot(k, k')
      case SysP(a) => if k.sem[a] >= 1 then k' == k.(sem := k.sem[a := k.sem[a] - 1]) else Slept(k, k', a)
      case SysV(a) => Raised(k, k', a, if k.sem[a] + 1 <= 0 then FirstOf(Get(k.q, Blocked(a))) else [])
      case SysIO(line, dev, a3) => Slept(k, k', IoAddress(line, dev, a3))
      case SysClock => Slept(k, k', SYS_TIMER)
      case Timeslice => Rotated(k, k')
      case ClockTick => Ticked(k, k')
      case DeviceInt(line, dev, tran) =>
        var a := IoAddress(line, dev, 1 - tran); Raised(k, k', a, FirstOf(Get(k.q, Blocked(a))))
      case _ => k' == k
  }

  /** A system call and the end of a time slice find a process running, and the cells of the devices exist. */
  lemma CallerRuns(k: Kernel, e: Event)
    requires Sound(k) && Enabled(k, e)
    ensures !e.ClockTick? && !e.DeviceInt? ==>
      IsPid(Cur(k)) && k.place[Cur(k)] == Running && Get(k.q, Running) == [Cur(k)]
    ensures Get(k.q, Free) != [] ==> IsPid(Get(k.q, Free)[0]) && k.place[Get(k.q, Free)[0]] == Free
    ensures |k.kids| == MAXPROC && SYS_TIMER in k.sem
    ensures forall line, dev, a3 :: GoodDevice(line, dev, a3) ==> IoAddress(line, dev, a3) in k.sem
  {
    hide Placed, Linked, Rooted, Count;
    if Cur(k) != NULL {
      Member(k, Running, Cur(k));
    }
    if Get(k.q, Free) != [] {
      Member(k, Free, Get(k.q, Free)[0]);
    }
  }

  // ---------------------------------------------------------------- each kind of event has its effect

  /** Up to the call of the scheduler. */
  lemma BlockOnEffect(k: Kernel, a: int)
    requires Sound(k) && Cur(k) != NULL && IsSemAddress(a) && a in k.sem && (IsDevSem(a) || k.sem[a] <= 0)
    ensures var k1 := BlockOn(k, a);
      && Inv(k1) && Cur(k1) == NULL && SameFamily(k, k1)
      && k1.sem == k.sem[a := k.sem[a] - 1] && k1.sb == k.sb + One(IsDevSem(a))
      && (forall c :: Get(k1.q, Blocked(c)) == Get(k.q, Blocked(c)) + if c == a then [Cur(k)] else [])
      && Get(k1.q, Free) == Get(k.q, Free) && Get(k1.q, Ready) == Get(k.q, Ready)
  {
    hide Placed, Linked, Rooted, Move, Count, Named, Accounted;
    BlockOnInv(k, a);
    Member(k, Running, Cur(k));
    Moved(k, Cur(k), Blocked(a));
  }

  lemma SleepEffect(k: Kernel, a: int)
    requires Sound(k) && Cur(k) != NULL && IsSemAddress(a) && a in k.sem && (IsDevSem(a) || k.sem[a] <= 0)
    ensures Slept(k, Sleep(k, a), a)
  {
    hide Core, Accounted, BlockOn, Dispatch, NoDescriptor, Get;
    DescriptorsSuffice(k, a);
    BlockOnEffect(k, a);
    DispatchInv(BlockOn(k, a));
    DispatchFamily(BlockOn(k, a));
  }

  lemma DispatchFamily(k: Kernel)
    ensures Dispatch(k) == k.(q := Dispatch(k).q, place := Dispatch(k).place, status := Dispatch(k).status)
  {}

  lemma TimesliceEffect(k: Kernel)
    requires Sound(k) && Cur(k) != NULL
    ensures Rotated(k, Preempt(k))
  {
    hide Placed, Linked, Rooted, Move, Count, Named, Accounted;
    var c := Cur(k);
    Member(k, Running, c);
    Moved(k, c, Ready);
    StandingMove(k.place, k.parent, k.birth, k.births, k.root, c, Ready);
    var k1 := MoveTo(k, c, Ready);
    SameWaiters(k.q, k1.q, k.sem);
    DispatchInv(k1);
    DispatchFamily(k1);
  }

  lemma ResumeFamily(k: Kernel)
    ensures Resume(k) == k.(q := Resume(k).q, place := Resume(k).place, status := Resume(k).status)
  {
    hide Dispatch;
    DispatchFamily(k);
  }

  lemma TickFamily(k: Kernel)
    requires Core(k)
    ensures SameFamily(k, Tick(k))
  {
    hide Core, Drain, Resume;
    DrainExact(k, SYS_TIMER);
    var k1 := Drain(k, SYS_TIMER);
    ResumeFamily(k1.(sem := k1.sem[SYS_TIMER := 0]));
  }

  lemma TickEffect(k: Kernel)
    requires Sound(k) && Enabled(k, ClockTick)
    ensures Ticked(k, Tick(k))
  {
    hide Core, Accounted, Tick;
    TickExact(k);
    TickFamily(k);
  }

  lemma DeviceFamily(k: Kernel, line: int, dev: int, tran: int)
    requires Core(k)
    ensures SameFamily(k, DeviceDone(k, line, dev, tran))
  {
    hide Core, WakeFirst, Resume;
    var a := IoAddress(line, dev, 1 - tran);
    WakeFirstCore(k, a);
    ResumeFamily(AddTo(WakeFirst(k, a), a, 1));
  }

  lemma DeviceEffect(k: Kernel, line: int, dev: int, tran: int)
    requires Sound(k) && Enabled(k, DeviceInt(line, dev, tran))
    ensures Effect(k, DeviceInt(line, dev, tran), Step(k, DeviceInt(line, dev, tran)))
  {
    hide Core, Accounted, Quiet, Decided, DeviceDone, Resumed, Get;
    CallerRuns(k, DeviceInt(line, dev, tran));
    DeviceExact(k, line, dev, tran);
    DeviceFamily(k, line, dev, tran);
    IoIsDevice(line, dev, 1 - tran);
    assert Get(k.q, Ready) + [] == Get(k.q, Ready);
  }

  lemma IoIsDevice(line: int, dev: int, a3: int)
    requires GoodDevice(line, dev, a3)
    ensures IsDevSem(IoAddress(line, dev, a3)) && IoAddress(line, dev, a3) != SYS_TIMER
    ensures IsSemAddress(IoAddress(line, dev, a3))
  {}

  lemma WokenCount(k: Kernel, a: int)
    ensures WakeFirst(k, a).sb == k.sb - if Get(k.q, Blocked(a)) == [] then 0 else One(IsDevSem(a))
  {
    hide Move;
  }

  lemma RaisedCore(k: Kernel, a: int)
    requires Core(k) && a in k.sem
    ensures Core(AddTo(k, a, 1))
  {
    hide Placed, Linked, Rooted, Count;
  }

  lemma VEffect(k: Kernel, a: int)
    requires Sound(k) && Enabled(k, SysV(a)) && a != 0
    ensures Raised(k, Verhogen(k, a), a, if k.sem[a] + 1 <= 0 then FirstOf(Get(k.q, Blocked(a))) else [])
  {
    hide Placed, Linked, Rooted, Count, Accounted, WakeFirst, Get, Counted, Named;
    CallerRuns(k, SysV(a));
    RaisedCore(k, a);
    WakeFirstCore(AddTo(k, a, 1), a);
    WokenCount(AddTo(k, a, 1), a);
    assert Get(k.q, Ready) + [] == Get(k.q, Ready);
  }

  lemma CreateEffect(k: Kernel)
    requires Sound(k) && Enabled(k, SysCreate)
    ensures Effect(k, SysCreate, Step(k, SysCreate))
  {
    hide Placed, Linked, Rooted, Move, Count, Named, Accounted;
    CallerRuns(k, SysCreate);
    CreateInv(k);
    CreateStatus(k);
  }

  lemma ParentLives(k: Kernel, p: int)
    requires Core(k) && IsPid(p) && k.kids[p] != []
    ensures k.place[p] != Free
  {
    hide Placed, Count, Named;
    var c := k.kids[p][0];
    assert c in k.kids[p];
    assert k.parent[c] == p;
  }

  /** Nobody who is free has a family. */
  lemma FreeIsGone(k: Kernel, x: int)
    requires Core(k) && IsPid(x) && k.place[x] == Free
    ensures Gone(k, x)
  {
    FreeIsOrphan(k, x);
    if k.kids[x] != [] {
      ParentLives(k, x);
      assert false;
    }
  }

  lemma DispatchPlaces(k: Kernel)
    requires Inv(k) && Cur(k) == NULL
    ensures Inv(Dispatch(k)) && Scheduled(Dispatch(k), Get(k.q, Ready))
    ensures forall x :: IsPid(x) ==>
      Dispatch(k).place[x] == if [x] == FirstOf(Get(k.q, Ready)) then Running else k.place[x]
  {
    hide Placed, Linked, Rooted, Move, Count, Named, Accounted;
    DispatchInv(k);
    if Get(k.q, Ready) != [] {
      Member(k, Ready, Get(k.q, Ready)[0]);
    }
  }

  lemma TerminateEffect(k: Kernel)
    requires Sound(k) && Cur(k) != NULL
    ensures IsPid(Cur(k)) && Ended(k, Terminate(k))
  {
    hide Placed, Linked, Rooted, Move, Count, Named, Accounted, Kill, KillStart, Keep, Descendants, Dispatch, Get;
    RunningIsPid(k);
    LoopIsExact(k);
    var k1, dead := Kill(KillStart(k)), Descendants(k, Cur(k));
    DispatchInv(k1);
    DispatchPlaces(k1);
    DispatchFamily(k1);
    DescendantsArePids(k, Cur(k));
    KeepMembers(Get(k.q, Ready), dead);
    forall x | x in dead ensures Gone(Terminate(k), x) {
      FreeIsGone(Terminate(k), x);
    }
  }

  lemma RunningIsPid(k: Kernel)
    requires Core(k) && Cur(k) != NULL
    ensures IsPid(Cur(k))
  {
    Member(k, Running, Cur(k));
  }

  lemma DescendantsArePids(k: Kernel, r: int)
    requires Core(k)
    ensures forall x :: x in Descendants(k, r) ==> IsPid(x)
  {}

  /**
    Every event that ends the caller, SYS2 or a call that the kernel answers with it, frees exactly the caller and
    its descendants, and leaves everybody else where they were.
   */
  lemma TerminationIsExact(k: Kernel, e: Event)
    requires Sound(k) && Enabled(k, e) && Ends(e)
    ensures IsPid(Cur(k)) && Ended(k, Step(k, e))
  {
    hide Core, Accounted, Terminate, Ended;
    CallerRuns(k, e);
    TerminateEffect(k);
  }

  lemma PEffect(k: Kernel, a: int)
    requires Sound(k) && Enabled(k, SysP(a)) && a != 0
    ensures Effect(k, SysP(a), Step(k, SysP(a)))
  {
    hide Core, Accounted, Sleep, Slept;
    CallerRuns(k, SysP(a));
    if k.sem[a] <= 0 {
      SleepEffect(k, a);
    }
  }

  lemma WaitEffect(k: Kernel, e: Event)
    requires Sound(k) && Enabled(k, e) && !Ends(e) && (e.SysIO? || e.SysClock?)
    ensures Effect(k, e, Step(k, e))
  {
    hide Core, Accounted, Sleep, Slept;
    CallerRuns(k, e);
    IoCellExists(k, 3, 0, 0);
    if e.SysIO? {
      IoCellExists(k, e.line, e.dev, e.a3);
      SleepEffect(k, IoAddress(e.line, e.dev, e.a3));
    } else {
      SleepEffect(k, SYS_TIMER);
    }
  }

  lemma OtherEffect(k: Kernel, e: Event)
    requires Sound(k) && Enabled(k, e) && !Ends(e) && (e.SysV? || e.SysOther? || e.Timeslice? || e.ClockTick?)
    ensures Effect(k, e, Step(k, e))
  {
    hide Core, Accounted, Verhogen, Preempt, Tick, Raised, Rotated, Ticked;
    CallerRuns(k, e);
    match e
    case SysV(a) => VEffect(k, a);
    case Timeslice => TimesliceEffect(k);
    case ClockTick => TickEffect(k);
    case _ =>
  }

  /** Every event has its effect. */
  lemma StepEffect(k: Kernel, e: Event)
    requires Sound(k) && Enabled(k, e)
    ensures Effect(k, e, Step(k, e))
  {
    hide Sound, Enabled, Step, Ended;
    CallerRuns(k, e);
    if Ends(e) {
      TerminationIsExact(k, e);
    } else {
      match e
      case SysCreate => CreateEffect(k);
      case SysP(a) => PEffect(k, a);
      case SysIO(_, _, _) => WaitEffect(k, e);
      case SysClock => WaitEffect(k, e);
      case DeviceInt(line, dev, tran) => DeviceEffect(k, line, dev, tran);
      case _ => OtherEffect(k, e);
    }
  }

  // ---------------------------------------------------------------- nothing is left open

  /** The two states differ in nothing but the order of the free list and the record of birth dates. */
  ghost predicate Alike(k: Kernel, k': Kernel) {
    && k'.place == k.place && (forall pl :: pl != Free ==> Get(k'.q, pl) == Get(k.q, pl))
    && (forall x :: x in Get(k'.q, Free) <==> x in Get(k.q, Free))
    && k'.parent == k.parent && k'.kids == k.kids && k'.root == k.root
    && k'.sem == k.sem && k'.sb == k.sb && k'.count == k.count && k'.status == k.status
  }

  /** The same lists of the living, the same tree, cells and process count. */
  ghost predicate Agree(k: Kernel, k': Kernel) {
    && (forall pl: Place :: pl.Ready? || pl.Running? || pl.Blocked? ==> Get(k'.q, pl) == Get(k.q, pl))
    && k'.parent == k.parent && k'.kids == k.kids && k'.root == k.root && k'.sem == k.sem && k'.count == k.count
  }

  lemma NobodySleeps(k: Kernel)
    requires Inv(k) && k.count == 0
    ensures k.sb == 0
  {
    hide Linked, Rooted, Count, Named, Accounted;
    FreeInRange(k);
    Pigeonhole(Get(k.q, Free), MAXPROC);
    CountZero(k.place, OnDevice);
    forall x | IsPid(x) ensures k.place[x] == Free {
      Member(k, Free, x);
    }
  }

  /** The lists of the living tell all places, the places the device count, and the counters the status. */
  lemma AgreeIsAlike(k: Kernel, k': Kernel)
    requires Sound(k) && Sound(k') && Agree(k, k')
    ensures Alike(k, k')
  {
    hide Linked, Rooted, Count, Named, Accounted;
    forall x | IsPid(x) ensures k'.place[x] == k.place[x] {
      Listed(k, x);
      Listed(k', x);
      assert Lists(Get(k.q, k'.place[x]), k.place, k'.place[x]);
      assert Lists(Get(k'.q, k.place[x]), k'.place, k.place[x]);
    }
    assert k'.place == k.place;
    assert Lists(Get(k.q, Free), k.place, Free) && Lists(Get(k'.q, Free), k'.place, Free);
    if k.count == 0 {
      NobodySleeps(k);
    }
  }

  lemma SleptAgree(k: Kernel, a: int, k1: Kernel, k2: Kernel)
    requires a in k.sem && Slept(k, k1, a) && Slept(k, k2, a)
    ensures Agree(k1, k2)
  {}

  lemma SameSuffix(s: seq<int>, t: seq<int>, t': seq<int>)
    requires s + t == s + t'
    ensures t == t'
  {
    assert t == (s + t)[|s|..];
    assert t' == (s + t')[|s|..];
  }

  lemma RaisedAgree(k: Kernel, a: int, woken: seq<int>, k1: Kernel, k2: Kernel)
    requires a in k.sem && Raised(k, k1, a, woken) && Raised(k, k2, a, woken)
    ensures Agree(k1, k2)
  {
    hide Get, FirstOf, RestOf;
    SameSuffix(woken, Get(k1.q, Blocked(a)), Get(k2.q, Blocked(a)));
  }

  lemma QueuesAgree(k: Kernel, e: Event, k1: Kernel, k2: Kernel)
    requires (e.Timeslice? && Rotated(k, k1) && Rotated(k, k2)) || (e.ClockTick? && Ticked(k, k1) && Ticked(k, k2))
    ensures Agree(k1, k2)
  {}

  lemma BegotAgree(k: Kernel, k1: Kernel, k2: Kernel)
    requires Sound(k) && Get(k.q, Free) != [] && IsPid(Get(k.q, Free)[0]) && IsPid(Cur(k))
    requires Begot(k, k1) && Begot(k, k2)
    ensures Agree(k1, k2)
  {
    hide Sound;
  }

  lemma EndedAgree(k: Kernel, k1: Kernel, k2: Kernel)
    requires Sound(k) && IsPid(Cur(k)) && Ended(k, k1) && Ended(k, k2)
    ensures Agree(k1, k2)
  {
    hide Placed, Linked, Rooted, Count, Named, Accounted, Keep, Descendants;
    var dead := Descendants(k, Cur(k));
    forall x | IsPid(x) ensures k1.parent[x] == k2.parent[x] && k1.kids[x] == k2.kids[x] {
      if x in dead {
        assert Gone(k1, x) && Gone(k2, x);
      }
    }
    assert k1.parent == k2.parent && k1.kids == k2.kids;
    assert forall a :: a in k.sem ==> k1.sem[a] == k2.sem[a];
    assert k1.sem == k2.sem;
  }

  /** The effect of an event determines the state after it. */
  lemma EffectDetermines(k: Kernel, e: Event, k1: Kernel, k2: Kernel)
    requires Sound(k) && Enabled(k, e) && Sound(k1) && Sound(k2) && Effect(k, e, k1) && Effect(k, e, k2)
    ensures Alike(k1, k2)
  {
    hide Core, Accounted, Quiet, Decided, Slept, Raised, Rotated, Ticked, Begot, Ended, Get;
    CallerRuns(k, e);
    if Ends(e) {
      EndedAgree(k, k1, k2);
    } else {
      match e {
        case SysCreate => if Get(k.q, Free) != [] { BegotAgree(k, k1, k2); }
        case SysP(a) => if k.sem[a] <= 0 { SleptAgree(k, a, k1, k2); }
        case SysV(a) => RaisedAgree(k, a, if k.sem[a] + 1 <= 0 then FirstOf(Get(k.q, Blocked(a))) else [], k1, k2);
        case SysIO(line, dev, a3) => SleptAgree(k, IoAddress(line, dev, a3), k1, k2);
        case SysClock => SleptAgree(k, SYS_TIMER, k1, k2);
        case DeviceInt(line, dev, tran) =>
          var a := IoAddress(line, dev, 1 - tran); RaisedAgree(k, a, FirstOf(Get(k.q, Blocked(a))), k1, k2);
        case Timeslice => QueuesAgree(k, e, k1, k2);
        case ClockTick => QueuesAgree(k, e, k1, k2);
        case _ =>
      }
    }
    assert Agree(k1, k2);
    AgreeIsAlike(k1, k2);
  }
}
