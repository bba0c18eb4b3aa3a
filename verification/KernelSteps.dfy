/**
  The system calls, the interrupts and the boot of the nucleus as functions on its abstract state,
  and the invariant of all runs.
 */
module KernelSteps {
  import opened Layout
  import opened Places
  import opened KernelModel
  import opened KernelSafety
  import opened KernelKill

  datatype Event =
    | SysCreate
    | SysTerminate
    | SysP(address: int)
    | SysV(address: int)
    | SysIO(line: int, dev: int, a3: int)
    | SysClock
    | SysOther                                  // SYS6, SYS8, pass up: back to the caller
    | Timeslice                                 // local timer
    | ClockTick                                 // interval timer
    | DeviceInt(line: int, dev: int, tran: int)

  /** SYS2. */
  function Terminate(k: Kernel): Kernel
    requires Inv(k) && Quiet(k) && Cur(k) != NULL
  {
    KillStartInv(k);
    Dispatch(Kill(KillStart(k)))
  }

  /** insertBlocked(a, current_proc), and the scheduler; PANIC if there is no descriptor. */
  function Sleep(k: Kernel, a: int): Kernel {
    if NoDescriptor(k, a) then AddTo(k, a, -1).(status := OutOfDescriptors) else Dispatch(BlockOn(k, a))
  }

  /** SYS3. A null address kills the caller. */
  function Passeren(k: Kernel, a: int): Kernel
    requires Inv(k) && Quiet(k) && Cur(k) != NULL
  {
    if a == 0 then Terminate(k)
    else if Val(k.sem, a) - 1 < 0 then Sleep(k, a)
    else AddTo(k, a, -1)
  }

  /** SYS4. */
  function Verhogen(k: Kernel, a: int): Kernel
    requires Inv(k) && Quiet(k) && Cur(k) != NULL
  {
    if a == 0 then Terminate(k)
    else if Val(k.sem, a) + 1 <= 0 then WakeFirst(AddTo(k, a, 1), a)
    else AddTo(k, a, 1)
  }

  predicate GoodDevice(line: int, dev: int, a3: int) {
    3 <= line <= 7 && 0 <= dev <= 7 && (line == 7 ==> a3 == 0 || a3 == 1)
  }

  /** The semaphore SYS5 sleeps on: terminals have a row for writing and one for reading. */
  function IoAddress(line: int, dev: int, a3: int): int {
    SemMat(if line < 7 then line - 3 else 4 + a3, dev)
  }

  /** SYS5. Bad parameters kill the caller; otherwise it always sleeps. */
  function WaitIO(k: Kernel, line: int, dev: int, a3: int): Kernel
    requires Inv(k) && Quiet(k) && Cur(k) != NULL
  {
    if GoodDevice(line, dev, a3) then Sleep(k, IoAddress(line, dev, a3)) else Terminate(k)
  }

  /** SYS7. */
  function WaitClock(k: Kernel): Kernel {
    Sleep(k, SYS_TIMER)
  }

  function Preempt(k: Kernel): Kernel {
    Dispatch(MoveTo(k, Cur(k), Ready))
  }

  /** After an interrupt: back to the interrupted process, or to the scheduler if there was none. */
  function Resume(k: Kernel): Kernel {
    if Cur(k) != NULL then k else Dispatch(k)
  }

  function DeviceDone(k: Kernel, line: int, dev: int, tran: int): Kernel {
    var a := IoAddress(line, dev, 1 - tran);
    Resume(AddTo(WakeFirst(k, a), a, 1))
  }

  /** The loop of the tick. */
  function Drain(k: Kernel, a: int): (r: Kernel)
    requires Core(k)
    ensures Core(r)
    decreases |Get(k.q, Blocked(a))|
  {
    WakeFirstCore(k, a);
    if Get(k.q, Blocked(a)) == [] then k else Drain(WakeFirst(k, a), a)
  }

  function Tick(k: Kernel): Kernel
    requires Core(k)
  {
    var k1 := Drain(k, SYS_TIMER);
    Resume(k1.(sem := k1.sem[SYS_TIMER := 0]))
  }

  function Step(k: Kernel, e: Event): Kernel
    requires Sound(k) && Enabled(k, e)
  {
    match e
    case SysCreate => Create(k)
    case SysTerminate => Terminate(k)
    case SysP(a) => Passeren(k, a)
    case SysV(a) => Verhogen(k, a)
    case SysIO(line, dev, a3) => WaitIO(k, line, dev, a3)
    case SysClock => WaitClock(k)
    case SysOther => k
    case Timeslice => Preempt(k)
    case ClockTick => Tick(k)
    case DeviceInt(line, dev, tran) => DeviceDone(k, line, dev, tran)
  }

  /** A process makes calls on null or on existing cells; WAIT is left by a clock or device interrupt. */
  predicate Enabled(k: Kernel, e: Event) {
    match e
    case ClockTick => k.status == Executing || k.status == Waiting
    case DeviceInt(line, dev, tran) =>
      (k.status == Executing || k.status == Waiting) && GoodDevice(line, dev, tran)
    case SysP(a) => k.status == Executing && (a == 0 || (IsSemAddress(a) && a in k.sem))
    case SysV(a) => k.status == Executing && (a == 0 || (IsSemAddress(a) && a in k.sem))
    case _ => k.status == Executing
  }

  /** What holds between any two events. */
  ghost predicate Sound(k: Kernel) {
    && Inv(k)
    && Quiet(k)
    && Decided(k)
  }

  /** The status the scheduler left is the right one. */
  ghost predicate Decided(k: Kernel) {
    match k.status
    case Executing => Cur(k) != NULL
    case Waiting => Cur(k) == NULL && Get(k.q, Ready) == [] && k.sb > 0
    case Halted => Cur(k) == NULL && Get(k.q, Ready) == [] && k.count == 0
    case Deadlocked => Cur(k) == NULL && Get(k.q, Ready) == [] && k.count > 0 && k.sb == 0
    case OutOfDescriptors => false
  }
}
