/**
  The register v0, through which the kernel answers: what each event leaves in the saved state of every process and
  in the processor, and what a process finds there when it runs again.
 */
module Registers {
  import opened Seqs
  import opened Layout
  import opened Places
  import opened KernelModel
  import opened KernelSafety
  import opened KernelKill
  import opened KernelSteps
  import opened KernelTheorems
  import opened KernelEffects
  import opened KernelBalance
  import opened Accounts
  import Billing

  /** An event that leaves the kernel's tables alone: SYS6, or one that is answered by other means. */
  datatype Asked = CpuTime | Other(answer: int)

  /** What the kernel finds in registers and memory: v0 of whoever was interrupted, v0 of a child, a device status. */
  datatype Input = Input(v0: int, child_v0: int, reg_status: int, asked: Asked)

  /** The caller gives up the processor, and its state is saved in its PCB. */
  predicate Yields(k: Kernel, e: Event) {
    match e
    case SysP(a) => a != 0 && Val(k.sem, a) <= 0
    case SysIO(line, dev, a3) => GoodDevice(line, dev, a3)
    case SysClock => true
    case Timeslice => true
    case _ => false
  }

  /** The interrupt of a device wakes x. */
  predicate Answers(k: Kernel, e: Event, x: int) {
    e.DeviceInt? && [x] == FirstOf(Get(k.q, Blocked(IoAddress(e.line, e.dev, 1 - e.tran))))
  }

  /** v0 in a PCB: the woken gets the status, the child what it starts with, and whoever yields keeps its own. */
  function V0After(k: Kernel, e: Event, input: Input, x: int, was: int): int {
    if Answers(k, e, x) then input.reg_status
    else if Creates(k, e, x) then input.child_v0
    else if x == Cur(k) && Yields(k, e) then input.v0
    else was
  }

  ghost predicate Stored(k: Kernel, e: Event, input: Input, saved: seq<int>, saved': seq<int>) {
    |saved'| == |saved| && forall x :: 0 <= x < |saved| ==> saved'[x] == V0After(k, e, input, x, saved[x])
  }

  /** The scheduler is called. */
  predicate Switches(k: Kernel, e: Event) {
    Cur(k) == NULL || Yields(k, e) || Ends(e)
  }

  /** v0 of the processor when the kernel leaves it: what the dispatched had saved, or the answer to the caller. */
  ghost predicate Loaded(k: Kernel, e: Event, k': Kernel, input: Input, saved': seq<int>, v0: int) {
    Cur(k') != NULL ==>
      && 0 <= Cur(k') < |saved'|
      && (Switches(k, e) ==> v0 == saved'[Cur(k')])
      && (!Switches(k, e) ==>
            if e.SysCreate? then v0 == if Get(k.q, Free) == [] then -1 else 0
            else if e.SysOther? then input.asked.Other? ==> v0 == input.asked.answer
            else v0 == input.v0)
  }

  function Saving(s: seq<int>, i: int, value: int): seq<int> {
    if 0 <= i < |s| then s[i := value] else s
  }

  /** The registers after an event, in memory and in the processor. */
  ghost predicate Delivered(k: Kernel, e: Event, k': Kernel, input: Input, saved: seq<int>, saved': seq<int>, v0: int) {
    Stored(k, e, input, saved, saved') && Loaded(k, e, k', input, saved', v0)
  }

  /** Whoever runs has back the v0 that was saved. */
  predicate BackAgain(k': Kernel, saved': seq<int>, v0: int) {
    Cur(k') != NULL ==> 0 <= Cur(k') < |saved'| && v0 == saved'[Cur(k')]
  }

  predicate InTable(k': Kernel, saved': seq<int>) {
    Cur(k') != NULL ==> 0 <= Cur(k') < |saved'|
  }

  lemma YieldDelivers(k: Kernel, e: Event, k': Kernel, input: Input, saved: seq<int>, saved': seq<int>, v0: int)
    requires Yields(k, e) && saved' == Saving(saved, Cur(k), input.v0) && BackAgain(k', saved', v0)
    ensures Delivered(k, e, k', input, saved, saved', v0)
  {}

  lemma EndDelivers(k: Kernel, e: Event, k': Kernel, input: Input, saved: seq<int>, v0: int)
    requires Ends(e) && BackAgain(k', saved, v0)
    ensures Delivered(k, e, k', input, saved, saved, v0)
  {}

  lemma StayDelivers(k: Kernel, e: Event, k': Kernel, input: Input, saved: seq<int>, v0: int)
    requires !Yields(k, e) && !Ends(e) && !e.DeviceInt? && !e.SysCreate?
    requires if Cur(k) == NULL then BackAgain(k', saved, v0) else InTable(k', saved)
    requires Cur(k) != NULL ==>
      v0 == if e.SysOther? && input.asked.Other? then input.asked.answer else if e.SysOther? then v0 else input.v0
    ensures Delivered(k, e, k', input, saved, saved, v0)
  {}

  lemma CreateDelivers(k: Kernel, k': Kernel, input: Input, saved: seq<int>, saved': seq<int>, v0: int)
    requires Cur(k) != NULL && InTable(k', saved')
    requires saved' == if Get(k.q, Free) == [] then saved else Saving(saved, Get(k.q, Free)[0], input.child_v0)
    requires v0 == if Get(k.q, Free) == [] then -1 else 0
    ensures Delivered(k, SysCreate, k', input, saved, saved', v0)
  {}

  lemma DeviceDelivers(k: Kernel, e: Event, k': Kernel, input: Input, saved: seq<int>, saved': seq<int>, v0: int)
    requires e.DeviceInt?
    requires var waiting := Get(k.q, Blocked(IoAddress(e.line, e.dev, 1 - e.tran)));
      saved' == if waiting == [] then saved else Saving(saved, waiting[0], input.reg_status)
    requires if Cur(k) == NULL then BackAgain(k', saved', v0) else InTable(k', saved') && v0 == input.v0
    ensures Delivered(k, e, k', input, saved, saved', v0)
  {}

  /** The status register of the device, or of the half of the terminal, that the event comes from. */
  function StatusOf(e: Event, transm_status: seq<nat>, recv_status: seq<nat>, dtp_status: seq<seq<nat>>): int
    requires |transm_status| == |recv_status| == 8 && |dtp_status| == 7
    requires forall line :: 3 <= line < 7 ==> |dtp_status[line]| == 8
  {
    if !e.DeviceInt? || !GoodDevice(e.line, e.dev, e.tran) then 0
    else if e.line < 7 then dtp_status[e.line][e.dev]
    else if e.tran == 1 then transm_status[e.dev]
    else recv_status[e.dev]
  }

  // ---------------------------------------------------------------- over runs

  datatype Regs = Regs(saved: seq<int>, v0: int)

  /** At each event of the journal the registers change as they should. */
  ghost predicate Registered(log: seq<Moment>, es: seq<Event>, ins: seq<Input>, regs: seq<Regs>) {
    && |log| == |regs| == |es| + 1 && |ins| == |es|
    && forall i, j :: 0 <= i < |es| && j == i + 1 ==>
         && Stored(log[i].k, es[i], ins[i], regs[i].saved, regs[j].saved)
         && Loaded(log[i].k, es[i], log[j].k, ins[i], regs[j].saved, regs[j].v0)
  }

  lemma NoRegisters(m: Moment, r: Regs)
    ensures Registered([m], [], [], [r])
  {}

  lemma RegisteredGrows(log: seq<Moment>, es: seq<Event>, ins: seq<Input>, regs: seq<Regs>,
                        e: Event, input: Input, m': Moment, r': Regs)
    requires Registered(log, es, ins, regs)
    requires Delivered(log[|es|].k, e, m'.k, input, regs[|es|].saved, r'.saved, r'.v0)
    ensures Registered(log + [m'], es + [e], ins + [input], regs + [r'])
  {
    hide Stored, Loaded;
  }

  /** Each state of the log follows from the one before by its event. */
  ghost predicate Follows(log: seq<Moment>, es: seq<Event>) {
    |log| == |es| + 1 && forall i, j :: 0 <= i < |es| && j == i + 1 ==> Stepped(log[i].k, es[i], log[j].k)
  }

  ghost predicate Stepped(k: Kernel, e: Event, k': Kernel) {
    Sound(k) && Enabled(k, e) && k' == Step(k, e)
  }

  /** Whoever did not run before, and does now, was dispatched. */
  lemma NewOneIsDispatched(k: Kernel, e: Event)
    requires Sound(k) && Enabled(k, e)
    ensures Cur(Step(k, e)) != Cur(k) && Cur(Step(k, e)) != NULL ==> Switches(k, e)
  {
    hide Core, Accounted, Step, Ended, Decided;
    StepEffect(k, e);
    CallerRuns(k, e);
  }

  /** x is neither woken by a device, nor created, nor running. */
  predicate Aside(k: Kernel, e: Event, x: int) {
    !Answers(k, e, x) && !Creates(k, e, x) && x != Cur(k)
  }

  lemma {:induction false} SavedStays(log: seq<Moment>, es: seq<Event>, ins: seq<Input>, regs: seq<Regs>, x: int,
                                      i: nat, j: nat)
    requires Registered(log, es, ins, regs) && i <= j <= |es| && 0 <= x < |regs[i].saved|
    requires forall l :: i <= l < j ==> Aside(log[l].k, es[l], x)
    ensures |regs[j].saved| == |regs[i].saved| && regs[j].saved[x] == regs[i].saved[x]
    decreases j
  {
    hide Loaded, Answers, Creates, Yields;
    if i < j {
      SavedStays(log, es, ins, regs, x, i, j - 1);
      assert Stored(log[j - 1].k, es[j - 1], ins[j - 1], regs[j - 1].saved, regs[j].saved);
      assert Aside(log[j - 1].k, es[j - 1], x);
    }
  }

  /**
    A process that left the processor at event i finds in v0, when it runs again at j, what it had there, unless a
    device woke it, or its PCB was used anew, in between.
   */
  lemma CallerFindsV0(log: seq<Moment>, es: seq<Event>, ins: seq<Input>, regs: seq<Regs>, x: int, i: nat, j: nat)
    requires Follows(log, es) && Registered(log, es, ins, regs) && i < j <= |es| && 0 <= x < |regs[i].saved|
    requires Cur(log[i].k) == x && Yields(log[i].k, es[i])
    requires Cur(log[j].k) == x && forall l :: i < l < j ==> Aside(log[l].k, es[l], x)
    ensures regs[j].v0 == ins[i].v0
  {
    hide Sound, Enabled, Step, Yields, Creates;
    assert Stepped(log[i].k, es[i], log[i + 1].k);
    assert Stored(log[i].k, es[i], ins[i], regs[i].saved, regs[i + 1].saved);
    YieldsIsNoAnswer(log[i].k, es[i], x);
    SavedStays(log, es, ins, regs, x, i + 1, j);
    assert Stepped(log[j - 1].k, es[j - 1], log[j].k);
    assert Loaded(log[j - 1].k, es[j - 1], log[j].k, ins[j - 1], regs[j].saved, regs[j].v0);
    NewOneIsDispatched(log[j - 1].k, es[j - 1]);
  }

  lemma YieldsIsNoAnswer(k: Kernel, e: Event, x: int)
    requires Yields(k, e)
    ensures !Answers(k, e, x) && !Creates(k, e, x)
  {}

  /** x is ready, or runs. */
  ghost predicate Up(k: Kernel, x: int) {
    x in Get(k.q, Ready) || Get(k.q, Running) == [x]
  }

  lemma ScheduledUp(k': Kernel, ready: seq<int>, x: int)
    requires Scheduled(k', ready) && x in ready
    ensures Up(k', x)
  {
    assert ready == [ready[0]] + ready[1..];
  }

  lemma ResumedUp(k: Kernel, k': Kernel, ready: seq<int>, x: int)
    requires Resumed(k, k', ready) && x in ready
    ensures Up(k', x)
  {
    assert ready == [ready[0]] + ready[1..];
  }

  /** Whoever is ready stays so until it runs, unless it is killed. */
  lemma StaysUp(k: Kernel, e: Event, x: int)
    requires Sound(k) && Enabled(k, e) && x in Get(k.q, Ready) && !Kills(k, e, x)
    ensures Up(Step(k, e), x)
  {
    hide Core, Accounted, Quiet, Decided, Step, Keep, Descendants, Get, Scheduled, Resumed;
    StepEffect(k, e);
    CallerRuns(k, e);
    var k', ready := Step(k, e), Get(k.q, Ready);
    if Ends(e) {
      KeepMembers(ready, Descendants(k, Cur(k)));
      ScheduledUp(k', Keep(ready, Descendants(k, Cur(k))), x);
    } else {
      match e
      case SysCreate =>
      case SysP(a) => if k.sem[a] <= 0 { ScheduledUp(k', ready, x); }
      case SysV(a) => ResumedUp(k, k', ready + if k.sem[a] + 1 <= 0 then FirstOf(Get(k.q, Blocked(a))) else [], x);
      case ClockTick => ResumedUp(k, k', ready + Get(k.q, Blocked(SYS_TIMER)), x);
      case DeviceInt(line, dev, tran) =>
        ResumedUp(k, k', ready + FirstOf(Get(k.q, Blocked(IoAddress(line, dev, 1 - tran)))), x);
      case Timeslice => ScheduledUp(k', ready + [Cur(k)], x);
      case SysOther =>
      case _ => ScheduledUp(k', ready, x);
    }
  }

  lemma AnsweredIsBlocked(k: Kernel, e: Event, x: int)
    requires Core(k) && Answers(k, e, x)
    ensures IsPid(x) && k.place[x].Blocked?
  {
    hide Linked, Rooted, Count, Named;
    var pl := Blocked(IoAddress(e.line, e.dev, 1 - e.tran));
    assert x in Get(k.q, pl);
    Member(k, pl, x);
  }

  lemma CreatedIsFree(k: Kernel, e: Event, x: int)
    requires Core(k) && Creates(k, e, x)
    ensures IsPid(x) && k.place[x] == Free
  {
    hide Linked, Rooted, Count, Named;
    Member(k, Free, x);
  }

  lemma CurrentRuns(k: Kernel, x: int)
    requires Core(k) && 0 <= x == Cur(k)
    ensures IsPid(x) && k.place[x] == Running
  {
    hide Linked, Rooted, Count, Named;
    Member(k, Running, x);
  }

  /** Whoever is ready is not concerned by what happens. */
  lemma ReadyIsAside(k: Kernel, e: Event, x: int)
    requires Sound(k) && x in Get(k.q, Ready)
    ensures Aside(k, e, x) && IsPid(x)
  {
    hide Linked, Rooted, Count, Named, Accounted, Answers, Creates, Cur;
    Member(k, Ready, x);
    if Cur(k) == x {
      CurrentRuns(k, x);
    } else if Creates(k, e, x) {
      CreatedIsFree(k, e, x);
    } else if Answers(k, e, x) {
      AnsweredIsBlocked(k, e, x);
    }
  }

  /** The interrupt makes the process it wakes ready, or running at once. */
  lemma AnsweredIsUp(k: Kernel, e: Event, x: int)
    requires Sound(k) && Enabled(k, e) && Answers(k, e, x)
    ensures Up(Step(k, e), x)
  {
    hide Core, Accounted, Quiet, Decided, Step, Get, Resumed;
    StepEffect(k, e);
    CallerRuns(k, e);
    var woken := FirstOf(Get(k.q, Blocked(IoAddress(e.line, e.dev, 1 - e.tran))));
    ResumedUp(k, Step(k, e), Get(k.q, Ready) + woken, x);
  }

  lemma RunsOrReady(k: Kernel, x: int)
    requires Up(k, x) && Cur(k) != x
    ensures x in Get(k.q, Ready)
  {}

  lemma {:induction false} UpUntilItRuns(log: seq<Moment>, es: seq<Event>, x: int, i: nat, j: nat)
    requires Follows(log, es) && i < j <= |es| && Answers(log[i].k, es[i], x)
    requires forall l :: i < l < j ==> Cur(log[l].k) != x && Sound(log[l].k) && !Kills(log[l].k, es[l], x)
    ensures Up(log[j].k, x) && forall l :: i < l < j ==> Aside(log[l].k, es[l], x)
    decreases j
  {
    hide Sound, Enabled, Step, Answers, Creates, Kills;
    assert Stepped(log[j - 1].k, es[j - 1], log[j].k);
    if j == i + 1 {
      AnsweredIsUp(log[i].k, es[i], x);
    } else {
      UpUntilItRuns(log, es, x, i, j - 1);
      RunsOrReady(log[j - 1].k, x);
      ReadyIsAside(log[j - 1].k, es[j - 1], x);
      StaysUp(log[j - 1].k, es[j - 1], x);
    }
  }

  /**
    A process that a device woke finds the status of the device in v0 when it runs for the first time after that,
    whatever happens before, unless it is killed.
   */
  lemma StatusIsDelivered(log: seq<Moment>, es: seq<Event>, ins: seq<Input>, regs: seq<Regs>, x: int, i: nat, j: nat)
    requires Follows(log, es) && Registered(log, es, ins, regs) && i < j <= |es| && 0 <= x < |regs[i].saved|
    requires Answers(log[i].k, es[i], x)
    requires forall l :: i < l < j ==> Cur(log[l].k) != x && Sound(log[l].k) && !Kills(log[l].k, es[l], x)
    requires Cur(log[j].k) == x
    ensures regs[j].v0 == ins[i].reg_status
  {
    hide Sound, Enabled, Step, Creates, Kills, Yields;
    UpUntilItRuns(log, es, x, i, j);
    assert Stepped(log[i].k, es[i], log[i + 1].k);
    assert Stored(log[i].k, es[i], ins[i], regs[i].saved, regs[i + 1].saved);
    SavedStays(log, es, ins, regs, x, i + 1, j);
    AnsweredDoesNotRun(log[i].k, es[i], x);
    assert Stepped(log[j - 1].k, es[j - 1], log[j].k);
    assert Loaded(log[j - 1].k, es[j - 1], log[j].k, ins[j - 1], regs[j].saved, regs[j].v0);
    NewOneIsDispatched(log[j - 1].k, es[j - 1]);
  }

  lemma AnsweredDoesNotRun(k: Kernel, e: Event, x: int)
    requires Sound(k) && Answers(k, e, x)
    ensures Cur(k) != x
  {
    hide Placed, Linked, Rooted, Count, Named, Accounted, Answers, Cur;
    AnsweredIsBlocked(k, e, x);
    if Cur(k) == x {
      CurrentRuns(k, x);
    }
  }

  /** The journal of a run follows the machine. */
  lemma JournalFollows(log: seq<Moment>, es: seq<Event>, spans: seq<Billing.Span>)
    requires Journal(log, es, spans)
    ensures Follows(log, es)
  {
    hide Sound, Enabled, Step, BilledTo, Charges;
    forall i, j | 0 <= i < |es| && j == i + 1 ensures Stepped(log[i].k, es[i], log[j].k) {
      assert Entry(log[i], es[i], log[j], spans);
    }
  }
}
