/**
  Phase 2 over the tables of phase 1: the kernel globals, the scheduler, the system calls and the
  interrupt handlers. Every handler is proved to do to the abstract state what Step says.
 */
module Nuclei {
  import opened Seqs
  import opened Layout
  import opened Places
  import opened KernelModel
  import opened KernelSafety
  import opened KernelKill
  import opened KernelSteps
  import opened KernelRuns
  import opened KernelTheorems
  import opened KernelEffects
  import opened Pcbs
  import opened Asls
  import opened DeviceLines
  import opened Accounts
  import opened Registers
  import Billing

  /** Who does not wait has a null p_semAdd. */
  ghost predicate Unmarked(t: seq<Pcb>, place: seq<Place>) {
    |t| == |place| && forall x :: 0 <= x < |t| && !place[x].Blocked? ==> t[x].p_semAdd == 0
  }

  /** v0 of every PCB is what was last saved there. */
  ghost predicate Kept(t: seq<Pcb>, saved: seq<int>) {
    |t| == |saved| && forall x :: 0 <= x < |t| ==> t[x].reg_v0 == saved[x]
  }

  /** The PCB has not been used. */
  predicate Blank(p: Pcb) {
    p.p_semAdd == 0 && p.p_time == 0 && p.reg_v0 == 0
  }

  /** The device semaphores were set to 0 and nothing else was touched. */
  ghost predicate Zeroed(memory: map<int, int>, m: map<int, int>) {
    && m.Keys == memory.Keys
    && SYS_TIMER in m && m[SYS_TIMER] == 0
    && (forall row, col :: 0 <= row < 6 && 0 <= col < 8 ==> SemMat(row, col) in m && m[SemMat(row, col)] == 0)
    && (forall a :: a in memory && !IsDevSem(a) ==> m[a] == memory[a])
  }

  class Nucleus {
    const pcbs: PcbTable
    const asl: Asl
    var process_count: int
    var process_sb: int
    var ready_q: int
    var current_proc: int
    var sem: map<int, int>       // the semaphore cells
    var tod_start: int
    var clock: int               // the time of day clock
    var status: Status           // what the machine was last told to do
    var v0: int                  // of whoever was interrupted, and of the processor when it goes on
    ghost var birth: seq<nat>
    ghost var births: nat
    ghost var root: int
    ghost var spans: seq<Billing.Span>
    ghost var since: seq<nat>
    ghost var saved: seq<int>    // v0 as it was last saved in each PCB
    ghost var start: int         // the first dispatch
    ghost var idleFrom: int      // the last WAIT

    /** The abstract state this machine is in. */
    ghost function State(): Kernel
      reads this, pcbs
    {
      Kernel(pcbs.q, pcbs.place, pcbs.parent, pcbs.kids, birth, births, root,
                    sem, process_count, process_sb, status)
    }

    /** All links, tails and tags agree with the abstract state, and the books are exact. */
    ghost predicate Wired()
      reads `ready_q, `tod_start, `clock, `spans, `since, `saved, `start, asl, asl.sd, pcbs, pcbs.table
    {
      && asl.pcbs == pcbs
      && asl.Valid()
      && ready_q == Tail(Get(pcbs.q, Ready))
      && Unmarked(pcbs.table[..], pcbs.place)
      && Billing.Chronological(spans, start, tod_start) && tod_start <= clock
      && Billing.Exact(pcbs.table[..], spans, since) && Kept(pcbs.table[..], saved)
    }

    ghost predicate Valid()
      reads this, asl, asl.sd, pcbs, pcbs.table
    {
      Wired() && current_proc == Cur(State()) && (status == Waiting ==> tod_start <= idleFrom == clock)
    }

    // -------------------------------------------------------------- initial.c

    /** The tables of phase 1, and globals that hold nothing yet. */
    constructor (now: int)
      requires now >= 0
      ensures fresh(pcbs) && fresh(asl) && fresh(pcbs.table) && fresh(asl.sd)
      ensures asl.pcbs == pcbs && asl.Valid() && AllFreeIn(pcbs.q, pcbs.place)
      ensures pcbs.parent == Nulls() && pcbs.kids == Kidless()
      ensures forall p :: IsPid(p) ==> Blank(pcbs.table[p])
      ensures clock == now
    {
      hide PcbTable.Valid, Sorted, Spare, Apart, Mirrors, Tagged;
      var table := new PcbTable();
      AllFree(table.q, table.place);
      pcbs := table;
      asl := new Asl(table);
      process_count := 0;
      process_sb := 0;
      ready_q := NULL;
      current_proc := NULL;
      sem := map[];
      tod_start := 0;
      clock := now;
      status := Executing;
    }

    /** initKer: the boot process is ready, the device semaphores are 0, nobody was billed yet. */
    method InitKer(memory: map<int, int>)
      requires Startable(memory) && clock >= 0
      requires asl.pcbs == pcbs && asl.Valid() && AllFreeIn(pcbs.q, pcbs.place)
      requires pcbs.parent == Nulls() && pcbs.kids == Kidless()
      requires forall p :: IsPid(p) ==> Blank(pcbs.table[p])
      modifies `process_count, `status, `sem, `birth, `births, `root, `ready_q, `tod_start, `spans, `start, `idleFrom
      modifies `since, `saved, `current_proc, `process_sb, pcbs, pcbs.table
      ensures Valid() && Startable(sem) && State() == Booted(sem) && Zeroed(memory, sem)
      ensures spans == []
    {
      hide Wired, Move, Get, Booted, Nulls, Kidless, Zeros, AllFreeIn, Placed, Startable, Zeroed, Cur;
      hide PcbTable.Valid, Asl.Valid;
      ghost var q, place := pcbs.q, pcbs.place;
      InitGlobals(memory);
      ghost var q1, place1 := BootProcess();
      BootedIs(q, place, q1, place1, State());
    }

    /** The globals of the kernel and the device semaphores. */
    method InitGlobals(memory: map<int, int>)
      requires Startable(memory)
      modifies `process_count, `process_sb, `status, `sem, `birth, `births, `root
      ensures process_count == 0 && process_sb == 0 && status == Executing
      ensures Startable(sem) && Zeroed(memory, sem)
      ensures birth == Zeros() && births == 1 && root == MAXPROC - 1
    {
      hide Startable, Zeroed, Zeros;
      process_count, process_sb := 0, 0;
      sem := ZeroDevices(memory);
      status := Executing;
      birth, births, root := Zeros(), 1, MAXPROC - 1;
    }

    /** The boot process is allocated, put on the ready queue, and counted. */
    method BootProcess() returns (ghost q1: Queues, ghost place1: seq<Place>)
      requires asl.pcbs == pcbs && asl.Valid() && AllFreeIn(pcbs.q, pcbs.place) && clock >= 0
      requires forall x :: IsPid(x) ==> Blank(pcbs.table[x])
      modifies `ready_q, `tod_start, `spans, `start, `idleFrom, `since, `saved, `current_proc, `process_count
      modifies pcbs`q, pcbs`place, pcbs`pcbFree_h, pcbs.table
      ensures Wired() && current_proc == NULL && process_count == old(process_count) + 1
      ensures Placed(old(pcbs.q), old(pcbs.place)) && |old(pcbs.place)| == |place1| == MAXPROC
      ensures q1 == Move(old(pcbs.q), old(pcbs.place), MAXPROC - 1, Running)
      ensures place1 == old(pcbs.place)[MAXPROC - 1 := Running]
      ensures pcbs.q == Move(q1, place1, MAXPROC - 1, Ready) && pcbs.place == place1[MAXPROC - 1 := Ready]
      ensures spans == []
    {
      hide Wired, Move, Get, AllFreeIn, Placed, PcbTable.Valid, Asl.Valid;
      current_proc := AllocBoot();
      q1, place1 := pcbs.q, pcbs.place;
      InsertReady(current_proc);
      current_proc := NULL;
      process_count := process_count + 1;
    }

    /** The part of initKer that takes the boot process from the free list. */
    method AllocBoot() returns (p: int)
      requires asl.pcbs == pcbs && asl.Valid() && AllFreeIn(pcbs.q, pcbs.place) && clock >= 0
      requires forall x :: IsPid(x) ==> Blank(pcbs.table[x])
      modifies `ready_q, `tod_start, `spans, `start, `idleFrom, `since, `saved
      modifies pcbs`q, pcbs`place, pcbs`pcbFree_h, pcbs.table
      ensures Wired() && p == MAXPROC - 1 && |old(pcbs.place)| == MAXPROC
      ensures Placed(old(pcbs.q), old(pcbs.place))
      ensures pcbs.q == Move(old(pcbs.q), old(pcbs.place), p, Running) && pcbs.place == old(pcbs.place)[p := Running]
      ensures spans == []
    {
      hide PcbTable.Valid, Sorted, Spare, Apart, Mirrors, Tagged, Unmarked, Billing.Exact, Kept, Move, Get;
      hide AllFreeIn, Placed, Tail, Billing.Chronological;
      ready_q, tod_start := NULL, 0;
      spans, start, idleFrom, since, saved := [], 0, 0, Zeros(), Zeros();
      ghost var q, place := pcbs.q, pcbs.place;
      TableSize(pcbs);
      FirstFree(q, place);
      p := pcbs.AllocPcb(Running);
      BootWired(pcbs.table[..], q, place, p, since);
      Retailed(asl.sd[..], asl.asl, q, pcbs.q);
      assert asl.Valid();
    }

    static method ZeroDevices(memory: map<int, int>) returns (m: map<int, int>)
      requires Startable(memory)
      ensures Startable(m) && Zeroed(memory, m)
    {
      m := memory;
      for i := 0 to 6
        invariant m.Keys == memory.Keys && forall a :: a in memory && !IsDevSem(a) ==> m[a] == memory[a]
        invariant forall row, col :: 0 <= row < i && 0 <= col < 8 ==> SemMat(row, col) in m && m[SemMat(row, col)] == 0
      {
        for j := 0 to 8
          invariant m.Keys == memory.Keys && forall a :: a in memory && !IsDevSem(a) ==> m[a] == memory[a]
          invariant forall row, col :: 0 <= row < i && 0 <= col < 8 ==>
            SemMat(row, col) in m && m[SemMat(row, col)] == 0
          invariant forall col :: 0 <= col < j ==> SemMat(i, col) in m && m[SemMat(i, col)] == 0
        {
          m := m[SemMat(i, j) := 0];
        }
      }
      m := m[SYS_TIMER := 0];
    }

    // -------------------------------------------------------------- the clock

    /** STCK: the clock never goes back. */
    method STCK() returns (t: int)
      modifies this`clock
      ensures t == clock >= old(clock)
    {
      var elapsed :| 0 <= elapsed;
      clock := clock + elapsed;
      t := clock;
    }

    method UpdateCpuUsage(p: int)
      requires Wired() && IsPid(p)
      modifies this`clock, this`tod_start, this`spans, pcbs.table
      ensures Wired() && clock >= old(clock) && tod_start >= old(clock)
      ensures |spans| == |old(spans)| + 1 && old(spans) <= spans
      ensures var s := spans[|old(spans)|]; s.pid == p && s.from == old(tod_start) && old(clock) <= s.to <= clock
    {
      hide PcbTable.Valid, Sorted, Spare, Apart, Mirrors, Tagged, Unmarked, Billing.Exact, Kept, Billing.Chronological;
      ghost var t := pcbs.table[..];
      TableSize(pcbs);
      var ct := STCK();
      pcbs.AddTime(p, ct - tod_start);
      ghost var s := Billing.Span(p, tod_start, ct);
      Billing.ExactAppend(t, pcbs.table[..], spans, since, s);
      SemAddsFrame(t, pcbs.table[..], pcbs.place);
      KeptFrame(t, pcbs.table[..], saved);
      var now := STCK();
      Billing.ChronologicalAppend(spans, start, tod_start, s, now);
      tod_start := now;
      spans := spans + [s];
    }

    // -------------------------------------------------------------- the ready queue

    /** insertProcQ(&ready_q, p). */
    method InsertReady(p: int)
      requires Wired() && IsPid(p) && IsUnlinked(pcbs.place[p])
      modifies this`ready_q, pcbs`q, pcbs`place, pcbs.table
      ensures Wired()
      ensures pcbs.q == Move(old(pcbs.q), old(pcbs.place), p, Ready) && pcbs.place == old(pcbs.place)[p := Ready]
    {
      hide PcbTable.Valid, Sorted, Spare, Apart, Mirrors, Tagged, Unmarked, Billing.Exact, Kept, Billing.Chronological;
      hide Move, Get;
      ghost var t, q, place := pcbs.table[..], pcbs.q, pcbs.place;
      TableSize(pcbs);
      ready_q := pcbs.InsertProcQ(Ready, ready_q, p);
      Rewired(t, pcbs.table[..], q, place, p, Ready);
      Retailed(asl.sd[..], asl.asl, q, pcbs.q);
      BooksFrame(t, pcbs.table[..], spans, since, saved);
    }

    /** removeProcQ(&ready_q). */
    method RemoveReady(ghost to: Place) returns (p: int)
      requires Wired() && IsUnlinked(to)
      modifies this`ready_q, pcbs`q, pcbs`place, pcbs.table
      ensures Wired() && p == Head(old(Get(pcbs.q, Ready)))
      ensures p == NULL ==> pcbs.q == old(pcbs.q) && pcbs.place == old(pcbs.place)
      ensures p != NULL ==>
        && IsPid(p) && old(pcbs.place[p]) == Ready
        && pcbs.q == Move(old(pcbs.q), old(pcbs.place), p, to) && pcbs.place == old(pcbs.place)[p := to]
    {
      hide PcbTable.Valid, Sorted, Spare, Apart, Mirrors, Tagged, Unmarked, Billing.Exact, Kept, Billing.Chronological;
      hide Move, Get;
      ghost var t, q, place := pcbs.table[..], pcbs.q, pcbs.place;
      TableSize(pcbs);
      ready_q, p := pcbs.RemoveProcQ(Ready, ready_q, to);
      if p != NULL {
        HeadIsThere(q, place, Ready);
        Rewired(t, pcbs.table[..], q, place, p, to);
      } else {
        SemAddsFrame(t, pcbs.table[..], place);
      }
      Retailed(asl.sd[..], asl.asl, q, pcbs.q);
      BooksFrame(t, pcbs.table[..], spans, since, saved);
    }

    /** outProcQ(&ready_q, p), for a p that is ready. */
    method OutReady(p: int, ghost to: Place)
      requires Wired() && IsUnlinked(to) && IsPid(p) && pcbs.place[p] == Ready
      modifies this`ready_q, pcbs`q, pcbs`place, pcbs.table
      ensures Wired()
      ensures pcbs.q == Move(old(pcbs.q), old(pcbs.place), p, to) && pcbs.place == old(pcbs.place)[p := to]
    {
      hide PcbTable.Valid, Sorted, Spare, Apart, Mirrors, Tagged, Unmarked, Billing.Exact, Kept, Billing.Chronological;
      hide Move, Get;
      ghost var t, q, place := pcbs.table[..], pcbs.q, pcbs.place;
      TableSize(pcbs);
      var res;
      ready_q, res := pcbs.OutProcQ(Ready, ready_q, p, to);
      Rewired(t, pcbs.table[..], q, place, p, to);
      Retailed(asl.sd[..], asl.asl, q, pcbs.q);
      BooksFrame(t, pcbs.table[..], spans, since, saved);
    }

    // -------------------------------------------------------------- scheduler.c

    /** STCK(tod_start). */
    method StampTod()
      requires Wired()
      modifies `clock, `tod_start
      ensures Wired() && old(clock) <= tod_start <= clock
    {
      hide Asl.Valid, Unmarked, Billing.Exact, Kept, Billing.Chronological, Get;
      var now := STCK();
      Billing.Later(spans, start, tod_start, now);
      tod_start := now;
    }

    /** Whoever runs has back the v0 that was saved. */
    ghost predicate Restored()
      reads `current_proc, `v0, `saved
    {
      current_proc != NULL ==> 0 <= current_proc < |saved| && v0 == saved[current_proc]
    }

    lemma NobodyRestored()
      ensures current_proc == NULL ==> Restored()
    {}

    /** LDST(&current_proc->p_s). */
    method LoadState()
      requires Wired() && IsPid(current_proc)
      modifies `v0
      ensures Wired() && Restored()
    {
      hide Sorted, Spare, Apart, Mirrors, Tagged, Unmarked, Billing.Exact, Billing.Chronological, Get;
      TableSize(pcbs);
      v0 := pcbs.table[current_proc].reg_v0;
    }

    /** memcpy(&current_proc->p_s, caller). */
    method SaveState()
      requires Wired() && IsPid(current_proc)
      modifies `saved, pcbs.table
      ensures Wired() && saved == Saving(old(saved), current_proc, v0)
    {
      hide Wired;
      SetV0(current_proc, v0);
    }

    /** The next ready process runs; or the machine halts, waits or panics. */
    method Scheduler()
      requires Wired() && Inv(State()) && Cur(State()) == NULL
      modifies `ready_q, `current_proc, `v0, `status, `clock, `tod_start, `idleFrom
      modifies pcbs`q, pcbs`place, pcbs.table
      ensures Valid() && State() == Dispatch(old(State())) && Restored()
      ensures if current_proc != NULL then tod_start >= old(clock) else tod_start == old(tod_start)
    {
      hide Wired, Inv, Get, Move, MoveTo, Cur, Dispatch, Restored;
      ghost var k := State();
      current_proc := RemoveReady(Running);
      Dispatched(k);
      NobodyRestored();
      if current_proc != NULL {
        Start();
      } else {
        Stop();
      }
    }

    /** The time slice of current_proc begins. */
    method Start()
      requires Wired() && IsPid(current_proc)
      modifies `v0, `status, `clock, `tod_start
      ensures Wired() && Restored() && status == Executing && tod_start >= old(clock)
    {
      hide Wired, Restored;
      StampTod();
      status := Executing;
      LoadState();
    }

    /** Nobody is ready. */
    method Stop()
      requires Wired()
      modifies `status, `idleFrom
      ensures Wired() && (status == Waiting ==> tod_start <= idleFrom == clock)
      ensures status == if process_count == 0 then Halted else if process_sb > 0 then Waiting else Deadlocked
    {
      hide Wired;
      if process_count == 0 {
        status := Halted;
      } else if process_sb > 0 {
        ToWait();
      } else {
        status := Deadlocked;
      }
    }

    /** WAIT: from here on the time is nobody's. */
    method ToWait()
      requires Wired()
      modifies `status, `idleFrom
      ensures Wired() && status == Waiting && tod_start <= idleFrom == clock
    {
      hide Asl.Valid, Unmarked, Billing.Exact, Kept, Billing.Chronological, Get;
      status := Waiting;
      idleFrom := clock;
    }

    // -------------------------------------------------------------- semaphores

    /** insertBlocked(a, p), for a p on no list. */
    method Block(a: int, p: int) returns (full: bool)
      requires Wired() && IsSemAddress(a) && IsPid(p) && IsUnlinked(pcbs.place[p])
      modifies asl, asl.sd, pcbs`q, pcbs`place, pcbs.table
      ensures Wired()
      ensures full <==> old(Get(pcbs.q, Blocked(a)) == [] && |BlockedPlaces(pcbs.q)| >= MAXPROC)
      ensures full ==> pcbs.q == old(pcbs.q) && pcbs.place == old(pcbs.place)
      ensures !full ==>
        && pcbs.q == Move(old(pcbs.q), old(pcbs.place), p, Blocked(a))
        && pcbs.place == old(pcbs.place)[p := Blocked(a)]
    {
      hide PcbTable.Valid, Sorted, Spare, Apart, Mirrors, Tagged, Unmarked, Billing.Exact, Kept, Billing.Chronological;
      hide Move, Get, BlockedPlaces;
      ghost var t, q, place := pcbs.table[..], pcbs.q, pcbs.place;
      TableSize(pcbs);
      full := asl.InsertBlocked(a, p);
      if full {
        Unchanged(t, pcbs.table[..], place, spans, since, saved);
      } else {
        BlockedFrame(t, pcbs.table[..], q, place, p, a, spans, since, saved);
      }
    }

    /** removeBlocked(a), or NULL; the process is on no list then. */
    method Unblock(a: int, ghost to: Place) returns (p: int)
      requires Wired() && IsSemAddress(a) && IsUnlinked(to)
      modifies asl, asl.sd, pcbs`q, pcbs`place, pcbs.table
      ensures Wired() && p == Head(old(Get(pcbs.q, Blocked(a))))
      ensures p == NULL ==> pcbs.q == old(pcbs.q) && pcbs.place == old(pcbs.place)
      ensures p != NULL ==>
        && IsPid(p) && pcbs.q == Move(old(pcbs.q), old(pcbs.place), p, to)
        && old(pcbs.place[p]) == Blocked(a) && pcbs.place == old(pcbs.place)[p := to]
    {
      hide PcbTable.Valid, Sorted, Spare, Apart, Mirrors, Tagged, Unmarked, Billing.Exact, Kept, Billing.Chronological;
      hide Move, Get;
      ghost var t, q, place := pcbs.table[..], pcbs.q, pcbs.place;
      TableSize(pcbs);
      p := asl.RemoveBlocked(a, to);
      if p == NULL {
        Unchanged(t, pcbs.table[..], place, spans, since, saved);
      } else {
        HeadIsThere(q, place, Blocked(a));
        UnblockedFrame(t, pcbs.table[..], q, place, p, to, spans, since, saved);
      }
    }

    /** outBlocked(p). */
    method OutBlocked(p: int, ghost to: Place)
      requires Wired() && IsPid(p) && pcbs.place[p].Blocked? && IsSemAddress(pcbs.place[p].address) && IsUnlinked(to)
      modifies asl, asl.sd, pcbs`q, pcbs`place, pcbs.table
      ensures Wired()
      ensures pcbs.q == Move(old(pcbs.q), old(pcbs.place), p, to) && pcbs.place == old(pcbs.place)[p := to]
    {
      hide PcbTable.Valid, Sorted, Spare, Apart, Mirrors, Tagged, Unmarked, Billing.Exact, Kept, Billing.Chronological;
      hide Move, Get;
      ghost var t, q, place := pcbs.table[..], pcbs.q, pcbs.place;
      TableSize(pcbs);
      var res := asl.OutBlocked(p, to);
      UnblockedFrame(t, pcbs.table[..], q, place, p, to, spans, since, saved);
    }

    /** removeBlocked(a), and the process found, if any, goes on the ready queue. */
    method WakeOne(a: int) returns (p: int)
      requires Wired() && Core(State()) && IsSemAddress(a)
      modifies `ready_q, `process_sb, asl, asl.sd, pcbs`q, pcbs`place, pcbs.table
      ensures Wired() && State() == WakeFirst(old(State()), a)
      ensures p == Head(old(Get(pcbs.q, Blocked(a)))) && (p == NULL || IsPid(p))
      ensures p == NULL <==> old(Get(pcbs.q, Blocked(a))) == []
    {
      hide Wired, Core, Get, Move, MoveTo, WakeFirst;
      ghost var k := State();
      Woken(k, a);
      p := Unblock(a, Dying);
      if p != NULL {
        if IsDevSem(a) {
          process_sb := process_sb - 1;
        }
        InsertReady(p);
      }
    }

    /**
      The rest of SYS3, SYS5 and SYS7 once the semaphore has been decremented: insertBlocked, the count
      of the device waiters, and ret_blocking. k is the state before the decrement.
     */
    method SleepOn(a: int, isDevice: bool, ghost k: Kernel)
      requires Valid() && Sound(k) && current_proc != NULL && isDevice == IsDevSem(a)
      requires IsSemAddress(a) && a in k.sem && (IsDevSem(a) || k.sem[a] <= 0)
      requires State() == AddTo(k, a, -1)
      modifies `ready_q, `current_proc, `v0, `saved, `process_sb, `status, `clock, `tod_start, `spans, `idleFrom
      modifies asl, asl.sd, pcbs`q, pcbs`place, pcbs.table
      ensures Valid() && State() == Sleep(k, a)
      ensures status != OutOfDescriptors ==> saved == Saving(old(saved), old(current_proc), old(v0)) && Restored()
      ensures old(spans) <= spans
      ensures status != OutOfDescriptors ==> BilledTo(spans, |old(spans)|, [old(current_proc)])
    {
      hide Wired, Inv, Get, Move, MoveTo, Dispatch, Quiet, Decided, BlockedPlaces;
      Asleep(k, a);
      var full := Block(a, current_proc);
      if full {
        status := OutOfDescriptors;
        return;
      }
      if isDevice {
        process_sb := process_sb + 1;
      }
      RetBlocking();
    }

    /** The caller is billed and gives up the processor. */
    method RetBlocking()
      requires Wired() && Inv(State()) && Cur(State()) == NULL && IsPid(current_proc)
      modifies `ready_q, `current_proc, `v0, `saved, `status, `clock, `tod_start, `spans, `idleFrom
      modifies pcbs`q, pcbs`place, pcbs.table
      ensures Valid() && State() == Dispatch(old(State()))
      ensures saved == Saving(old(saved), old(current_proc), old(v0)) && Restored()
      ensures current_proc != NULL ==> tod_start >= old(clock)
      ensures old(spans) <= spans && BilledTo(spans, |old(spans)|, [old(current_proc)])
    {
      hide Wired, Inv, Get, Dispatch, Cur;
      UpdateCpuUsage(current_proc);
      SaveState();
      current_proc := NULL;
      Scheduler();
    }

    // -------------------------------------------------------------- process tree and free list

    /** allocPcb(). The PCB has been billed nothing yet. */
    method Alloc(ghost to: Place) returns (p: int)
      requires Wired() && IsUnlinked(to)
      modifies `since, `saved, pcbs`pcbFree_h, pcbs`q, pcbs`place, pcbs.table
      ensures Wired() && p == Head(old(Get(pcbs.q, Free)))
      ensures p == NULL ==>
        pcbs.q == old(pcbs.q) && pcbs.place == old(pcbs.place) && since == old(since) && saved == old(saved)
      ensures p != NULL ==>
        && IsPid(p) && pcbs.q == Move(old(pcbs.q), old(pcbs.place), p, to)
        && old(pcbs.place[p]) == Free && pcbs.place == old(pcbs.place)[p := to]
        && p < |old(since)| && since == old(since)[p := |spans|] && saved == Saving(old(saved), p, 0)
    {
      hide PcbTable.Valid, Sorted, Spare, Apart, Mirrors, Tagged, Unmarked, Billing.Exact, Kept, Billing.Chronological;
      hide Move, Get;
      ghost var t, q, place := pcbs.table[..], pcbs.q, pcbs.place;
      TableSize(pcbs);
      p := pcbs.AllocPcb(to);
      if p == NULL {
        Unchanged(t, pcbs.table[..], place, spans, since, saved);
      } else {
        HeadIsThere(q, place, Free);
        AllocFrame(t, pcbs.table[..], q, place, p, to);
        Billing.ExactAlloc(t, pcbs.table[..], spans, since, p);
        KeptAnew(t, pcbs.table[..], saved, p);
        since := since[p := |spans|];
        saved := saved[p := 0];
      }
      Retailed(asl.sd[..], asl.asl, q, pcbs.q);
    }

    /** freePcb(p). */
    method GiveBack(p: int)
      requires Wired() && IsPid(p) && IsUnlinked(pcbs.place[p]) && pcbs.parent[p] == NULL && pcbs.kids[p] == []
      modifies pcbs`pcbFree_h, pcbs`q, pcbs`place, pcbs.table
      ensures Wired()
      ensures pcbs.q == Move(old(pcbs.q), old(pcbs.place), p, Free) && pcbs.place == old(pcbs.place)[p := Free]
    {
      hide PcbTable.Valid, Sorted, Spare, Apart, Mirrors, Tagged, Unmarked, Billing.Exact, Kept, Billing.Chronological;
      hide Move, Get;
      ghost var t, q, place := pcbs.table[..], pcbs.q, pcbs.place;
      TableSize(pcbs);
      pcbs.FreePcb(p);
      FreeFrame(t, pcbs.table[..], q, place, p);
      Retailed(asl.sd[..], asl.asl, q, pcbs.q);
      BooksFrame(t, pcbs.table[..], spans, since, saved);
    }

    /** insertChild(prnt, p). */
    method Adopt(prnt: int, p: int)
      requires Wired() && IsPid(prnt) && IsPid(p)
      requires pcbs.parent[p] == NULL && !pcbs.place[p].Free? && !pcbs.place[prnt].Free?
      modifies pcbs`parent, pcbs`kids, pcbs.table
      ensures Wired()
      ensures pcbs.parent == old(pcbs.parent)[p := prnt]
      ensures pcbs.kids == old(pcbs.kids)[prnt := [p] + old(pcbs.kids[prnt])]
    {
      hide Sorted, Spare, Apart, Mirrors, Tagged, Unmarked, Billing.Exact, Kept, Billing.Chronological;
      hide Threaded, Tree, Placed, Get;
      ghost var t := pcbs.table[..];
      pcbs.InsertChild(prnt, p);
      SemAddsFrame(t, pcbs.table[..], pcbs.place);
      BooksFrame(t, pcbs.table[..], spans, since, saved);
    }

    /** outChild(p). */
    method Orphan(p: int)
      requires Wired() && IsPid(p)
      modifies pcbs`parent, pcbs`kids, pcbs.table
      ensures Wired()
      ensures old(pcbs.parent)[p] == NULL ==> pcbs.parent == old(pcbs.parent) && pcbs.kids == old(pcbs.kids)
      ensures old(pcbs.parent)[p] != NULL ==>
        && IsPid(old(pcbs.parent)[p]) && pcbs.parent == old(pcbs.parent)[p := NULL]
        && pcbs.kids == old(pcbs.kids)[old(pcbs.parent)[p] := Remove(old(pcbs.kids[pcbs.parent[p]]), p)]
    {
      hide Sorted, Spare, Apart, Mirrors, Tagged, Unmarked, Billing.Exact, Kept, Billing.Chronological;
      hide Threaded, Tree, Placed, Get;
      ghost var t := pcbs.table[..];
      var res := pcbs.OutChild(p);
      SemAddsFrame(t, pcbs.table[..], pcbs.place);
      BooksFrame(t, pcbs.table[..], spans, since, saved);
    }

    /** removeChild(p). */
    method TakeChild(p: int) returns (c: int)
      requires Wired() && IsPid(p)
      modifies pcbs`parent, pcbs`kids, pcbs.table
      ensures Wired() && c == Head(old(pcbs.kids[p]))
      ensures c == NULL ==> pcbs.parent == old(pcbs.parent) && pcbs.kids == old(pcbs.kids)
      ensures c != NULL ==>
        && IsPid(c) && old(pcbs.parent)[c] == p && pcbs.parent == old(pcbs.parent)[c := NULL]
        && pcbs.kids == old(pcbs.kids)[p := Remove(old(pcbs.kids[p]), c)]
    {
      hide Sorted, Spare, Apart, Mirrors, Tagged, Unmarked, Billing.Exact, Kept, Billing.Chronological;
      hide Threaded, Tree, Placed, Get;
      ghost var t := pcbs.table[..];
      c := pcbs.RemoveChild(p);
      SemAddsFrame(t, pcbs.table[..], pcbs.place);
      BooksFrame(t, pcbs.table[..], spans, since, saved);
    }

    // -------------------------------------------------------------- SYS2

    /** insertProcQ(&b_queue, p). */
    method Doom(tail: int, p: int) returns (tail': int)
      requires Wired() && tail == Tail(Get(pcbs.q, Doomed)) && IsPid(p) && IsUnlinked(pcbs.place[p])
      modifies pcbs`q, pcbs`place, pcbs.table
      ensures Wired() && tail' == Tail(Get(pcbs.q, Doomed))
      ensures pcbs.q == Move(old(pcbs.q), old(pcbs.place), p, Doomed) && pcbs.place == old(pcbs.place)[p := Doomed]
    {
      hide PcbTable.Valid, Sorted, Spare, Apart, Mirrors, Tagged, Unmarked, Billing.Exact, Kept, Billing.Chronological;
      hide Move, Get;
      ghost var t, q, place := pcbs.table[..], pcbs.q, pcbs.place;
      TableSize(pcbs);
      tail' := pcbs.InsertProcQ(Doomed, tail, p);
      Rewired(t, pcbs.table[..], q, place, p, Doomed);
      GetAfterMove(q, place, p, Doomed, Ready);
      Retailed(asl.sd[..], asl.asl, q, pcbs.q);
      BooksFrame(t, pcbs.table[..], spans, since, saved);
    }

    /** removeProcQ(&b_queue). */
    method NextTarget(tail: int) returns (tail': int, p: int)
      requires Wired() && tail == Tail(Get(pcbs.q, Doomed))
      modifies pcbs`q, pcbs`place, pcbs.table
      ensures Wired() && tail' == Tail(Get(pcbs.q, Doomed)) && p == Head(old(Get(pcbs.q, Doomed)))
      ensures p == NULL ==> pcbs.q == old(pcbs.q) && pcbs.place == old(pcbs.place)
      ensures p != NULL ==>
        && IsPid(p) && pcbs.q == Move(old(pcbs.q), old(pcbs.place), p, Dying)
        && old(pcbs.place[p]) == Doomed && pcbs.place == old(pcbs.place)[p := Dying]
    {
      hide PcbTable.Valid, Sorted, Spare, Apart, Mirrors, Tagged, Unmarked, Billing.Exact, Kept, Billing.Chronological;
      hide Move, Get;
      ghost var t, q, place := pcbs.table[..], pcbs.q, pcbs.place;
      TableSize(pcbs);
      tail', p := pcbs.RemoveProcQ(Doomed, tail, Dying);
      if p != NULL {
        HeadIsThere(q, place, Doomed);
        Rewired(t, pcbs.table[..], q, place, p, Dying);
        GetAfterMove(q, place, p, Dying, Ready);
      } else {
        SemAddsFrame(t, pcbs.table[..], place);
      }
      Retailed(asl.sd[..], asl.asl, q, pcbs.q);
      BooksFrame(t, pcbs.table[..], spans, since, saved);
    }

    /** p->p_semAdd is the address p sleeps on, or null. */
    method SemAddOf(p: int) returns (a: int)
      requires Wired() && IsPid(p)
      ensures a == if pcbs.place[p].Blocked? then pcbs.place[p].address else 0
    {
      hide PcbTable.Valid, Sorted, Spare, Apart, Mirrors, Billing.Exact, Kept, Billing.Chronological, Get;
      TableSize(pcbs);
      a := pcbs.table[p].p_semAdd;
    }

    /** The body of the inner loop of syscall2. */
    method DoomChild(target: int, tail: int) returns (tail': int)
      requires Wired() && Inv(State()) && Cur(State()) == NULL && tail == Tail(Get(pcbs.q, Doomed))
      requires target == Target(State()) != NULL && KidsOf(State(), target) != []
      modifies `ready_q, `process_sb, `sem
      modifies asl, asl.sd, pcbs`q, pcbs`place, pcbs`parent, pcbs`kids, pcbs.table
      ensures Wired() && tail' == Tail(Get(pcbs.q, Doomed))
      ensures State() == KillChild(old(State()))
    {
      hide Wired, Inv, Get, Move, KillChild, Cur;
      ghost var k := State();
      ChildKilled(k);
      var child := TakeChild(target);
      var a := SemAddOf(child);
      if a != 0 {
        if IsDevSem(a) {
          process_sb := process_sb - 1;
        } else {
          sem := sem[a := sem[a] + 1];
        }
        OutBlocked(child, Running);
      } else {
        OutReady(child, Running);
      }
      tail' := Doom(tail, child);
    }

    /** The outer loop frees its target, whose children are all gone. */
    method FreeTarget(target: int)
      requires Wired() && Inv(State()) && target == Target(State()) != NULL && KidsOf(State(), target) == []
      modifies `process_count, pcbs`pcbFree_h, pcbs`q, pcbs`place, pcbs.table
      ensures Wired() && State() == KillFree(old(State()))
      ensures Get(pcbs.q, Doomed) == old(Get(pcbs.q, Doomed))
    {
      hide Wired, Get, Move, Placed, Linked, Rooted;
      ghost var k := State();
      Orphaned(k, target);
      GiveBack(target);
      process_count := process_count - 1;
    }

    /** One round of the outer loop of syscall2, for the target just taken. */
    method KillTarget(target: int, tail: int) returns (tail': int)
      requires Wired() && Inv(State()) && Cur(State()) == NULL && tail == Tail(Get(pcbs.q, Doomed))
      requires target == Target(State()) != NULL
      modifies `ready_q, `process_sb, `process_count, `sem
      modifies asl, asl.sd, pcbs, pcbs.table
      ensures Wired() && Inv(State()) && Cur(State()) == NULL && tail' == Tail(Get(pcbs.q, Doomed))
      ensures Get(pcbs.q, Dying) == [] && Inv(old(State())) && Kill(State()) == Kill(old(State()))
      ensures Count(pcbs.place, Standing) <= old(Count(pcbs.place, Standing))
      ensures Count(pcbs.place, Standing) == old(Count(pcbs.place, Standing)) ==>
        Get(pcbs.q, Doomed) == old(Get(pcbs.q, Doomed))
    {
      hide Wired, Inv, Get, KillChild, KillFree, Cur, Kill, Count;
      ghost var k := State();
      tail' := tail;
      KillRound(State());
      var empty := IsChildless(target);
      while !empty
        invariant Wired() && Inv(State()) && Cur(State()) == NULL && tail' == Tail(Get(pcbs.q, Doomed))
        invariant target == Target(State()) && (empty <==> KidsOf(State(), target) == [])
        invariant Kill(State()) == Kill(k)
        invariant Count(pcbs.place, Standing) <= Count(k.place, Standing)
        invariant Count(pcbs.place, Standing) == Count(k.place, Standing) ==> Get(pcbs.q, Doomed) == Get(k.q, Doomed)
        decreases Count(pcbs.place, Standing)
      {
        KillRound(State());
        tail' := DoomChild(target, tail');
        empty := IsChildless(target);
      }
      KillRound(State());
      FreeTarget(target);
    }

    /** emptyChild(p). */
    method IsChildless(p: int) returns (empty: bool)
      requires Wired() && IsPid(p) && |pcbs.kids| == MAXPROC
      ensures empty <==> pcbs.kids[p] == []
    {
      hide Sorted, Spare, Apart, Mirrors, Tagged, Unmarked, Billing.Exact, Kept, Billing.Chronological;
      hide Threaded, Tree, Placed, Get;
      Childless(pcbs.table[..], pcbs.parent, pcbs.kids, p);
      empty := pcbs.table[p].p_child == NULL;
    }

    /** SYS2: the current process and its descendants are freed. */
    method Syscall2()
      requires Valid() && Sound(State()) && current_proc != NULL
      modifies `ready_q, `current_proc, `v0, `process_count, `process_sb, `sem, `status, `clock, `tod_start, `idleFrom
      modifies asl, asl.sd, pcbs, pcbs.table
      ensures Valid() && State() == Terminate(old(State())) && Restored()
      ensures Sound(old(State())) && IsPid(Cur(old(State()))) && Ended(old(State()), State())
    {
      hide Wired, Inv, Get, Move, Kill, Dispatch, Quiet, Decided, Ended, Restored;
      ghost var k := State();
      Started(k);
      TerminateEffect(k);
      Orphan(current_proc);
      var b_queue := Doom(NULL, current_proc);
      assert State() == KillStart(k);
      KillAll(b_queue);
      current_proc := NULL;
      Scheduler();
    }

    /** The loops of syscall2. */
    method KillAll(tail: int)
      requires Wired() && Inv(State()) && Cur(State()) == NULL
      requires tail == Tail(Get(pcbs.q, Doomed)) && Get(pcbs.q, Dying) == []
      modifies `ready_q, `process_sb, `process_count, `sem
      modifies asl, asl.sd, pcbs, pcbs.table
      ensures Wired() && Inv(old(State())) && State() == Kill(old(State()))
    {
      hide Wired, Inv, Get, Move, KillPop, Cur, Kill, Count;
      ghost var k := State();
      var b_queue, target := TakeTarget(tail);
      while target != NULL
        invariant Wired() && Inv(State()) && Cur(State()) == NULL && b_queue == Tail(Get(pcbs.q, Doomed))
        invariant Kill(State()) == Kill(k)
        invariant target == Target(State())
        invariant target == NULL ==> Get(pcbs.q, Doomed) == []
        decreases Count(pcbs.place, Standing), |Get(pcbs.q, Doomed)|, target != NULL
      {
        b_queue := KillTarget(target, b_queue);
        b_queue, target := TakeTarget(b_queue);
      }
      KillDone(State());
    }

    /** The condition of the outer loop. */
    method TakeTarget(tail: int) returns (tail': int, target: int)
      requires Wired() && Inv(State()) && Cur(State()) == NULL
      requires tail == Tail(Get(pcbs.q, Doomed)) && Get(pcbs.q, Dying) == []
      modifies pcbs`q, pcbs`place, pcbs.table
      ensures Wired() && Inv(State()) && Cur(State()) == NULL && tail' == Tail(Get(pcbs.q, Doomed))
      ensures Inv(old(State())) && Kill(State()) == Kill(old(State()))
      ensures target == Target(State())
      ensures target == NULL ==> Get(pcbs.q, Doomed) == [] && pcbs.q == old(pcbs.q) && pcbs.place == old(pcbs.place)
      ensures target != NULL ==>
        && |Get(pcbs.q, Doomed)| < old(|Get(pcbs.q, Doomed)|)
        && Count(pcbs.place, Standing) == old(Count(pcbs.place, Standing))
    {
      hide Wired, Inv, Get, Move, Cur, Kill, Count, KillPop;
      TargetTaken(State());
      tail', target := NextTarget(tail);
    }

    // -------------------------------------------------------------- the other system calls

    /** SYS1: a free PCB becomes a ready child of the caller; v0 is -1 if there is none. */
    method Syscall1(child_v0: int, ghost input: Input)
      requires Valid() && Sound(State()) && current_proc != NULL
      requires input.child_v0 == child_v0
      modifies `ready_q, `process_count, `birth, `births, `clock, `tod_start, `spans, `since, `saved, `v0
      modifies pcbs, pcbs.table
      ensures Valid() && State() == Create(old(State()))
      ensures Delivered(old(State()), SysCreate, State(), input, old(saved), saved, v0)
      ensures old(spans) <= spans && BilledTo(spans, |old(spans)|, [old(current_proc)])
      ensures Dated(old(since), since, old(State()), SysCreate, |old(spans)|)
    {
      hide Wired, Inv, Get, Move, Create, Quiet, Dated;
      Created(State());
      ghost var k, was := State(), saved;
      var child := Spawn(child_v0);
      v0 := if child == NULL then -1 else 0;
      UpdateCpuUsage(current_proc);
      InRange();
      CreateDelivers(k, State(), input, was, saved, v0);
    }

    /** A child for the caller from the free list, ready, counted and in the tree; NULL if there is none. */
    method Spawn(child_v0: int) returns (child: int)
      requires Valid() && Sound(State()) && current_proc != NULL
      modifies `ready_q, `process_count, `birth, `births, `since, `saved, pcbs, pcbs.table
      ensures Wired() && State() == Create(old(State())) && child == Head(old(Get(pcbs.q, Free)))
      ensures saved == if child == NULL then old(saved) else Saving(old(saved), child, child_v0)
      ensures Dated(old(since), since, old(State()), SysCreate, |spans|)
    {
      hide Wired, Inv, Get, Move, Create, Quiet, Decided, Saving, Dated;
      Created(State());
      child := AllocChild(child_v0);
      DatesChild(old(since), since, old(State()), child, |spans|);
      if child != NULL {
        InsertReady(child);
        Adopt(current_proc, child);
        CountBirth(child);
      }
    }

    /** A PCB whose state is the one the caller gave. */
    method AllocChild(child_v0: int) returns (p: int)
      requires Wired()
      modifies `since, `saved, pcbs`pcbFree_h, pcbs`q, pcbs`place, pcbs.table
      ensures Wired() && p == Head(old(Get(pcbs.q, Free)))
      ensures p == NULL ==>
        pcbs.q == old(pcbs.q) && pcbs.place == old(pcbs.place) && since == old(since) && saved == old(saved)
      ensures p != NULL ==>
        && IsPid(p) && pcbs.q == Move(old(pcbs.q), old(pcbs.place), p, Dying)
        && old(pcbs.place[p]) == Free && pcbs.place == old(pcbs.place)[p := Dying]
        && p < |old(since)| && since == old(since)[p := |spans|] && saved == Saving(old(saved), p, child_v0)
    {
      hide Wired, Get, Move;
      p := Alloc(Dying);
      if p != NULL {
        SetV0(p, child_v0);
      }
    }

    /** process_count goes up; the new process is the youngest. */
    method CountBirth(child: int)
      requires Wired() && IsPid(child) && |birth| == MAXPROC
      modifies `process_count, `birth, `births
      ensures Wired() && process_count == old(process_count) + 1
      ensures birth == old(birth)[child := old(births)] && births == old(births) + 1
    {
      hide Asl.Valid, Unmarked, Billing.Exact, Kept, Billing.Chronological, Get;
      process_count := process_count + 1;
      birth, births := birth[child := births], births + 1;
    }

    /** SYS3. */
    method Syscall3(a: int, ghost input: Input)
      requires Valid() && Sound(State()) && current_proc != NULL && input.v0 == v0
      requires a == 0 || (IsSemAddress(a) && a in sem)
      modifies `ready_q, `current_proc, `v0, `process_count, `process_sb, `sem, `status, `clock, `tod_start, `idleFrom
      modifies `spans, `saved, asl, asl.sd, pcbs, pcbs.table
      ensures Valid() && State() == Passeren(old(State()), a)
      ensures status != OutOfDescriptors ==>
        Delivered(old(State()), SysP(a), State(), input, old(saved), saved, v0)
      ensures old(spans) <= spans
      ensures status != OutOfDescriptors ==>
        BilledTo(spans, |old(spans)|, if a == 0 then [] else [old(current_proc)])
    {
      hide Wired, Inv, Get, Move, Sleep, Terminate, Passeren, Quiet, Decided, Ended;
      ghost var k := State();
      PasserenCases(k, a);
      ghost var was := saved;
      if a == 0 {
        Syscall2();
        EndDelivers(k, SysP(a), State(), input, saved, v0);
        return;
      }
      sem := sem[a := sem[a] - 1];
      if sem[a] < 0 {
        SleepOn(a, IsDevSem(a), k);
        if status != OutOfDescriptors {
          YieldDelivers(k, SysP(a), State(), input, was, saved, v0);
        }
        return;
      }
      UpdateCpuUsage(current_proc);
      InRange();
      StayDelivers(k, SysP(a), State(), input, saved, v0);
    }

    /** SYS4. */
    method Syscall4(a: int, ghost input: Input)
      requires Valid() && Sound(State()) && current_proc != NULL && input.v0 == v0
      requires a == 0 || (IsSemAddress(a) && a in sem)
      modifies `ready_q, `current_proc, `v0, `process_count, `process_sb, `sem, `status, `clock, `tod_start, `idleFrom
      modifies `spans, `saved, asl, asl.sd, pcbs, pcbs.table
      ensures Valid() && State() == Verhogen(old(State()), a)
      ensures Delivered(old(State()), SysV(a), State(), input, old(saved), saved, v0)
      ensures old(spans) <= spans && BilledTo(spans, |old(spans)|, if a == 0 then [] else [old(current_proc)])
    {
      hide Wired, Inv, Core, Get, Move, Terminate, WakeFirst, Verhogen, Quiet, Decided, Ended;
      ghost var k := State();
      VerhogenCases(k, a);
      if a == 0 {
        Syscall2();
        EndDelivers(k, SysV(a), State(), input, saved, v0);
        return;
      }
      sem := sem[a := sem[a] + 1];
      if sem[a] <= 0 {
        var p := WakeOne(a);
      }
      UpdateCpuUsage(current_proc);
      InRange();
      StayDelivers(k, SysV(a), State(), input, saved, v0);
    }

    /** SYS5. */
    method Syscall5(intlNo: int, dnum: int, a3: int, ghost input: Input)
      requires Valid() && Sound(State()) && current_proc != NULL && input.v0 == v0
      modifies `ready_q, `current_proc, `v0, `process_count, `process_sb, `sem, `status, `clock, `tod_start, `idleFrom
      modifies `spans, `saved, asl, asl.sd, pcbs, pcbs.table
      ensures Valid() && State() == WaitIO(old(State()), intlNo, dnum, a3)
      ensures status != OutOfDescriptors ==>
        Delivered(old(State()), SysIO(intlNo, dnum, a3), State(), input, old(saved), saved, v0)
      ensures old(spans) <= spans
      ensures status != OutOfDescriptors ==>
        BilledTo(spans, |old(spans)|, if GoodDevice(intlNo, dnum, a3) then [old(current_proc)] else [])
    {
      hide Wired, Inv, Get, Move, Sleep, Terminate, Ended;
      ghost var k, was, e := State(), saved, SysIO(intlNo, dnum, a3);
      if intlNo < 3 || intlNo > 7 {
        Syscall2();
        EndDelivers(k, e, State(), input, saved, v0);
      } else if dnum < 0 || dnum > 7 {
        Syscall2();
        EndDelivers(k, e, State(), input, saved, v0);
      } else if intlNo < 7 {
        DeviceCell(k, intlNo, dnum, 0);
        var a := SemMat(intlNo - 3, dnum);
        sem := sem[a := sem[a] - 1];
        SleepOn(a, true, k);
        if status != OutOfDescriptors {
          YieldDelivers(k, e, State(), input, was, saved, v0);
        }
      } else if a3 != 1 && a3 != 0 {
        Syscall2();
        EndDelivers(k, e, State(), input, saved, v0);
      } else {
        DeviceCell(k, intlNo, dnum, a3);
        var a := SemMat(4 + a3, dnum);
        sem := sem[a := sem[a] - 1];
        SleepOn(a, true, k);
        if status != OutOfDescriptors {
          YieldDelivers(k, e, State(), input, was, saved, v0);
        }
      }
    }

    /** SYS7. */
    method Syscall7(ghost input: Input)
      requires Valid() && Sound(State()) && current_proc != NULL && input.v0 == v0
      modifies `ready_q, `current_proc, `v0, `process_count, `process_sb, `sem, `status, `clock, `tod_start, `idleFrom
      modifies `spans, `saved, asl, asl.sd, pcbs, pcbs.table
      ensures Valid() && State() == WaitClock(old(State()))
      ensures SYS_TIMER in old(sem) && Slept(old(State()), State(), SYS_TIMER)
      ensures status != OutOfDescriptors ==>
        Delivered(old(State()), SysClock, State(), input, old(saved), saved, v0)
      ensures old(spans) <= spans
      ensures status != OutOfDescriptors ==> BilledTo(spans, |old(spans)|, [old(current_proc)])
    {
      hide Wired, Inv, Get, Move, Sleep, Slept;
      ghost var k, was := State(), saved;
      DeviceCell(k, 3, 0, 0);
      SleepEffect(k, SYS_TIMER);
      sem := sem[SYS_TIMER := sem[SYS_TIMER] - 1];
      SleepOn(SYS_TIMER, true, k);
      if status != OutOfDescriptors {
        YieldDelivers(k, SysClock, State(), input, was, saved, v0);
      }
    }

    /** SYS6, SYS8 and a pass up: the caller is billed and goes on. */
    method BackToCaller(asked: Asked)
      requires Valid() && Sound(State()) && current_proc != NULL
      modifies `clock, `tod_start, `spans, `v0, pcbs.table
      ensures Valid() && State() == old(State())
      ensures asked.Other? ==> v0 == asked.answer
      ensures asked.CpuTime? ==> TimeTold()
      ensures old(spans) <= spans && BilledTo(spans, |old(spans)|, [old(current_proc)])
    {
      hide Wired, Inv, Get;
      SemaphoreOf(State(), 0);
      UpdateCpuUsage(current_proc);
      match asked {
        case CpuTime => ReadTime();
        case Other(answer) => v0 := answer;
      }
    }

    /** v0 is exactly what the running process has been billed since its creation. */
    ghost predicate TimeTold()
      reads `current_proc, `v0, `spans, `since
    {
      0 <= current_proc < |since| && since[current_proc] <= |spans| &&
      v0 == Billing.Billed(spans[since[current_proc]..], current_proc)
    }

    /** caller->reg_v0 = current_proc->p_time. */
    method ReadTime()
      requires Wired() && IsPid(current_proc)
      modifies `v0
      ensures Wired() && TimeTold()
    {
      hide Sorted, Spare, Apart, Mirrors, Tagged, Unmarked, Billing.Chronological, Get;
      TableSize(pcbs);
      v0 := pcbs.table[current_proc].p_time;
    }

    // -------------------------------------------------------------- interrupts.c

    /** The end of a time slice. */
    method LocalTimer()
      requires Valid() && Sound(State()) && current_proc != NULL
      modifies `ready_q, `current_proc, `v0, `saved, `status, `clock, `tod_start, `idleFrom
      modifies pcbs`q, pcbs`place, pcbs.table
      ensures Valid() && State() == Preempt(old(State()))
      ensures saved == Saving(old(saved), old(current_proc), old(v0)) && Restored()
      ensures current_proc != NULL ==> tod_start >= old(clock)
    {
      hide Wired, Inv, Get, Move, Dispatch, Quiet, Decided;
      Preempted(State());
      SaveState();
      InsertReady(current_proc);
      current_proc := NULL;
      Scheduler();
    }

    /** STCK(tod_start) on an interrupt: the time since a WAIT goes to nobody. */
    method StampInterrupt()
      requires Wired() && (status == Waiting ==> tod_start <= idleFrom <= clock)
      modifies `clock, `tod_start, `spans
      ensures Wired()
      ensures old(spans) <= spans && BilledTo(spans, |old(spans)|, Idler(old(status)))
      ensures old(status) == Waiting ==> IdleAt(spans, |old(spans)|, old(idleFrom), old(clock))
      ensures old(clock) <= tod_start <= clock
    {
      hide Wired;
      if status == Waiting {
        NoteIdle();
      } else {
        StampTod();
      }
    }

    method NoteIdle()
      requires Wired() && tod_start <= idleFrom <= clock
      modifies `clock, `tod_start, `spans
      ensures Wired() && old(clock) <= tod_start <= clock
      ensures old(spans) <= spans && BilledTo(spans, |old(spans)|, [NULL])
      ensures IdleAt(spans, |old(spans)|, old(idleFrom), old(clock))
    {
      hide Asl.Valid, Unmarked, Billing.Exact, Kept, Billing.Chronological, Get;
      TableSize(pcbs) by {
        assert asl.pcbs == pcbs && asl.Valid();
        AslTable(asl);
      }
      var now := STCK();
      ghost var s := Billing.Span(NULL, idleFrom, now);
      Billing.ExactAppend(pcbs.table[..], pcbs.table[..], spans, since, s);
      Billing.ChronologicalAppend(spans, start, tod_start, s, now);
      tod_start := now;
      spans := spans + [s];
    }

    /** The interval timer: everybody who waits for the clock becomes ready. */
    method TimerTick()
      requires Valid() && Sound(State()) && (status == Executing || status == Waiting)
      modifies `ready_q, `current_proc, `v0, `process_count, `process_sb, `sem, `status, `clock, `tod_start, `idleFrom
      modifies `spans, asl, asl.sd, pcbs, pcbs.table
      ensures Valid() && State() == Tick(old(State()))
      ensures if old(current_proc) == NULL then Restored() else v0 == old(v0)
      ensures old(spans) <= spans
      ensures BilledTo(spans, |old(spans)|, Idler(old(status)) + old(Get(pcbs.q, Blocked(SYS_TIMER))))
      ensures old(status) == Waiting ==> IdleAt(spans, |old(spans)|, old(idleFrom), old(clock))
    {
      hide Wired, Inv, Core, Get, Move, Dispatch, Quiet, Drain, Resume, Decided;
      ghost var k := State();
      TickReady(k);
      ghost var before, was := spans, status;
      StampInterrupt();
      ghost var stamped := spans;
      ghost var waiting := Get(pcbs.q, Blocked(SYS_TIMER));
      WakeSleepers();
      BilledMore(stamped, spans, |before|, Idler(was), waiting);
      ResumeCaller();
    }

    /** Everybody who waits for the clock is woken, and its semaphore starts again from 0. */
    method WakeSleepers()
      requires Wired() && Core(State())
      modifies `ready_q, `process_sb, `sem, `clock, `tod_start, `spans
      modifies asl, asl.sd, pcbs`q, pcbs`place, pcbs.table
      ensures Wired() && Core(old(State()))
      ensures var k := Drain(old(State()), SYS_TIMER); State() == k.(sem := k.sem[SYS_TIMER := 0])
      ensures old(spans) <= spans && BilledTo(spans, |old(spans)|, old(Get(pcbs.q, Blocked(SYS_TIMER))))
    {
      hide Wired, Core, Drain;
      DrainTimer();
      sem := sem[SYS_TIMER := 0];
    }

    /** The end of an interrupt: back to whoever was interrupted, or else the scheduler. */
    method ResumeCaller()
      requires Wired() && Inv(State()) && current_proc == Cur(State())
      requires (status == Executing && current_proc != NULL) || (status == Waiting && current_proc == NULL)
      modifies `ready_q, `current_proc, `v0, `status, `clock, `tod_start, `idleFrom
      modifies pcbs`q, pcbs`place, pcbs.table
      ensures Valid() && State() == Resume(old(State()))
      ensures if old(current_proc) == NULL then Restored() else v0 == old(v0)
      ensures tod_start >= old(clock)
    {
      hide Wired, Inv, Get, Dispatch;
      StampTod();
      if current_proc == NULL {
        Scheduler();
      }
    }

    /** The loop of the tick. Whoever is woken is billed for it. */
    method DrainTimer()
      requires Wired() && Core(State())
      modifies `ready_q, `process_sb, `clock, `tod_start, `spans
      modifies asl, asl.sd, pcbs`q, pcbs`place, pcbs.table
      ensures Wired() && Core(old(State())) && State() == Drain(old(State()), SYS_TIMER)
      ensures old(spans) <= spans && BilledTo(spans, |old(spans)|, old(Get(pcbs.q, Blocked(SYS_TIMER))))
    {
      hide Wired, Core, Get, Move, Drain, WakeFirst, BilledTo;
      ghost var k := State();
      ghost var waiting, n, i := Get(pcbs.q, Blocked(SYS_TIMER)), |spans|, 0;
      NothingBilled(spans);
      DrainTurn(State());
      var proc := WakeOne(SYS_TIMER);
      DrainTurn(State());
      while proc != NULL
        invariant Wired() && Core(State()) && Drain(State(), SYS_TIMER) == Drain(k, SYS_TIMER)
        invariant proc == NULL || IsPid(proc)
        invariant 0 <= i <= |waiting| && n <= |spans| && BilledTo(spans, n, waiting[..i]) && old(spans) <= spans
        invariant if proc == NULL then i == |waiting|
                  else i < |waiting| && proc == waiting[i] && Get(pcbs.q, Blocked(SYS_TIMER)) == waiting[i + 1..]
        invariant proc == NULL ==> Drain(State(), SYS_TIMER) == State()
        decreases |Get(pcbs.q, Blocked(SYS_TIMER))| + if proc != NULL then 1 else 0
      {
        ghost var before := spans;
        UpdateCpuUsage(proc);
        OneMoreBilled(before, spans, n, waiting, i);
        i := i + 1;
        DrainTurn(State());
        proc := WakeOne(SYS_TIMER);
        DrainTurn(State());
      }
      assert waiting[..i] == waiting;
    }

    /** A device, or a sub-device of a terminal, has finished with this status. */
    method DeviceInterrupt(intln: int, devno: int, tran: int, reg_status: int)
      requires Valid() && Sound(State()) && (status == Executing || status == Waiting)
      requires GoodDevice(intln, devno, tran)
      modifies `ready_q, `current_proc, `v0, `process_count, `process_sb, `sem, `status, `clock, `tod_start, `idleFrom
      modifies `spans, `saved, asl, asl.sd, pcbs, pcbs.table
      ensures Valid() && State() == DeviceDone(old(State()), intln, devno, tran)
      ensures var p := Head(old(Get(pcbs.q, Blocked(IoAddress(intln, devno, 1 - tran)))));
        saved == if p == NULL then old(saved) else Saving(old(saved), p, reg_status)
      ensures if old(current_proc) == NULL then Restored() else v0 == old(v0)
      ensures old(spans) <= spans
      ensures BilledTo(spans, |old(spans)|,
                Idler(old(status)) + FirstOf(old(Get(pcbs.q, Blocked(IoAddress(intln, devno, 1 - tran))))))
      ensures old(status) == Waiting ==> IdleAt(spans, |old(spans)|, old(idleFrom), old(clock))
    {
      hide Wired, Inv, Core, Get, Move, Dispatch, Quiet, Decided, WakeFirst, Resume, AddTo, Restored, Saving;
      DeviceWoken(State(), intln, devno, tran);
      ghost var before, was := spans, status;
      StampInterrupt();
      ghost var stamped := spans;
      var p := WakeDevice(if intln < 7 then SemMat(intln - 3, devno) else SemMat(5 - tran, devno), reg_status);
      BilledMore(stamped, spans, |before|, Idler(was),
                 FirstOf(old(Get(pcbs.q, Blocked(IoAddress(intln, devno, 1 - tran))))));
      ResumeCaller();
    }

    /** The V on a device's semaphore. */
    method WakeDevice(a: int, reg_status: int) returns (p: int)
      requires Wired() && Core(State()) && IsSemAddress(a) && a in sem
      modifies `ready_q, `process_sb, `sem, `clock, `tod_start, `spans, `saved
      modifies asl, asl.sd, pcbs`q, pcbs`place, pcbs.table
      ensures Wired() && State() == AddTo(WakeFirst(old(State()), a), a, 1)
      ensures p == Head(old(Get(pcbs.q, Blocked(a))))
      ensures saved == if p == NULL then old(saved) else Saving(old(saved), p, reg_status)
      ensures old(spans) <= spans && BilledTo(spans, |old(spans)|, FirstOf(old(Get(pcbs.q, Blocked(a)))))
    {
      hide Wired, Core, Get, WakeFirst;
      WakeKeepsCells(State(), a);
      p := WakeOne(a);
      sem := sem[a := sem[a] + 1];
      if p != NULL {
        Report(p, reg_status);
      }
    }

    /** The woken process finds the device's status in v0, and is billed for the wake-up. */
    method Report(p: int, reg_status: int)
      requires Wired() && IsPid(p)
      modifies `clock, `tod_start, `spans, `saved, pcbs.table
      ensures Wired() && saved == Saving(old(saved), p, reg_status)
      ensures |spans| == |old(spans)| + 1 && old(spans) <= spans && spans[|old(spans)|].pid == p
    {
      hide Wired;
      SetV0(p, reg_status);
      UpdateCpuUsage(p);
    }

    method SetV0(p: int, value: int)
      requires Wired() && IsPid(p)
      modifies `saved, pcbs.table
      ensures Wired() && pcbs.table.Length == |saved| == MAXPROC
      ensures saved == Saving(old(saved), p, value) && pcbs.table[p].reg_v0 == value
    {
      hide Sorted, Spare, Apart, Mirrors, Tagged, Unmarked, Billing.Exact, Kept, Billing.Chronological;
      hide Placed, Threaded, Tree;
      ghost var t := pcbs.table[..];
      pcbs.SetV0(p, value);
      SemAddsFrame(t, pcbs.table[..], pcbs.place);
      TimesFrame(t, pcbs.table[..], spans, since);
      KeptAnew(t, pcbs.table[..], saved, p);
      KeptSize(t, saved);
      saved := saved[p := value];
    }

    // -------------------------------------------------------------- exceptions.c

    /** syscall_handler, and PassOrDie: the caller's own doing. */
    method SyscallHandler(e: Event, input: Input)
      requires Valid() && Sound(State()) && Enabled(State(), e) && input.v0 == v0
      requires !e.Timeslice? && !e.ClockTick? && !e.DeviceInt?
      modifies `ready_q, `current_proc, `v0, `process_count, `process_sb, `sem, `status, `clock, `tod_start, `idleFrom
      modifies `spans, `since, `saved, `birth, `births, asl, asl.sd, pcbs, pcbs.table
      ensures Sound(old(State())) && Enabled(old(State()), e)
      ensures Valid() && State() == Step(old(State()), e) && Sound(State())
      ensures Delivered(old(State()), e, State(), input, old(saved), saved, v0)
      ensures e.SysOther? && input.asked.CpuTime? ==> TimeTold()
      ensures old(spans) <= spans && BilledTo(spans, |old(spans)|, Idler(old(status)) + Handled(old(State()), e))
      ensures old(status) == Waiting ==> IdleAt(spans, |old(spans)|, old(idleFrom), old(clock))
      ensures Dated(old(since), since, old(State()), e, |old(spans)|)
    {
      hide Wired, Inv, Core, Get, Quiet, Passeren, Verhogen, WaitIO, WaitClock, Preempt, Tick, DeviceDone, Create;
      hide Terminate, BilledTo, IdleAt, Delivered, TimeTold, Ended, Slept;
      StepSound(State(), e);
      Interrupted(State());
      NothingBilled(spans);
      ghost var k, h := State(), Handled(State(), e);
      assert [] + h == h;
      match e {
        case SysCreate => Syscall1(input.child_v0, input);
        case SysTerminate => Syscall2(); EndDelivers(k, e, State(), input, saved, v0);
        case SysP(a) => Syscall3(a, input);
        case SysV(a) => Syscall4(a, input);
        case SysIO(line, dev, a3) => Syscall5(line, dev, a3, input);
        case SysClock => Syscall7(input);
        case SysOther => BackToCaller(input.asked); InRange(); StayDelivers(k, e, State(), input, saved, v0);
      }
    }

    /** interrupt_handler, once it is known which interrupt it is. */
    method InterruptHandler(e: Event, input: Input)
      requires Valid() && Sound(State()) && Enabled(State(), e) && input.v0 == v0
      requires e.Timeslice? || e.ClockTick? || e.DeviceInt?
      modifies `ready_q, `current_proc, `v0, `process_count, `process_sb, `sem, `status, `clock, `tod_start, `idleFrom
      modifies `spans, `since, `saved, `birth, `births, asl, asl.sd, pcbs, pcbs.table
      ensures Sound(old(State())) && Enabled(old(State()), e)
      ensures Valid() && State() == Step(old(State()), e) && Sound(State())
      ensures Delivered(old(State()), e, State(), input, old(saved), saved, v0)
      ensures e.SysOther? && input.asked.CpuTime? ==> TimeTold()
      ensures old(spans) <= spans && BilledTo(spans, |old(spans)|, Idler(old(status)) + Handled(old(State()), e))
      ensures old(status) == Waiting ==> IdleAt(spans, |old(spans)|, old(idleFrom), old(clock))
      ensures Dated(old(since), since, old(State()), e, |old(spans)|)
    {
      hide Wired, Inv, Core, Get, Quiet, Passeren, Verhogen, WaitIO, WaitClock, Preempt, Tick, DeviceDone, Create;
      hide Terminate, BilledTo, IdleAt, Delivered, TimeTold;
      StepSound(State(), e);
      Interrupted(State());
      NothingBilled(spans);
      ghost var k, was, h := State(), saved, Handled(State(), e);
      assert [] + h == h;
      match e {
        case Timeslice => LocalTimer(); YieldDelivers(k, e, State(), input, was, saved, v0);
        case ClockTick => TimerTick(); InRange(); StayDelivers(k, e, State(), input, saved, v0);
        case DeviceInt(line, dev, tran) =>
          DeviceInterrupt(line, dev, tran, input.reg_status);
          InRange();
          DeviceDelivers(k, e, State(), input, was, saved, v0);
      }
    }

    /** The handler of an exception, after whoever was running has been billed. */
    method HandleException(e: Event, input: Input)
      requires Valid() && Sound(State()) && Enabled(State(), e) && input.v0 == v0
      modifies `ready_q, `current_proc, `v0, `process_count, `process_sb, `sem, `status, `clock, `tod_start, `idleFrom
      modifies `spans, `since, `saved, `birth, `births, asl, asl.sd, pcbs, pcbs.table
      ensures Sound(old(State())) && Enabled(old(State()), e)
      ensures Valid() && State() == Step(old(State()), e) && Sound(State())
      ensures Effect(old(State()), e, State()) && Delivered(old(State()), e, State(), input, old(saved), saved, v0)
      ensures e.SysOther? && input.asked.CpuTime? ==> TimeTold()
      ensures old(spans) <= spans && BilledTo(spans, |old(spans)|, Idler(old(status)) + Handled(old(State()), e))
      ensures old(status) == Waiting ==> IdleAt(spans, |old(spans)|, old(idleFrom), old(clock))
      ensures Dated(old(since), since, old(State()), e, |old(spans)|)
    {
      hide Wired, Inv, Core, Get, Quiet, Step, Handled, Dated;
      hide Terminate, BilledTo, IdleAt, Effect, Delivered, Decided, TimeTold, Enabled;
      StepEffect(State(), e);
      if e.Timeslice? || e.ClockTick? || e.DeviceInt? {
        InterruptHandler(e, input);
      } else {
        SyscallHandler(e, input);
      }
    }

    /** The running process has a PCB. */
    lemma InRange()
      requires Valid()
      ensures Cur(State()) == current_proc && (current_proc != NULL ==> 0 <= current_proc < |saved|)
    {
      hide Sorted, Spare, Apart, Mirrors, Tagged, Unmarked, Billing.Exact, Billing.Chronological;
      TableSize(pcbs);
      if current_proc != NULL {
        HeadIsThere(pcbs.q, pcbs.place, Running);
      }
    }

    /** Whoever was running is billed for the time up to the exception. */
    method BillRunning()
      requires Valid() && (current_proc != NULL ==> IsPid(current_proc) && status != Waiting)
      modifies `clock, `tod_start, `spans, pcbs.table
      ensures Valid() && State() == old(State()) && old(spans) <= spans && clock >= old(clock)
      ensures BilledTo(spans, |old(spans)|, if current_proc == NULL then [] else [current_proc])
      ensures current_proc == NULL ==> clock == old(clock)
      ensures current_proc != NULL ==>
        |spans| > |old(spans)| && var s := spans[|old(spans)|];
        s.from == old(tod_start) && old(clock) <= s.to <= clock
    {
      hide Wired, Get;
      if current_proc != NULL {
        UpdateCpuUsage(current_proc);
      }
    }

    /**
      exceHandler: whoever was running is billed, and the exception goes to its handler. For every
      event the abstract state makes the step of the state machine, the invariant of all runs holds
      again, and the bills are exactly those of Charges, the first of them for the time up to the event.
     */
    method ExceHandler(e: Event, input: Input)
      requires Valid() && Sound(State()) && Enabled(State(), e)
      modifies `ready_q, `current_proc, `v0, `process_count, `process_sb, `sem, `status, `clock, `tod_start, `idleFrom
      modifies `spans, `since, `saved, `birth, `births, asl, asl.sd, pcbs, pcbs.table
      ensures Sound(old(State())) && Enabled(old(State()), e)
      ensures Valid() && State() == Step(old(State()), e) && Sound(State()) && clock >= old(clock)
      ensures Effect(old(State()), e, State()) && Delivered(old(State()), e, State(), input, old(saved), saved, v0)
      ensures e.SysOther? && input.asked.CpuTime? ==> TimeTold()
      ensures old(spans) <= spans && BilledTo(spans, |old(spans)|, Charges(old(State()), e))
      ensures |spans| > |old(spans)| && var s := spans[|old(spans)|];
        s.from == (if old(status) == Waiting then old(clock) else old(tod_start)) && old(clock) <= s.to <= clock
      ensures Dated(old(since), since, old(State()), e, |old(spans)| + 1)
    {
      hide Wired, Sound, Enabled, Get, Step, Handled, Dated, Effect, Delivered, TimeTold;
      ghost var k, was, before := State(), status, spans;
      Arrival(k, e);
      BillRunning();
      ghost var entered, first := spans, if was == Waiting then [] else [Cur(k)];
      v0 := input.v0;
      HandleException(e, input);
      BilledMore(entered, spans, |before|, first, Idler(was) + Handled(k, e));
      assert first + (Idler(was) + Handled(k, e)) == Charges(k, e);
      DatedAnyhow(old(since), since, k, e, |entered|, |before| + 1);
      SpansInPast();
    }

    lemma SpansInPast()
      requires Wired()
      ensures forall i :: 0 <= i < |spans| ==> spans[i].to <= tod_start <= clock
    {}

    /** main(): the tables, the globals and the first dispatch. */
    method BootMachine(memory: map<int, int>)
      requires Startable(memory) && clock >= 0
      requires asl.pcbs == pcbs && asl.Valid() && AllFreeIn(pcbs.q, pcbs.place)
      requires pcbs.parent == Nulls() && pcbs.kids == Kidless()
      requires forall p :: IsPid(p) ==> Blank(pcbs.table[p])
      modifies `process_count, `status, `sem, `birth, `births, `root, `ready_q, `tod_start, `spans, `start, `idleFrom
      modifies `since, `saved, `current_proc, `v0, `process_sb, `clock, pcbs, pcbs.table
      ensures Valid() && Startable(sem) && State() == Boot(sem) && Zeroed(memory, sem) && Sound(State())
      ensures spans == [] && old(clock) <= start == tod_start <= clock
    {
      hide Wired, Move, Get, Booted, Nulls, Kidless, Zeros, AllFreeIn, Placed, Startable, Zeroed, Cur;
      hide Dispatch, Inv, Quiet;
      InitKer(memory);
      BootedInv(sem);
      BootSound(sem);
      Scheduler();
      BootRuns(sem);
      OpenBooks();
    }

    /**
      An interrupt, from the registers on: the machine stops, or makes the step of what the interrupt is taken
      for. Excluded is where the code leaves its own data: a time slice that ends in a WAIT, line 0, and a
      terminal line without a terminal.
     */
    method Interrupt(cause: nat, devword: seq<nat>, transm_status: seq<nat>, recv_status: seq<nat>,
                     dtp_status: seq<seq<nat>>, caller_v0: int)
      returns (d: Decision)
      requires Valid() && Sound(State()) && (status == Executing || status == Waiting)
      requires |devword| == 8 && (forall l :: 3 <= l < 8 ==> devword[l] < Pow2(8)) && |transm_status| == 8
      requires |recv_status| == 8 && |dtp_status| == 7 && forall l :: 3 <= l < 7 ==> |dtp_status[l]| == 8
      requires var ip := cause / 256 % 256;
        if Bit(ip, 1) then status == Executing
        else Bit(ip, 2) || (!Bit(ip, 0) && (Lowest(ip, 7) ==> devword[7] > 0))
      modifies `ready_q, `current_proc, `v0, `process_count, `process_sb, `sem, `status, `clock, `tod_start, `idleFrom
      modifies `spans, `since, `saved, `birth, `births, asl, asl.sd, pcbs, pcbs.table
      ensures Valid() && Sound(old(State())) && Sound(State())
      ensures Verdict(cause / 256 % 256, devword, transm_status, d)
      ensures if d.Panic? then State() == old(State())
              else Enabled(old(State()), d.event) && Effect(old(State()), d.event, State())
      ensures d.Handle? ==>
        var status := StatusOf(d.event, transm_status, recv_status, dtp_status);
        Delivered(old(State()), d.event, State(), Input(caller_v0, 0, status, Other(0)), old(saved), saved, v0)
      ensures d.Panic? ==> saved == old(saved)
    {
      hide Wired, Inv, Core, Quiet, Step;
      d := Decide(cause, devword, transm_status);
      if d.Handle? {
        TakenFor(cause / 256 % 256, devword, transm_status, d);
        var reg_status := StatusOf(d.event, transm_status, recv_status, dtp_status);
        ExceHandler(d.event, Input(caller_v0, 0, reg_status, Other(0)));
      }
    }

    /** The books start with the first dispatch. */
    method OpenBooks()
      requires Valid() && spans == []
      modifies `start
      ensures Valid() && start == tod_start <= clock
    {
      hide Asl.Valid, Unmarked, Billing.Exact, Kept, Get, Cur;
      start := tod_start;
    }

    /**
      The machine after boot: one exception after the other, each as the state it meets allows. The journal says
      when each came and what was booked for it. No bill overlaps a WAIT, all bills and WAITs fit into the time
      since the first dispatch, and every process is billed from its creation on.
     */
    method RunMachine(es: seq<Event>, ins: seq<Input>)
      returns (ghost log: seq<Moment>, ghost made: seq<int>, ghost regs: seq<Regs>)
      requires Valid() && Sound(State()) && Legal(State(), es) && |ins| == |es|
      modifies `ready_q, `current_proc, `v0, `process_count, `process_sb, `sem, `status, `clock, `tod_start, `idleFrom
      modifies `spans, `since, `saved, `birth, `births, asl, asl.sd, pcbs, pcbs.table
      ensures Sound(old(State())) && Legal(old(State()), es)
      ensures Valid() && State() == Run(old(State()), es) && Sound(State())
      ensures old(spans) <= spans && Journal(log, es, spans)
      ensures FromTo(log, Moment(old(State()), old(clock), |old(spans)|), Moment(State(), clock, |spans|))
      ensures WaitsApart(log, es, spans)
      ensures Billing.TotalBilled(spans) + Billing.Idle(spans) <= clock - start
      ensures Births(log, es, made, old(since), since)
      ensures Registered(log, es, ins, regs) && regs[0] == Regs(old(saved), old(v0)) && regs[|es|] == Regs(saved, v0)
    {
      hide Valid, Wired, Inv, Core, Quiet, Decided, Enabled, Step, Journal, Births, BilledTo, Charges, Dated;
      hide Effect, Delivered, Registered;
      ghost var k := State();
      log, made, regs := [Moment(k, clock, |spans|)], Nulls(), [Regs(saved, v0)];
      NoEntries(log[0], spans);
      NoRegisters(log[0], regs[0]);
      Chronicle();
      NoBirths(log, since);
      for i := 0 to |es|
        invariant Valid() && Sound(State()) && Legal(State(), es[i..]) && Run(State(), es[i..]) == Run(k, es)
        invariant old(spans) <= spans && Journal(log, es[..i], spans) && Births(log, es[..i], made, old(since), since)
        invariant |log| == i + 1 && log[0] == Moment(k, old(clock), |old(spans)|)
        invariant log[i] == Moment(State(), clock, |spans|)
        invariant |regs| == i + 1 && regs[0] == Regs(old(saved), old(v0)) && regs[i] == Regs(saved, v0)
        invariant Registered(log, es[..i], ins[..i], regs)
      {
        assert es[i..][0] == es[i] && es[i..][1..] == es[i + 1..];
        assert es[..i] + [es[i]] == es[..i + 1] && ins[..i] + [ins[i]] == ins[..i + 1];
        ghost var m, earlier, dates := log[i], spans, since;
        ExceHandler(es[i], ins[i]);
        ghost var m' := Moment(State(), clock, |spans|);
        JournalGrows(log, es[..i], earlier, es[i], m', spans);
        made := BirthsGrow(log, es[..i], made, old(since), dates, es[i], m', since);
        RegisteredGrows(log, es[..i], ins[..i], regs, es[i], ins[i], m', Regs(saved, v0));
        log, regs := log + [m'], regs + [Regs(saved, v0)];
      }
      assert es[..|es|] == es && ins[..|ins|] == ins;
      WaitsAreNobodys(log, es, spans, start, tod_start) by {
        Chronicle();
      }
      BooksBalance();
    }

    lemma Chronicle()
      requires Valid()
      ensures Billing.Chronological(spans, start, tod_start) && |since| == MAXPROC
    {}

    /** Between two exceptions, p_semAdd is set exactly for those who wait, to the semaphore they wait on. */
    lemma TagsAgree(x: int)
      requires Valid() && Sound(State()) && IsPid(x)
      ensures x < pcbs.table.Length && x < |pcbs.place|
      ensures pcbs.table[x].p_semAdd != 0 <==> pcbs.place[x].Blocked?
      ensures pcbs.place[x].Blocked? ==> pcbs.table[x].p_semAdd == pcbs.place[x].address
    {
      hide Billing.Exact, Kept, Billing.Chronological;
      assert x in Get(pcbs.q, pcbs.place[x]) by {
        Listed(State(), x);
      }
    }

    /** What the books say at any time between two exceptions. */
    lemma BooksBalance()
      requires Valid()
      ensures forall x :: 0 <= x < pcbs.table.Length ==>
        x < |since| && since[x] <= |spans| && pcbs.table[x].p_time == Billing.Billed(spans[since[x]..], x)
      ensures Billing.TotalBilled(spans) + Billing.Idle(spans) <= tod_start - start <= clock - start
    {
      hide Asl.Valid, Unmarked;
      Billing.NeverOvercharged(spans, start, tod_start);
    }
  }

  lemma SemAddsFrame(t: seq<Pcb>, t': seq<Pcb>, place: seq<Place>)
    requires |t| == |t'| && forall x :: 0 <= x < |t| ==> t'[x].p_semAdd == t[x].p_semAdd
    ensures Tagged(t, place) ==> Tagged(t', place)
    ensures Unmarked(t, place) ==> Unmarked(t', place)
  {}

  lemma HeadIsThere(q: Queues, place: seq<Place>, pl: Place)
    requires Placed(q, place) && Get(q, pl) != []
    ensures 0 <= Get(q, pl)[0] < |place| && place[Get(q, pl)[0]] == pl
  {
    QueueMembers(q, place, pl);
  }

  /** Moving p between places that are not semaphores keeps the tags right, and no semaphore queue changes. */
  lemma Rewired(t: seq<Pcb>, t': seq<Pcb>, q: Queues, place: seq<Place>, p: int, pl: Place)
    requires |t| == |place| && 0 <= p < |place| && SameButLinks(t, t')
    requires !place[p].Blocked? && !pl.Blocked? && place[p] != pl
    ensures Tagged(t, place) ==> Tagged(t', place[p := pl])
    ensures Unmarked(t, place) ==> Unmarked(t', place[p := pl])
    ensures forall a :: Get(Move(q, place, p, pl), Blocked(a)) == Get(q, Blocked(a))
  {
    hide Move;
    forall a ensures Get(Move(q, place, p, pl), Blocked(a)) == Get(q, Blocked(a)) {
      GetAfterMove(q, place, p, pl, Blocked(a));
    }
  }

  lemma Retailed(d: seq<Semd>, asl: seq<int>, q: Queues, q': Queues)
    requires Mirrors(d, asl, q) && forall a :: Get(q', Blocked(a)) == Get(q, Blocked(a))
    ensures Mirrors(d, asl, q')
  {}

  /** The birth date of the new process, and of nobody else, is now. */
  lemma DatesChild(since: seq<nat>, since': seq<nat>, k: Kernel, child: int, n: nat)
    requires child == Head(Get(k.q, Free)) && (child == NULL <==> Get(k.q, Free) == [])
    requires child == NULL ==> since' == since
    requires child != NULL ==> 0 <= child < |since| && since' == since[child := n]
    ensures Dated(since, since', k, SysCreate, n)
  {}

  lemma KeptFrame(t: seq<Pcb>, t': seq<Pcb>, saved: seq<int>)
    requires Kept(t, saved) && |t'| == |t| && forall x :: 0 <= x < |t| ==> t'[x].reg_v0 == t[x].reg_v0
    ensures Kept(t', saved)
  {}

  lemma KeptSize(t: seq<Pcb>, saved: seq<int>)
    requires Kept(t, saved)
    ensures |t| == |saved|
  {}

  lemma TimesFrame(t: seq<Pcb>, t': seq<Pcb>, spans: seq<Billing.Span>, since: seq<nat>)
    requires Billing.Exact(t, spans, since) && |t'| == |t|
    requires forall x :: 0 <= x < |t| ==> t'[x].p_time == t[x].p_time
    ensures Billing.Exact(t', spans, since)
  {}

  /** One PCB has a new v0. */
  lemma KeptAnew(t: seq<Pcb>, t': seq<Pcb>, saved: seq<int>, p: int)
    requires Kept(t, saved) && |t'| == |t| && 0 <= p < |t|
    requires forall x :: 0 <= x < |t| && x != p ==> t'[x].reg_v0 == t[x].reg_v0
    ensures p < |saved| && Kept(t', saved[p := t'[p].reg_v0])
  {}

  lemma BooksFrame(t: seq<Pcb>, t': seq<Pcb>, spans: seq<Billing.Span>, since: seq<nat>, saved: seq<int>)
    requires Billing.Exact(t, spans, since) && Kept(t, saved) && |t'| == |t|
    requires forall x :: 0 <= x < |t| ==> t'[x].p_time == t[x].p_time && t'[x].reg_v0 == t[x].reg_v0
    ensures Billing.Exact(t', spans, since) && Kept(t', saved)
  {}

  /** The PCBs as initPcbs leaves them. */
  ghost predicate AllFreeIn(q: Queues, place: seq<Place>) {
    && place == seq(MAXPROC, i => Free)
    && Get(q, Free) == seq(MAXPROC, i => MAXPROC - 1 - i)
    && (forall pl :: pl != Free ==> Get(q, pl) == [])
  }

  lemma BootWired(t: seq<Pcb>, q: Queues, place: seq<Place>, p: int, since: seq<nat>)
    requires |t| == |place| == MAXPROC && AllFreeIn(q, place) && 0 <= p < MAXPROC
    requires since == Zeros()
    requires forall x :: 0 <= x < |t| ==> Blank(t[x])
    ensures Tagged(t, place[p := Running]) && Unmarked(t, place[p := Running]) && Billing.Exact(t, [], since)
    ensures Kept(t, since)
    ensures forall a :: Get(Move(q, place, p, Running), Blocked(a)) == Get(q, Blocked(a))
    ensures NULL == Tail(Get(Move(q, place, p, Running), Ready))
    ensures Billing.Chronological([], 0, 0)
  {
    hide Move;
    GetAfterMove(q, place, p, Running, Ready);
    forall a ensures Get(Move(q, place, p, Running), Blocked(a)) == Get(q, Blocked(a)) {
      GetAfterMove(q, place, p, Running, Blocked(a));
    }
  }

  /** Allocating the first free PCB and making it ready gives the state the runs start from. */
  lemma BootedIs(q: Queues, place: seq<Place>, q1: Queues, place1: seq<Place>, k: Kernel)
    requires Placed(q, place) && AllFreeIn(q, place) && |place| == |place1| == MAXPROC
    requires q1 == Move(q, place, MAXPROC - 1, Running) && place1 == place[MAXPROC - 1 := Running]
    requires k.q == Move(q1, place1, MAXPROC - 1, Ready) && k.place == place1[MAXPROC - 1 := Ready]
    requires k.parent == Nulls() && k.kids == Kidless() && k.birth == Zeros() && k.births == 1
    requires k.root == MAXPROC - 1 && k.count == 1 && k.sb == 0 && k.status == Executing
    ensures k == Booted(k.sem) && Cur(k) == NULL
  {
    hide Placed, Move, Booted, Get, Nulls, Kidless, Zeros, Remove;
    var p := MAXPROC - 1;
    RestFree(q, place);
    MoveVia(q, place, p, Running, Ready);
    MovePlaced(q, place, p, Ready);
    BootedPlaces(place, k.sem);
    BootedLists(k.sem);
    FirstFree(q, place);
    forall pl ensures Get(k.q, pl) == Get(Booted(k.sem).q, pl) {
      GetAfterMove(q, place, p, Ready, pl);
      BootedGet(k.sem, pl);
    }
    NoEmpties(k.q, k.place);
    NoEmpties(Booted(k.sem).q, Booted(k.sem).place);
    SameGets(k.q, Booted(k.sem).q);
    NobodyRuns(k.sem);
  }

  lemma FirstFree(q: Queues, place: seq<Place>)
    requires AllFreeIn(q, place)
    ensures |place| == MAXPROC && Head(Get(q, Free)) == MAXPROC - 1
  {}

  /** Without the first, the free list is that of the boot state. */
  lemma RestFree(q: Queues, place: seq<Place>)
    requires AllFreeIn(q, place)
    ensures Remove(Get(q, Free), MAXPROC - 1) == seq(MAXPROC - 1, i => MAXPROC - 2 - i)
  {
    RemoveAt(Get(q, Free), 0);
  }

  /** The first dispatch finds the boot process. */
  lemma BootRuns(sem: map<int, int>)
    requires Startable(sem)
    ensures Cur(Boot(sem)) == MAXPROC - 1
  {
    hide Placed;
    BootedInv(sem);
    BootedLists(sem);
    DispatchInv(Booted(sem));
  }

  lemma NobodyRuns(sem: map<int, int>)
    ensures Cur(Booted(sem)) == NULL
  {}

  lemma BootedPlaces(place: seq<Place>, sem: map<int, int>)
    requires place == seq(MAXPROC, i => Free)
    ensures var k := Booted(sem);
      k == Kernel(k.q, k.place, Nulls(), Kidless(), Zeros(), 1, MAXPROC - 1, sem, 1, 0, Executing)
    ensures Booted(sem).place == place[MAXPROC - 1 := Running][MAXPROC - 1 := Ready]
  {}

  lemma NoEmpties(q: Queues, place: seq<Place>)
    requires Placed(q, place)
    ensures forall pl :: pl in q ==> q[pl] != []
  {}

  lemma BootedGet(sem: map<int, int>, pl: Place)
    ensures Get(Booted(sem).q, pl) ==
      if pl == Ready then [MAXPROC - 1] else if pl == Free then seq(MAXPROC - 1, i => MAXPROC - 2 - i) else []
  {}

  /** The scheduler's choice, field by field. */
  lemma Dispatched(k: Kernel)
    requires Inv(k) && Cur(k) == NULL
    ensures var p := Head(Get(k.q, Ready)); var k' := Dispatch(k);
      && (p != NULL <==> Get(k.q, Ready) != [])
      && (p != NULL ==>
            && IsPid(p) && k.place[p] == Ready && Cur(k') == p
            && k' == k.(q := Move(k.q, k.place, p, Running), place := k.place[p := Running], status := Executing))
      && (p == NULL ==>
            && Cur(k') == NULL
            && k' == k.(status := if k.count == 0 then Halted else if k.sb > 0 then Waiting else Deadlocked))
  {
    hide Placed, Linked, Rooted, Count, Move;
    DispatchInv(k);
    if Get(k.q, Ready) != [] {
      Member(k, Ready, Get(k.q, Ready)[0]);
    }
  }

  lemma Unchanged(t: seq<Pcb>, t': seq<Pcb>, place: seq<Place>,
                  spans: seq<Billing.Span>, since: seq<nat>, saved: seq<int>)
    requires t == t'
    ensures Unmarked(t, place) ==> Unmarked(t', place)
    ensures Billing.Exact(t, spans, since) ==> Billing.Exact(t', spans, since)
    ensures Kept(t, saved) ==> Kept(t', saved)
  {}

  lemma BlockedFrame(t: seq<Pcb>, t': seq<Pcb>, q: Queues, place: seq<Place>, p: int, a: int,
                     spans: seq<Billing.Span>, since: seq<nat>, saved: seq<int>)
    requires |t| == |place| && 0 <= p < |place| && IsUnlinked(place[p]) && TaggedWith(t, t', p, a)
    ensures Unmarked(t, place) ==> Unmarked(t', place[p := Blocked(a)])
    ensures Billing.Exact(t, spans, since) ==> Billing.Exact(t', spans, since)
    ensures Kept(t, saved) ==> Kept(t', saved)
    ensures Get(Move(q, place, p, Blocked(a)), Ready) == Get(q, Ready)
  {
    hide Move;
    GetAfterMove(q, place, p, Blocked(a), Ready);
  }

  lemma UnblockedFrame(t: seq<Pcb>, t': seq<Pcb>, q: Queues, place: seq<Place>, p: int, to: Place,
                       spans: seq<Billing.Span>, since: seq<nat>, saved: seq<int>)
    requires |t| == |place| && 0 <= p < |place| && place[p].Blocked? && IsUnlinked(to) && Untagged(t, t', p)
    ensures Unmarked(t, place) ==> Unmarked(t', place[p := to])
    ensures Billing.Exact(t, spans, since) ==> Billing.Exact(t', spans, since)
    ensures Kept(t, saved) ==> Kept(t', saved)
    ensures Get(Move(q, place, p, to), Ready) == Get(q, Ready)
  {
    hide Move;
    GetAfterMove(q, place, p, to, Ready);
  }

  lemma Woken(k: Kernel, a: int)
    requires Core(k)
    ensures |k.place| == MAXPROC
    ensures var p := Head(Get(k.q, Blocked(a))); var k' := WakeFirst(k, a);
      && (p != NULL <==> Get(k.q, Blocked(a)) != [])
      && (p == NULL ==> k' == k)
      && (p != NULL ==>
            && IsPid(p) && k.place[p] == Blocked(a)
            && k' == k.(q := Move(Move(k.q, k.place, p, Dying), k.place[p := Dying], p, Ready),
                        place := k.place[p := Dying][p := Ready],
                        sb := k.sb - One(IsDevSem(a))))
  {
    hide Placed, Linked, Rooted, Count, Move;
    if Get(k.q, Blocked(a)) != [] {
      var p := Get(k.q, Blocked(a))[0];
      Member(k, Blocked(a), p);
      MoveVia(k.q, k.place, p, Dying, Ready);
    }
  }

  lemma Asleep(k: Kernel, a: int)
    requires Sound(k) && Cur(k) != NULL && IsSemAddress(a) && a in k.sem && (IsDevSem(a) || k.sem[a] <= 0)
    ensures IsPid(Cur(k)) && k.place[Cur(k)] == Running
    ensures Inv(BlockOn(k, a)) && Cur(BlockOn(k, a)) == NULL 
    ensures BlockOn(k, a) == k.(q := Move(k.q, k.place, Cur(k), Blocked(a)), place := k.place[Cur(k) := Blocked(a)],
                                sem := k.sem[a := k.sem[a] - 1], sb := k.sb + One(IsDevSem(a)))
  {
    hide Placed, Linked, Rooted, Count, Move;
    Member(k, Running, Cur(k));
    BlockOnInv(k, a);
  }

  lemma AllocFrame(t: seq<Pcb>, t': seq<Pcb>, q: Queues, place: seq<Place>, p: int, to: Place)
    requires |t| == |place| && 0 <= p < |place| && place[p].Free? && IsUnlinked(to) && t' == t[p := BLANK]
    ensures Tagged(t, place) ==> Tagged(t', place[p := to])
    ensures Unmarked(t, place) ==> Unmarked(t', place[p := to])
    ensures Get(Move(q, place, p, to), Ready) == Get(q, Ready)
    ensures forall a :: Get(Move(q, place, p, to), Blocked(a)) == Get(q, Blocked(a))
  {
    hide Move;
    GetAfterMove(q, place, p, to, Ready);
    forall a ensures Get(Move(q, place, p, to), Blocked(a)) == Get(q, Blocked(a)) {
      GetAfterMove(q, place, p, to, Blocked(a));
    }
  }

  lemma FreeFrame(t: seq<Pcb>, t': seq<Pcb>, q: Queues, place: seq<Place>, p: int)
    requires |t| == |place| == |t'| && 0 <= p < |place| && IsUnlinked(place[p])
    requires t' == t[p := t'[p]] && t'[p].p_semAdd == 0
    ensures Tagged(t, place) ==> Tagged(t', place[p := Free])
    ensures Unmarked(t, place) ==> Unmarked(t', place[p := Free])
    ensures Get(Move(q, place, p, Free), Ready) == Get(q, Ready)
    ensures forall a :: Get(Move(q, place, p, Free), Blocked(a)) == Get(q, Blocked(a))
  {
    hide Move;
    GetAfterMove(q, place, p, Free, Ready);
    forall a ensures Get(Move(q, place, p, Free), Blocked(a)) == Get(q, Blocked(a)) {
      GetAfterMove(q, place, p, Free, Blocked(a));
    }
  }

  lemma Orphaned(k: Kernel, t: int)
    requires Inv(k) && t == Target(k) != NULL && KidsOf(k, t) == []
    ensures IsPid(t) && k.place[t] == Dying && k.parent[t] == NULL && k.kids[t] == []
    ensures Get(KillFree(k).q, Doomed) == Get(k.q, Doomed)
  {
    hide Placed, Linked, Count, Move;
    Member(k, Dying, t);
    FreeIsOrphan(k, t);
    KillFreeInv(k);
  }

  /** Dooming the target's first child, field by field, through the list it is on. */
  lemma ChildKilled(k: Kernel)
    requires Inv(k) && Cur(k) == NULL && Target(k) != NULL && KidsOf(k, Target(k)) != []
    ensures var t := Target(k); var c := KidsOf(k, t)[0]; var k' := KillChild(k);
      && IsPid(t) && |k.place| == |k.parent| == |k.kids| == MAXPROC
      && IsPid(c) && c == Head(k.kids[t]) && k.parent[c] == t
      && (k.place[c].Ready? || (k.place[c].Blocked? && IsSemAddress(k.place[c].address) && k.place[c].address in k.sem))
      && k' == k.(q := Move(Move(k.q, k.place, c, Running), k.place[c := Running], c, Doomed),
                  place := k.place[c := Running][c := Doomed],
                  parent := k.parent[c := NULL],
                  kids := k.kids[t := Remove(k.kids[t], c)],
                  sem := Release(k, c).sem,
                  sb := Release(k, c).sb)
      && Get(Move(k.q, k.place, c, Running), Doomed) == Get(k.q, Doomed)
  {
    hide Placed, Linked, Rooted, Count, Move;
    var t := Target(k);
    var c := KidsOf(k, t)[0];
    Member(k, Dying, t);
    ChildStands(k, t, c);
    Listed(k, c);
    MoveVia(k.q, k.place, c, Running, Doomed);
    GetAfterMove(k.q, k.place, c, Running, Doomed);
  }

  /** The first step of a termination, field by field. */
  lemma Started(k: Kernel)
    requires Sound(k) && Cur(k) != NULL
    ensures IsPid(Cur(k)) && k.place[Cur(k)] == Running && |k.place| == |k.parent| == |k.kids| == MAXPROC
    ensures Get(k.q, Doomed) == [] && Tail(Get(k.q, Doomed)) == NULL
    ensures var c := Cur(k); var k' := KillStart(k);
      && Inv(k') && Cur(k') == NULL && Get(k'.q, Dying) == []
      && (k.parent[c] == NULL || IsPid(k.parent[c]))
      && k' == k.(q := Move(k.q, k.place, c, Doomed), place := k.place[c := Doomed],
                  parent := if k.parent[c] == NULL then k.parent else k.parent[c := NULL],
                  kids := if k.parent[c] == NULL then k.kids
                          else k.kids[k.parent[c] := Remove(k.kids[k.parent[c]], c)])
  {
    hide Placed, Rooted, Count, Move;
    Member(k, Running, Cur(k));
    KillStartInv(k);
  }

  /** What one turn of the inner loop, or its end, does to Kill and to the measures. */
  lemma KillRound(k: Kernel)
    requires Inv(k) && Cur(k) == NULL && Target(k) != NULL
    ensures IsPid(Target(k)) && |k.kids| == MAXPROC
    ensures KidsOf(k, Target(k)) != [] ==>
      && Inv(KillChild(k)) && Cur(KillChild(k)) == NULL && Kill(KillChild(k)) == Kill(k)
      && Target(KillChild(k)) == Target(k) && |KillChild(k).kids| == MAXPROC
      && Count(KillChild(k).place, Standing) < Count(k.place, Standing)
    ensures KidsOf(k, Target(k)) == [] ==>
      && Inv(KillFree(k)) && Cur(KillFree(k)) == NULL && Kill(KillFree(k)) == Kill(k)
      && Get(KillFree(k).q, Dying) == []
      && Count(KillFree(k).place, Standing) == Count(k.place, Standing)
  {
    hide Placed, Linked, Rooted, Count, Move, MoveTo, Named, Accounted;
    var t := Target(k);
    Member(k, Dying, t);
    if KidsOf(k, t) != [] {
      KillChildInv(k);
      CountUpdate(k.place, KidsOf(k, t)[0], Doomed, Standing);
    } else {
      KillFreeInv(k);
      CountUpdate(k.place, t, Free, Standing);
    }
  }

  lemma KillDone(k: Kernel)
    requires Inv(k) && Cur(k) == NULL && Get(k.q, Doomed) == [] && Target(k) == NULL
    ensures Kill(k) == k
  {
    if Get(k.q, Dying) != [] {
      Member(k, Dying, Get(k.q, Dying)[0]);
      assert false;
    }
  }

  /** What taking the next target does. */
  lemma TargetTaken(k: Kernel)
    requires Inv(k) && Cur(k) == NULL && Get(k.q, Dying) == []
    ensures Target(k) == NULL
    ensures var p := Head(Get(k.q, Doomed)); var k' := KillPop(k);
      && (p == NULL <==> Get(k.q, Doomed) == [])
      && (p != NULL ==>
            && IsPid(p) && |k.place| == MAXPROC
            && k' == k.(q := Move(k.q, k.place, p, Dying), place := k.place[p := Dying])
            && Inv(k') && Cur(k') == NULL && Kill(k') == Kill(k) && Target(k') == p
            && |Get(k'.q, Doomed)| < |Get(k.q, Doomed)|
            && Count(k'.place, Standing) == Count(k.place, Standing))
  {
    hide Placed, Linked, Rooted, Count, Move, Named, Accounted;
    if Get(k.q, Doomed) != [] {
      var p := Get(k.q, Doomed)[0];
      Member(k, Doomed, p);
      KillPopInv(k);
      CountUpdate(k.place, p, Dying, Standing);
    }
  }

  /** Creation, field by field. */
  lemma Created(k: Kernel)
    requires Sound(k) && Cur(k) != NULL
    ensures IsPid(Cur(k)) && k.place[Cur(k)] == Running
    ensures |k.place| == |k.parent| == |k.kids| == |k.birth| == MAXPROC
    ensures Cur(Create(k)) == Cur(k) && Create(k).status == k.status
    ensures var c := Head(Get(k.q, Free));
      && (c == NULL <==> Get(k.q, Free) == [])
      && (c == NULL ==> Create(k) == k)
      && (c != NULL ==>
            && IsPid(c) && k.place[c] == Free && c != Cur(k) && k.parent[c] == NULL
            && Create(k) == k.(q := Move(Move(k.q, k.place, c, Dying), k.place[c := Dying], c, Ready),
                               place := k.place[c := Dying][c := Ready],
                               parent := k.parent[c := Cur(k)],
                               kids := k.kids[Cur(k) := [c] + k.kids[Cur(k)]],
                               birth := k.birth[c := k.births], births := k.births + 1, count := k.count + 1))
  {
    hide Placed, Linked, Rooted, Count, Move;
    Member(k, Running, Cur(k));
    CreateInv(k);
    CreateStatus(k);
    if Get(k.q, Free) != [] {
      var c := Get(k.q, Free)[0];
      Member(k, Free, c);
      FreeIsOrphan(k, c);
      MoveVia(k.q, k.place, c, Dying, Ready);
    }
  }

  /** A P or a V on a finds the caller on the processor, and the invariant for the change of the cell. */
  lemma SemaphoreOf(k: Kernel, a: int)
    requires Sound(k) && Cur(k) != NULL
    ensures IsPid(Cur(k)) && k.status == Executing
    ensures a in k.sem ==> Core(AddTo(k, a, 1)) && Core(AddTo(k, a, -1))
  {
    hide Placed, Linked, Rooted, Count;
    Member(k, Running, Cur(k));
  }

  lemma PasserenCases(k: Kernel, a: int)
    requires Sound(k) && Cur(k) != NULL && (a == 0 || (IsSemAddress(a) && a in k.sem))
    ensures IsPid(Cur(k)) && k.status == Executing
    ensures Passeren(k, a) ==
      if a == 0 then Terminate(k) else if k.sem[a] - 1 < 0 then Sleep(k, a) else AddTo(k, a, -1)
    ensures a != 0 ==> AddTo(k, a, -1) == k.(sem := k.sem[a := k.sem[a] - 1])
  {
    SemaphoreOf(k, a);
  }

  lemma VerhogenCases(k: Kernel, a: int)
    requires Sound(k) && Cur(k) != NULL && (a == 0 || (IsSemAddress(a) && a in k.sem))
    ensures IsPid(Cur(k)) && k.status == Executing
    ensures a == 0 ==> Verhogen(k, a) == Terminate(k)
    ensures a != 0 ==>
      var k1 := k.(sem := k.sem[a := k.sem[a] + 1]);
      && Core(k1)
      && Verhogen(k, a) == (if k.sem[a] + 1 <= 0 then WakeFirst(k1, a) else k1)
      && Cur(Verhogen(k, a)) == Cur(k) && Verhogen(k, a).status == k.status
  {
    hide Placed, Linked, Rooted, Count, Move, MoveTo;
    SemaphoreOf(k, a);
    if a != 0 {
      WakeFirstCore(AddTo(k, a, 1), a);
    }
  }

  lemma DeviceCell(k: Kernel, line: int, dev: int, a3: int)
    requires Sound(k) && GoodDevice(line, dev, a3)
    ensures var a := IoAddress(line, dev, a3); a in k.sem && IsSemAddress(a) && IsDevSem(a)
    ensures SYS_TIMER in k.sem && IsSemAddress(SYS_TIMER) && IsDevSem(SYS_TIMER)
  {
    IoCellExists(k, line, dev, a3);
  }

  lemma AslTable(asl: Asl)
    requires asl.Valid()
    ensures asl.pcbs.Valid()
  {}

  lemma Preempted(k: Kernel)
    requires Sound(k) && Cur(k) != NULL
    ensures IsPid(Cur(k)) && k.place[Cur(k)] == Running && |k.place| == MAXPROC
    ensures var k1 := MoveTo(k, Cur(k), Ready); Inv(k1) && Cur(k1) == NULL
  {
    hide Placed, Linked, Rooted, Count, Move, MoveTo;
    var c := Cur(k);
    Member(k, Running, c);
    Moved(k, c, Ready);
    StandingMove(k.place, k.parent, k.birth, k.births, k.root, c, Ready);
    SameWaiters(k.q, MoveTo(k, c, Ready).q, k.sem);
  }

  lemma TickReady(k: Kernel)
    requires Sound(k) && (k.status == Executing || k.status == Waiting)
    ensures Core(k) && SYS_TIMER in k.sem && Core(Drain(k, SYS_TIMER))
    ensures k.status == Executing <==> Cur(k) != NULL
    ensures var k1 := Drain(k, SYS_TIMER); var k2 := k1.(sem := k1.sem[SYS_TIMER := 0]);
      Inv(k2) && Cur(k2) == Cur(k) && k2.status == k.status
  {
    hide Placed, Linked, Rooted, Count, Move, MoveTo;
    DrainExact(k, SYS_TIMER);
    IoCellExists(k, 3, 0, 0);
  }

  lemma WakeKeepsCells(k: Kernel, a: int)
    ensures WakeFirst(k, a).sem == k.sem
  {}

  lemma DrainTurn(k: Kernel)
    requires Core(k)
    ensures IsSemAddress(SYS_TIMER)
    ensures Head(Get(k.q, Blocked(SYS_TIMER))) == NULL <==> Get(k.q, Blocked(SYS_TIMER)) == []
    ensures Core(WakeFirst(k, SYS_TIMER)) && Drain(WakeFirst(k, SYS_TIMER), SYS_TIMER) == Drain(k, SYS_TIMER)
    ensures Get(k.q, Blocked(SYS_TIMER)) == [] ==> Drain(k, SYS_TIMER) == k && WakeFirst(k, SYS_TIMER) == k
    ensures Get(k.q, Blocked(SYS_TIMER)) != [] ==>
      && Head(Get(k.q, Blocked(SYS_TIMER))) == Get(k.q, Blocked(SYS_TIMER))[0]
      && Get(WakeFirst(k, SYS_TIMER).q, Blocked(SYS_TIMER)) == Get(k.q, Blocked(SYS_TIMER))[1..]
    ensures Get(k.q, Blocked(SYS_TIMER)) != [] ==>
      |Get(WakeFirst(k, SYS_TIMER).q, Blocked(SYS_TIMER))| < |Get(k.q, Blocked(SYS_TIMER))|
  {
    hide Placed, Linked, Rooted, Count, Move, MoveTo, Named;
    WakeFirstCore(k, SYS_TIMER);
    IsDevTimer();
    if Get(k.q, Blocked(SYS_TIMER)) != [] {
      Member(k, Blocked(SYS_TIMER), Get(k.q, Blocked(SYS_TIMER))[0]);
    }
  }

  lemma IsDevTimer()
    ensures IsSemAddress(SYS_TIMER)
  {}

  lemma DeviceWoken(k: Kernel, line: int, dev: int, tran: int)
    requires Sound(k) && (k.status == Executing || k.status == Waiting) && GoodDevice(line, dev, tran)
    ensures k.status == Executing <==> Cur(k) != NULL
    ensures var a := IoAddress(line, dev, 1 - tran);
      && Core(k) && a in k.sem && IsSemAddress(a)
      && var k1 := AddTo(WakeFirst(k, a), a, 1);
      && Inv(k1) && Cur(k1) == Cur(k) && k1.status == k.status
  {
    hide Placed, Linked, Rooted, Count, Move, MoveTo;
    IoCellExists(k, line, dev, 1 - tran);
    WakeFirstCore(k, IoAddress(line, dev, 1 - tran));
  }

  lemma Arrival(k: Kernel, e: Event)
    requires Sound(k) && Enabled(k, e)
    ensures k.status == Waiting <==> Cur(k) == NULL
    ensures Cur(k) != NULL ==> IsPid(Cur(k))
    ensures e.SysCreate? ==> Cur(k) != NULL
  {
    hide Core, Accounted, Get;
    Interrupted(k);
  }

  lemma Interrupted(k: Kernel)
    requires Sound(k)
    ensures Cur(k) != NULL ==> IsPid(Cur(k))
    ensures k.status == Executing <==> Cur(k) != NULL
  {
    if Cur(k) != NULL {
      Member(k, Running, Cur(k));
    }
  }
}
