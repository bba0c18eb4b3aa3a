/**
  The pager as it is written: a page fault handler, a TLB refill handler and their set-up, updating the swap
  table, the private page tables, the TLB and the device registers in place. Each piece that runs unbroken
  is a step of the machine in PagerModel.
 */
module Pagers {
  import opened PageWords
  import opened SwapPool
  import opened PagerModel
  import opened PagerSafety
  import opened PagerTheorems
  import opened PagerRuns

  function Pages(): (s: set<Pg>)
    ensures forall x :: x in s <==> IsPg(x)
  {
    set a, p | 1 <= a <= UPROCMAX && 0 <= p < USERPGTBLSIZE :: Pg(a, p)
  }

  /** What is about to be written back is a page. */
  lemma VictimIsPage(m: Machine)
    requires Inv(m) && m.fault.Serving? && m.fault.phase.Taken?
    ensures IsPg(Victim(m))
  {
    hide Agreed;
    HeldEverywhere(m, m.fault.frame);
  }

  /** The fault is about a page of the process that waits for it. */
  lemma FaultPage(m: Machine)
    requires Inv(m) && m.fault.Serving?
    ensures IsPg(m.fault.x)
  {}

  /** A transfer of which k words are done. */
  function Moving(phase: Phase, k: nat): Phase
    requires phase.Writing? || phase.Reading?
  {
    phase.(done := k)
  }

  class Pager {
    const pool: Pool
    const sup_privatePgTbl: array2<Pte>
    const tlb: array<Option<Pte>>
    var ENTRYHI: bv32
    var ENTRYLO: bv32
    var INDEX: int  // negative when the last probe failed
    var data0: bv32
    var command: bv32
    var ram: seq<Content>
    var flash: map<Pg, Content>
    var waiting: map<int, bv32>
    var dead: set<int>
    var marking: set<int>
    var fault: Fault

    ghost predicate Valid()
      reads pool`swap_index
    {
      pool.Valid() && sup_privatePgTbl.Length0 == UPROCMAX && sup_privatePgTbl.Length1 == USERPGTBLSIZE
    }

    ghost function Tables(): map<Pg, Pte>
      requires sup_privatePgTbl.Length0 == UPROCMAX && sup_privatePgTbl.Length1 == USERPGTBLSIZE
      reads sup_privatePgTbl
    {
      map x | x in Pages() :: sup_privatePgTbl[x.asid - 1, x.page]
    }

    ghost function State(): Machine
      requires Valid()
      reads pool`swap_index, pool.swap_pool_table, sup_privatePgTbl, tlb
      reads `ram, `flash, `waiting, `dead, `marking, `fault
    {
      Machine(pool.swap_pool_table[..], pool.swap_index, Tables(), tlb[..], ram, flash, waiting, dead, marking, fault)
    }

    // -------------------------------------------------------------- set-up

    /** test(), as far as the pager goes: init_pager and then init_uprocs. */
    constructor (slots: nat, ram: seq<Content>, flash: map<Pg, Content>)
      requires |ram| == SWAPSIZE && forall f :: 0 <= f < SWAPSIZE ==> |ram[f]| == PAGEWORDS
      requires forall x :: x in flash <==> IsPg(x)
      requires forall x :: x in flash ==> |flash[x]| == PAGEWORDS
      ensures Valid() && Initial(State()) && State().ram == ram && State().flash == flash
    {
      pool := new Pool();
      sup_privatePgTbl := new Pte[UPROCMAX, USERPGTBLSIZE]((i, j) => Pte(0, 0));
      tlb := new Option<Pte>[slots](i => None);
      this.ram, this.flash := ram, flash;
      waiting, dead, marking, fault := map[], {}, {}, Idle;
      new;
      InitUprocs();
    }

    method InitUprocs()
      requires Valid()
      modifies sup_privatePgTbl
      ensures forall x :: x in Tables() ==> Tables()[x] == Pte(Key(x), DIRTYON)
    {
      hide Key, GetPageno;
      for asid := 1 to UPROCMAX + 1
        invariant forall x :: IsPg(x) && x.asid < asid ==> sup_privatePgTbl[x.asid - 1, x.page] == Pte(Key(x), DIRTYON)
      {
        var halted := MakeUproc(asid);
      }
    }

    /** make_uproc: the page table of one process; its check of the page number never stops the machine. */
    method MakeUproc(asid: int) returns (halted: bool)
      requires Valid() && 1 <= asid <= UPROCMAX
      modifies sup_privatePgTbl
      ensures !halted
      ensures forall x :: IsPg(x) && x.asid == asid ==> sup_privatePgTbl[asid - 1, x.page] == Pte(Key(x), DIRTYON)
      ensures forall x :: IsPg(x) && x.asid != asid ==>
        sup_privatePgTbl[x.asid - 1, x.page] == old(sup_privatePgTbl[x.asid - 1, x.page])
    {
      hide Key, GetPageno, Word;
      halted := false;
      for i := 0 to USERPGTBLSIZE - 1
        invariant !halted
        invariant forall x :: IsPg(x) && x.asid == asid && x.page < i ==>
          sup_privatePgTbl[asid - 1, x.page] == Pte(Key(x), DIRTYON)
        invariant forall x :: IsPg(x) && x.asid != asid ==>
          sup_privatePgTbl[x.asid - 1, x.page] == old(sup_privatePgTbl[x.asid - 1, x.page])
      {
        var entryHI := 0x80000000 | (Word(i) << 12) | (Word(asid) << 6);
        sup_privatePgTbl[asid - 1, i] := Pte(entryHI, DIRTYON);
        LowPage(Pg(asid, i));
        if GetPageno(entryHI) >= 31 {
          halted := true;
        }
      }
      StackKey(Pg(asid, USERPGTBLSIZE - 1));
      sup_privatePgTbl[asid - 1, USERPGTBLSIZE - 1] := Pte(UPROC_VIRT_STACK | (Word(asid) << 6), DIRTYON);
    }

    // -------------------------------------------------------------- TLB

    /** TLBP. */
    method TLBP()
      modifies `INDEX
      ensures INDEX == if Probe(tlb[..], ENTRYHI) < tlb.Length then Probe(tlb[..], ENTRYHI) else -1
    {
      INDEX := -1;
      var i := 0;
      while i < tlb.Length
        invariant 0 <= i <= tlb.Length && INDEX == -1
        invariant Probe(tlb[..], ENTRYHI) == i + Probe(tlb[..][i..], ENTRYHI)
      {
        assert tlb[..][i..][0] == tlb[i] && tlb[..][i..][1..] == tlb[..][i + 1..];
        if tlb[i].Some? && Matches(tlb[i].value, ENTRYHI) {
          INDEX := i;
          return;
        }
        i := i + 1;
      }
    }

    /** invalid_tlb_entry. */
    method InvalidTlbEntry(entry_hi: bv32, new_entry_hi: bv32, new_entry_lo: bv32)
      modifies tlb, `ENTRYHI, `ENTRYLO, `INDEX
      ensures var i := Probe(old(tlb[..]), entry_hi);
        tlb[..] == if i < tlb.Length then old(tlb[..])[i := Some(Pte(new_entry_hi, new_entry_lo))] else old(tlb[..])
      ensures ENTRYHI == old(ENTRYHI) && ENTRYLO == old(ENTRYLO)
    {
      var old_entry_hi := ENTRYHI;
      var old_entry_lo := ENTRYLO;
      ENTRYHI := entry_hi;
      TLBP();
      if INDEX >= 0 {
        ENTRYHI := new_entry_hi;
        ENTRYLO := new_entry_lo;
        tlb[INDEX] := Some(Pte(ENTRYHI, ENTRYLO));
      }
      ENTRYHI := old_entry_hi;
      ENTRYLO := old_entry_lo;
    }

    /** A page table entry changes, and then the TLB: one masked section. */
    method Rewrite(x: Pg, entryLO: bv32)
      requires Valid() && IsPg(x)
      modifies sup_privatePgTbl, tlb, `ENTRYHI, `ENTRYLO, `INDEX
      ensures Valid() && State() == Rewritten(old(State()), x, entryLO)
    {
      ghost var m := State();
      var i, j := x.asid - 1, x.page;
      sup_privatePgTbl[i, j] := sup_privatePgTbl[i, j].(entryLO := entryLO);
      assert Tables() == m.pte[x := Pte(m.pte[x].entryHI, entryLO)];
      InvalidTlbEntry(sup_privatePgTbl[i, j].entryHI, sup_privatePgTbl[i, j].entryHI, sup_privatePgTbl[i, j].entryLO);
      assert Tables() == m.pte[x := Pte(m.pte[x].entryHI, entryLO)];
    }

    /** tlb_refill_handler, for the running process and whatever slot TLBWR picks. */
    method TlbRefillHandler(asid: int, page: int, slot: int) returns (panic: bool)
      requires Valid() && Inv(State()) && Enabled(State(), Refill(asid, page, slot))
      modifies tlb, `ENTRYHI, `ENTRYLO
      ensures Valid() && State() == Next(old(State()), Refill(asid, page, slot)) && !panic
    {
      hide Key, PageIndex, Agreed, Served, Misses;
      var entry_hi := Key(Pg(asid, page));
      KeyFields(Pg(asid, page));
      var page_index := FindPage(entry_hi);
      panic := page_index > 31;
      if !panic {
        ghost var m := State();
        ENTRYHI := sup_privatePgTbl[asid - 1, page_index].entryHI;
        ENTRYLO := sup_privatePgTbl[asid - 1, page_index].entryLO;
        tlb[slot] := Some(Pte(ENTRYHI, ENTRYLO));
        assert Tables() == m.pte;
      }
    }

    /** Both handlers take the stack page to be the last of the table. */
    method FindPage(entry_hi: bv32) returns (page_index: int)
      ensures page_index == PageIndex(entry_hi)
    {
      var page_number := GetPageno(entry_hi);
      page_index := if page_number == UPROC_VIRT_STACK_PAGENO then 31 else page_number as int;
    }

    // -------------------------------------------------------------- pagefault_handler, piece by piece

    /** get_swap_pool_mutex, and what the handler reads from the saved state. */
    method Enter(asid: int)
      requires Valid() && Inv(State()) && Enabled(State(), Acquire(asid))
      modifies `fault
      ensures Valid() && State() == Next(old(State()), Acquire(asid)) && fault == Entered(Wanted(old(State()), asid))
    {
      hide Agreed, Served, PageIndex;
      var page_index := FindPage(waiting[asid]);
      fault := Entered(Pg(asid, page_index));
    }

    method ChooseFrame()
      requires Valid() && Inv(State()) && Enabled(State(), Choose)
      modifies `fault, pool`swap_index
      ensures Valid() && State() == Next(old(State()), Choose)
      ensures fault.Serving? && fault.x == old(fault).x && fault.phase.Picked? && IsFrame(fault.frame)
    {
      hide Agreed, Served, NextFrame;
      ghost var m := State();
      var next_frame_index := pool.GetNextSwapIndex();
      fault := Serving(fault.x, next_frame_index, Picked);
      assert Tables() == m.pte;
    }

    /** The test whether the frame is occupied. */
    method ExamineFrame() returns (occupied: bool)
      requires Valid() && Inv(State()) && Enabled(State(), Examine)
      modifies `fault
      ensures Valid() && State() == Next(old(State()), Examine)
      ensures occupied <==> Occupied(State().swap[fault.frame])
      ensures fault == old(fault).(phase := if occupied then Chosen else Cleared)
    {
      hide Agreed, Served;
      occupied := pool.swap_pool_table[fault.frame].sw_asid != NOPROC;
      fault := fault.(phase := if occupied then Chosen else Cleared);
    }

    /** The first masked section: the page in the frame becomes invalid. */
    method TakeFrame()
      requires Valid() && Inv(State()) && Enabled(State(), Invalidate)
      modifies sup_privatePgTbl, tlb, `ENTRYHI, `ENTRYLO, `INDEX, `fault
      ensures Valid() && State() == Next(old(State()), Invalidate)
    {
      hide Agreed, Served, Rewritten, Invalidated, Mapped;
      var page_pte := pool.swap_pool_table[fault.frame].sw_pte;
      Rewrite(page_pte, Invalidated(sup_privatePgTbl[page_pte.asid - 1, page_pte.page].entryLO));
      fault := fault.(phase := Taken);
    }

    /** The two ends of a transfer: the command goes out, and its completion comes in. */
    method MoveOn()
      requires Valid() && Inv(State()) && !fault.Idle? && Enabled(State(), Handler(State()))
      requires Handler(State()) == StartWrite || Handler(State()) == WriteDone ||
               Handler(State()) == StartRead || Handler(State()) == ReadDone
      modifies `fault
      ensures State() == Next(old(State()), Handler(old(State())))
    {
      hide Agreed, Served;
      if fault.phase.Addressed? {
        fault := fault.(phase := Writing(fault.phase.block, 0));
      } else if fault.phase.Cleared? {
        fault := fault.(phase := Reading(0));
      } else if fault.phase.Reading? {
        fault := fault.(phase := Loaded);
      } else {
        fault := fault.(phase := Cleared);
      }
    }

    /** The registers tell device flash_no to do what the handler is waiting for. */
    ghost predicate Commanded(flash_no: int, operation: bv32)
      requires fault.Serving?
      reads `data0, `command, `fault
    {
      && FrameOf(data0) == fault.frame && OperationOf(command) == operation
      && (operation == FLASHWRITE || operation == FLASHREAD)
      && (operation == FLASHWRITE ==> fault.phase.Writing? && fault.phase.block == Pg(flash_no + 1, BlockOf(command)))
      && (operation == FLASHREAD ==> fault.phase.Reading? && fault.x == Pg(flash_no + 1, BlockOf(command)))
    }

    /** The device named by its registers moves one word, to or from the frame they name. */
    method DeviceWord(flash_no: int)
      requires Valid() && Inv(State()) && !fault.Idle? && Enabled(State(), Handler(State()))
      requires fault.Serving? && Commanded(flash_no, if fault.phase.Writing? then FLASHWRITE else FLASHREAD)
      requires Handler(State()) == DmaWrite || Handler(State()) == DmaRead
      modifies `ram, `flash, `fault
      ensures State() == Next(old(State()), Handler(old(State())))
    {
      hide Agreed, Served, BlockOf, FrameOf, OperationOf;
      var b, f, k := Pg(flash_no + 1, BlockOf(command)), FrameOf(data0), fault.phase.done;
      if OperationOf(command) == FLASHWRITE {
        flash := flash[b := flash[b][k := ram[f][k]]];
        fault := fault.(phase := Writing(b, k + 1));
      } else {
        ram := ram[f := ram[f][k := flash[b][k]]];
        fault := fault.(phase := Reading(k + 1));
      }
    }

    /** The device carries the command out. */
    method Device(flash_no: int, operation: bv32) returns (ghost steps: seq<Label>)
      requires Valid() && Inv(State()) && fault.Serving? && Commanded(flash_no, operation)
      requires fault.phase.done == 0
      modifies `ram, `flash, `fault
      ensures Valid() && Inv(State()) && Run(old(State()), steps) == Some(State()) && NoStore(steps)
      ensures fault == old(fault).(phase := Moving(old(fault).phase, PAGEWORDS))
    {
      hide Agreed, Served, Inv, Enabled, Next, FrameAddress, FlashCommand, BlockOf, FrameOf, OperationOf;
      ghost var m := State();
      steps := [];
      for k := 0 to PAGEWORDS
        invariant Valid() && Inv(State()) && Run(m, steps) == Some(State()) && NoStore(steps)
        invariant fault == old(fault).(phase := Moving(old(fault).phase, k)) && Commanded(flash_no, operation)
      {
        ghost var before := State();
        HandlerAdvances(before);
        DeviceWord(flash_no);
        RunAppend(m, steps, Handler(before));
        steps := steps + [Handler(before)];
      }
    }

    /** The masked section of flash_io up to SYS5. */
    method Issue(flash_no: int, frame_no: int, block_no: int, operation: bv32)
      requires Valid() && Inv(State()) && fault.Serving? && frame_no == fault.frame && IsFrame(frame_no)
      requires IsPg(Pg(flash_no + 1, block_no)) && (operation == FLASHWRITE || operation == FLASHREAD)
      requires operation == FLASHWRITE ==> fault.phase == Addressed(Pg(flash_no + 1, block_no))
      requires operation == FLASHREAD ==> fault.phase.Cleared? && fault.x == Pg(flash_no + 1, block_no)
      modifies `data0, `command, `fault
      ensures Valid() && Inv(State()) && Run(old(State()), [Handler(old(State()))]) == Some(State())
      ensures fault == old(fault).(phase :=
        if operation == FLASHWRITE then Writing(Pg(flash_no + 1, block_no), 0) else Reading(0))
      ensures Commanded(flash_no, operation)
    {
      hide Agreed, Served, Inv, Enabled, Next, FrameAddress, FlashCommand, BlockOf, FrameOf, OperationOf, Run;
      data0 := FrameAddress(frame_no);
      command := FlashCommand(block_no, operation);
      CommandRoundTrip(block_no, operation, frame_no);
      HandlerAdvances(State());
      RunOne(State(), Handler(State()));
      MoveOn();
    }

    /** flash_io, the device doing what it is told and reporting success; steps is the run this amounts to. */
    method FlashIo(flash_no: int, frame_no: int, block_no: int, operation: bv32)
      returns (status: int, ghost steps: seq<Label>)
      requires Valid() && Inv(State()) && fault.Serving? && frame_no == fault.frame && IsFrame(frame_no)
      requires IsPg(Pg(flash_no + 1, block_no)) && (operation == FLASHWRITE || operation == FLASHREAD)
      requires operation == FLASHWRITE ==> fault.phase == Addressed(Pg(flash_no + 1, block_no))
      requires operation == FLASHREAD ==> fault.phase.Cleared? && fault.x == Pg(flash_no + 1, block_no)
      modifies `data0, `command, `ram, `flash, `fault
      ensures Valid() && Inv(State()) && status == 1
      ensures Run(old(State()), steps) == Some(State()) && NoStore(steps)
      ensures fault == old(fault).(phase := if operation == FLASHWRITE then Cleared else Loaded)
    {
      hide Sized, Complete, Agreed, Served, Inv, Enabled, Next, Run, Commanded;
      ghost var m := State();
      Issue(flash_no, frame_no, block_no, operation);
      ghost var words := Device(flash_no, operation);
      RunConcat(m, [Handler(m)], words);
      ghost var done := State();
      HandlerAdvances(done);
      MoveOn();
      steps := [Handler(m)] + words + [Handler(done)];
      RunAppend(m, [Handler(m)] + words, Handler(done));
      status := 1;
    }

    method RecordPage()
      requires Valid() && Inv(State()) && Enabled(State(), Record)
      modifies pool.swap_pool_table, `fault
      ensures Valid() && State() == Next(old(State()), Record)
    {
      hide Agreed, Served;
      ghost var m := State();
      var i, x := fault.frame, fault.x;
      pool.swap_pool_table[i] := pool.swap_pool_table[i].(sw_asid := x.asid);
      pool.swap_pool_table[i] := pool.swap_pool_table[i].(sw_pageNo := x.page);
      pool.swap_pool_table[i] := pool.swap_pool_table[i].(sw_pte := x);
      fault := fault.(phase := Recorded);
      assert Tables() == m.pte;
    }

    /** The second masked section: the new page becomes valid. */
    method InstallPage()
      requires Valid() && Inv(State()) && Enabled(State(), Install)
      modifies sup_privatePgTbl, tlb, `ENTRYHI, `ENTRYLO, `INDEX, `fault
      ensures Valid() && State() == Next(old(State()), Install)
    {
      hide Agreed, Served, Rewritten, Invalidated, Mapped;
      Rewrite(pool.swap_pool_table[fault.frame].sw_pte, Mapped(fault.frame));
      fault := fault.(phase := Installed);
    }

    /** release_swap_pool_mutex; the process takes up its instruction again. */
    method Leave()
      requires Valid() && Inv(State()) && Enabled(State(), Release)
      modifies `fault, `waiting
      ensures Valid() && State() == Next(old(State()), Release)
      ensures fault == Idle && waiting == old(waiting) - {old(fault).x.asid}
    {
      hide Agreed, Served;
      waiting := waiting - {fault.x.asid};
      fault := Idle;
    }

    /** The first half of the handler: a page in the chosen frame is made invalid and written back. */
    method Evict() returns (ghost steps: seq<Label>)
      requires Valid() && Inv(State()) && fault.Serving? && fault.phase.Picked? && IsFrame(fault.frame)
      modifies sup_privatePgTbl, tlb, `ENTRYHI, `ENTRYLO, `INDEX, `data0, `command, `ram, `flash, `fault
      ensures Valid() && Inv(State()) && Run(old(State()), steps) == Some(State()) && NoStore(steps)
      ensures fault == old(fault).(phase := Cleared)
    {
      hide Sized, Complete, Agreed, Served, Inv, Enabled, Next, Run;
      ghost var m := State();
      HandlerAdvances(m);
      RunOne(m, Examine);
      var occupied := ExamineFrame();
      steps := [Examine];
      if occupied {
        HandlerAdvances(State());
        RunAppend(m, steps, Invalidate);
        TakeFrame();
        steps := steps + [Invalidate];
        ghost var writing := WriteBack();
        RunConcat(m, steps, writing);
        steps := steps + writing;
      }
    }

    /** The page in the frame goes to the block the swap table names. */
    method WriteBack() returns (ghost steps: seq<Label>)
      requires Valid() && Inv(State()) && fault.Serving? && fault.phase.Taken? && IsFrame(fault.frame)
      modifies `data0, `command, `ram, `flash, `fault
      ensures Valid() && Inv(State()) && Run(old(State()), steps) == Some(State()) && NoStore(steps)
      ensures fault == old(fault).(phase := Cleared)
    {
      hide Agreed, Served, Inv, Enabled, Next, Run;
      ghost var m := State();
      VictimIsPage(m);
      HandlerAdvances(m);
      RunOne(m, Address);
      var flash_no, block_no := ReadOwner();
      ghost var writing;
      var io_val;
      io_val, writing := FlashIo(flash_no, fault.frame, block_no, FLASHWRITE);
      RunConcat(m, [Address], writing);
      steps := [Address] + writing;
    }

    /** The device and the block of the page in the frame, read from the swap table. */
    method ReadOwner() returns (flash_no: int, block_no: int)
      requires Valid() && Inv(State()) && Enabled(State(), Address)
      modifies `fault
      ensures Valid() && State() == Next(old(State()), Address)
      ensures Pg(flash_no + 1, block_no) == Victim(old(State()))
      ensures fault == old(fault).(phase := Addressed(Pg(flash_no + 1, block_no)))
    {
      hide Agreed, Served;
      var swap_entry := pool.swap_pool_table[fault.frame];
      flash_no, block_no := swap_entry.sw_asid - 1, swap_entry.sw_pageNo;
      fault := fault.(phase := Addressed(Pg(flash_no + 1, block_no)));
    }

    /** The second half: the wanted page is read in, entered in the table and made valid. */
    method BringIn() returns (ghost steps: seq<Label>)
      requires Valid() && Inv(State()) && fault.Serving? && fault.phase.Cleared? && IsPg(fault.x)
      modifies pool.swap_pool_table, sup_privatePgTbl, tlb, `ENTRYHI, `ENTRYLO, `INDEX
      modifies `data0, `command, `ram, `flash, `fault
      ensures Valid() && Inv(State()) && Run(old(State()), steps) == Some(State()) && NoStore(steps)
      ensures fault == old(fault).(phase := Installed)
    {
      hide Agreed, Served, Enabled, Next, Run;
      ghost var m := State();
      ghost var reading;
      var io_val;
      io_val, reading := FlashIo(fault.x.asid - 1, fault.frame, fault.x.page, FLASHREAD);
      Settle();
      RunConcat(m, reading, [Record] + [Install]);
      steps := reading + ([Record] + [Install]);
    }

    method Settle()
      requires Valid() && Inv(State()) && fault.Serving? && fault.phase.Loaded?
      modifies pool.swap_pool_table, sup_privatePgTbl, tlb, `ENTRYHI, `ENTRYLO, `INDEX, `fault
      ensures Valid() && Inv(State()) && Run(old(State()), [Record] + [Install]) == Some(State())
      ensures fault == old(fault).(phase := Installed)
    {
      hide Agreed, Served, Inv, Enabled, Next, Run;
      ghost var m := State();
      HandlerAdvances(m);
      RunOne(m, Record);
      RecordPage();
      HandlerAdvances(State());
      RunAppend(m, [Record], Install);
      InstallPage();
    }

    /** The handler has the mutex, knows the page and has chosen a frame. */
    method Begin(asid: int) returns (ghost steps: seq<Label>)
      requires Valid() && Inv(State()) && fault.Idle? && asid in waiting
      modifies `fault, pool`swap_index
      ensures Valid() && Inv(State()) && Run(old(State()), steps) == Some(State()) && NoStore(steps)
      ensures fault.Serving? && fault.x == Wanted(old(State()), asid) && IsPg(fault.x) && fault.x.asid == asid
      ensures fault.phase.Picked? && IsFrame(fault.frame)
    {
      hide Agreed, Served, Next, Run, NextFrame;
      ghost var m := State();
      RunOne(m, Acquire(asid));
      Enter(asid);
      HandlerAdvances(State());
      RunAppend(m, [Acquire(asid)], Choose);
      ChooseFrame();
      FaultPage(State());
      steps := [Acquire(asid)] + [Choose];
    }

    /**
      pagefault_handler for a waiting process, with no other process running in between: a run of the machine
      that stores nothing, after which the process has its page.
     */
    method PagefaultHandler(asid: int) returns (ghost steps: seq<Label>)
      requires Valid() && Inv(State()) && fault.Idle? && asid in waiting
      modifies pool`swap_index, pool.swap_pool_table, sup_privatePgTbl, tlb, `ENTRYHI, `ENTRYLO, `INDEX
      modifies `data0, `command, `ram, `flash, `waiting, `fault
      ensures Valid() && Inv(State()) && Run(old(State()), steps) == Some(State()) && NoStore(steps)
      ensures fault.Idle? && waiting == old(waiting) - {asid}
      ensures var x := Wanted(old(State()), asid); IsPg(x) && IsValid(State().pte[x].entryLO)
      ensures forall x, o :: IsPg(x) && x.asid !in dead && 0 <= o < PAGEWORDS ==>
        Logical(State(), x, o) == Logical(old(State()), x, o)
    {
      hide Sized, Complete, Agreed, Served, Inv, Next, Run, Occupied, Wanted;
      ghost var m := State();
      steps := Begin(asid);
      ghost var evicting := Evict();
      RunConcat(m, steps, evicting);
      steps := steps + evicting;
      ghost var bringing := BringIn();
      RunConcat(m, steps, bringing);
      steps := steps + bringing;
      HandlerAdvances(State());
      FaultEnds(State());
      RunAppend(m, steps, Release);
      Leave();
      steps := steps + [Release];
      NoStoreKeeps(m, steps, State());
    }

    // -------------------------------------------------------------- mark_all_unoccupied, piece by piece

    /** The test of entry 0, in the first turn of the loop; from here on the process does not run any more. */
    method TestEntry(asid: int) returns (found: bool)
      requires Valid() && Sized(State()) && Complete(State()) && Possible(State(), End(asid))
      modifies `dead, `marking
      ensures Valid() && State() == Next(old(State()), End(asid))
      ensures found <==> State().swap[0].sw_asid == asid
    {
      found := pool.swap_pool_table[0].sw_asid == asid;
      dead := dead + {asid};
      marking := if found then marking + {asid} else marking;
    }

    /** The store into entry 0, which may come at any later time. */
    method FreeEntry(asid: int)
      requires Valid() && Sized(State()) && Complete(State()) && Possible(State(), Mark(asid))
      modifies pool.swap_pool_table, `marking
      ensures Valid() && State() == Next(old(State()), Mark(asid))
    {
      ghost var m := State();
      pool.swap_pool_table[0] := pool.swap_pool_table[0].(sw_asid := NOPROC);
      marking := marking - {asid};
      assert Tables() == m.pte;
    }

    /**
      All turns of the loop with no other process in between. They leave the machine in order exactly when the
      handler, if it is at work, does not count on the entry that is freed.
     */
    method MarkAllUnoccupied(asid: int) returns (ghost steps: seq<Label>)
      requires Valid() && Inv(State()) && Enabled(State(), End(asid))
      modifies pool.swap_pool_table, `dead, `marking
      ensures Valid() && Raw(old(State()), steps) == Some(State())
      ensures State() == old(State()).(swap := Marked(old(State()).swap, asid), dead := old(State()).dead + {asid})
      ensures Inv(State()) <==> (old(State()).swap[0].sw_asid == asid ==> !Examined(old(State())))
    {
      hide Agreed, Served, Ended, Raw, Next, Examined;
      ghost var m := State();
      steps := TurnsOfLoop(m, asid);
      pool.MarkAllUnoccupied(asid);
      dead := dead + {asid};
      assert Tables() == m.pte;
    }
  }

  /** What the turns of the loop amount to. */
  lemma TurnsOfLoop(m: Machine, a: int) returns (steps: seq<Label>)
    requires Inv(m) && Enabled(m, End(a))
    ensures var n := m.(swap := Marked(m.swap, a), dead := m.dead + {a});
      Raw(m, steps) == Some(n) && (Inv(n) <==> (m.swap[0].sw_asid == a ==> !Examined(m)))
  {
    hide Agreed, Served, Ended, Raw;
    EndInv(m, End(a));
    NoneIsRaw(m);
    RawAppend(m, [], m, End(a));
    assert [] + [End(a)] == [End(a)];
    steps := [End(a)];
    if m.swap[0].sw_asid == a {
      NotMarking(m, a);
      RawAppend(m, steps, Next(m, End(a)), Mark(a));
      MarkIsSafeIff(Next(m, End(a)), a);
      steps := steps + [Mark(a)];
    }
  }

  lemma NoneIsRaw(m: Machine)
    ensures Raw(m, []) == Some(m)
  {}

  lemma NotMarking(m: Machine, a: int)
    requires Inv(m) && Running(m, a)
    ensures a !in m.marking && m.marking + {a} - {a} == m.marking
  {}

  /** The page number of every page below the stack is below 31. */
  lemma LowPage(x: Pg)
    requires IsPg(x) && x.page < USERPGTBLSIZE - 1
    ensures Key(x) == 0x80000000 | (Word(x.page) << 12) | (Word(x.asid) << 6) && GetPageno(Key(x)) < 31
  {
    hide GetPageno, Word;
    SmallWord(x.asid);
    SmallWord(x.page);
    PageBits(Word(x.page), Word(x.asid));
  }

  lemma StackKey(x: Pg)
    requires IsPg(x) && x.page == USERPGTBLSIZE - 1
    ensures Key(x) == UPROC_VIRT_STACK | (Word(x.asid) << 6)
  {}
}
