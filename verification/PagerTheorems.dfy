/** What the pager promises over whole runs. */
module PagerTheorems {
  import opened PageWords
  import opened SwapPool
  import opened PagerModel
  import opened PagerSafety

  /** After test() has set up the pager and the page tables; RAM and flash hold anything. */
  ghost predicate Initial(m: Machine) {
    && Sized(m) && Complete(m)
    && m.swapIndex == 0 && (forall f :: 0 <= f < SWAPSIZE ==> !Occupied(m.swap[f]))
    && (forall x :: x in m.pte ==> m.pte[x] == Pte(Key(x), DIRTYON))
    && (forall i :: 0 <= i < |m.tlb| ==> m.tlb[i].None?)
    && m.waiting == map[] && m.dead == {} && m.marking == {} && m.fault == Idle
  }

  lemma InitialInv(m: Machine)
    requires Initial(m)
    ensures Inv(m)
    ensures forall x, o :: IsPg(x) && 0 <= o < PAGEWORDS ==> Logical(m, x, o) == m.flash[x][o]
  {
    hide Key, Decode, FrameOf, Mapped, IsValid, PageIndex;
    DirtyIsInvalid();
  }

  /** What the code can do: whatever the processes, the handler and the devices do, step by step. */
  ghost function Raw(m: Machine, steps: seq<Label>): Option<Machine> {
    if steps == [] then Some(m)
    else
      var before, l := Raw(m, steps[..|steps| - 1]), steps[|steps| - 1];
      if before.Some? && Sized(before.value) && Complete(before.value) && Possible(before.value, l) then
        Some(Next(before.value, l))
      else None
  }

  /** A run: what the code can do as long as frame 0 is freed only when it may be. */
  ghost function Run(m: Machine, steps: seq<Label>): (r: Option<Machine>)
    requires Inv(m)
    ensures r.Some? ==> Inv(r.value)
  {
    if steps == [] then Some(m)
    else
      var before, l := Run(m, steps[..|steps| - 1]), steps[|steps| - 1];
      if before.Some? && Enabled(before.value, l) then
        StepInv(before.value, l);
        Some(Next(before.value, l))
      else None
  }

  /** Each store that frees frame 0 comes at a moment described by MayMark. */
  ghost predicate Harmless(m: Machine, steps: seq<Label>) {
    forall i :: 0 <= i < |steps| && steps[i].Mark? ==>
      var n := Raw(m, steps[..i]); n.Some? && Sized(n.value) && MayMark(n.value)
  }

  lemma NoneIsHarmless(m: Machine)
    ensures Harmless(m, [])
  {}

  lemma HarmlessAppend(m: Machine, steps: seq<Label>, l: Label)
    ensures Harmless(m, steps + [l]) <==>
      Harmless(m, steps) && (l.Mark? ==> var n := Raw(m, steps); n.Some? && Sized(n.value) && MayMark(n.value))
  {
    hide Raw, Sized, MayMark;
    assert (steps + [l])[..|steps|] == steps;
    assert forall i :: 0 <= i < |steps| ==> (steps + [l])[..i] == steps[..i] && (steps + [l])[i] == steps[i];
  }

  /** So the runs are just what the code can do, harmlessly. */
  lemma {:induction false} RunIffHarmless(m: Machine, steps: seq<Label>)
    requires Inv(m)
    ensures Run(m, steps).Some? <==> Raw(m, steps).Some? && Harmless(m, steps)
    ensures Run(m, steps).Some? ==> Raw(m, steps) == Run(m, steps)
  {
    hide Agreed, Served, Ended, Possible, Next, MayMark, Harmless;
    NoneIsHarmless(m);
    if steps != [] {
      var prefix, l := steps[..|steps| - 1], steps[|steps| - 1];
      assert prefix + [l] == steps;
      HarmlessAppend(m, prefix, l);
      RunIffHarmless(m, prefix);
    }
  }

  // ---------------------------------------------------------------- paged memory is flat memory

  predicate Stores(l: Label, x: Pg, offset: int) {
    l.Store? && Pg(l.asid, l.page) == x && l.offset == offset
  }

  /** Flat memory: the last value stored in the word, or what it held at first. */
  function Flat(initial: int, steps: seq<Label>, x: Pg, offset: int): int {
    if steps == [] then initial
    else if Stores(steps[|steps| - 1], x, offset) then steps[|steps| - 1].value
    else Flat(initial, steps[..|steps| - 1], x, offset)
  }

  /** What a load brings in is the word of the page, wherever the page has been. */
  lemma LoadReadsLogical(m: Machine, l: Label)
    requires Inv(m) && l.Load? && Enabled(m, l)
    ensures Read(m, l) == Logical(m, Pg(l.asid, l.page), l.offset)
  {
    hide Key, Decode, FrameOf, Mapped, IsValid, PageIndex;
    HitsResident(m, l.asid, l.page, l.slot);
  }

  lemma StoreRefines(m: Machine, l: Label, n: Machine, x: Pg, o: int)
    requires Inv(m) && Enabled(m, l) && n == Next(m, l) && Inv(n) && l.Store?
    requires IsPg(x) && x.asid !in m.dead && x.asid !in n.dead && 0 <= o < PAGEWORDS
    ensures Logical(n, x, o) == if Stores(l, x, o) then l.value else Logical(m, x, o)
  {
    hide Key, Decode, FrameOf, Mapped, IsValid, IsDirty, PageIndex, Agreed, Served, Ended;
    HitsResident(m, l.asid, l.page, l.slot);
    ResidentEverywhere(m, x);
  }

  lemma InvalidateRefines(m: Machine, n: Machine, x: Pg, o: int)
    requires Inv(m) && Enabled(m, Invalidate) && n == Next(m, Invalidate) && Inv(n)
    requires IsPg(x) && x.asid !in m.dead && x.asid !in n.dead && 0 <= o < PAGEWORDS
    ensures Logical(n, x, o) == Logical(m, x, o)
  {
    hide Key, FrameOf, Mapped, IsValid, Invalidated, PageIndex, Agreed, Probed, Copied;
    var f := m.fault.frame;
    HeldEverywhere(m, f);
    ResidentEverywhere(m, x);
    MappedFrame(f);
    InvalidatedIsInvalid(m.pte[m.swap[f].sw_pte].entryLO);
  }

  lemma InstallRefines(m: Machine, n: Machine, x: Pg, o: int)
    requires Inv(m) && Enabled(m, Install) && n == Next(m, Install) && Inv(n)
    requires IsPg(x) && x.asid !in m.dead && x.asid !in n.dead && 0 <= o < PAGEWORDS
    ensures Logical(n, x, o) == Logical(m, x, o)
  {
    hide Key, Decode, FrameOf, Mapped, IsValid, Invalidated, PageIndex, Agreed, Ended, Probed;
    WaitsForIt(m);
    HeldEverywhere(m, m.fault.frame);
    MappedFrame(m.fault.frame);
  }

  lemma DmaRefines(m: Machine, l: Label, n: Machine, x: Pg, o: int)
    requires Inv(m) && Enabled(m, l) && n == Next(m, l) && Inv(n) && (l.DmaWrite? || l.DmaRead?)
    requires IsPg(x) && x.asid !in m.dead && x.asid !in n.dead && 0 <= o < PAGEWORDS
    ensures Logical(n, x, o) == Logical(m, x, o)
  {
    hide Key, Decode, FrameOf, Mapped, IsValid, Invalidated, PageIndex, Agreed;
    HeldEverywhere(m, m.fault.frame);
    ResidentEverywhere(m, x);
  }

  /** A page that stays where it is, or leaves flash alone while it is there, keeps its words. */
  lemma SameMemory(m: Machine, n: Machine, x: Pg, o: int)
    requires Inv(m) && Inv(n) && n.ram == m.ram && n.flash == m.flash && n.pte == m.pte
    requires IsPg(x) && x.asid !in m.dead && x.asid !in n.dead && 0 <= o < PAGEWORDS
    requires Leaving(m, x) && Leaving(n, x) ==> n.fault.frame == m.fault.frame
    requires !IsValid(m.pte[x].entryLO) ==>
      Leaving(n, x) == Leaving(m, x) || (Leaving(m, x) && m.flash[x] == m.ram[m.fault.frame])
    ensures Logical(n, x, o) == Logical(m, x, o)
  {
    hide Inv, IsValid, FrameOf, Mapped;
  }

  /** When all words are written the block says what the frame says. */
  lemma WriteDoneRefines(m: Machine, n: Machine, x: Pg, o: int)
    requires Inv(m) && Enabled(m, WriteDone) && n == Next(m, WriteDone) && Inv(n)
    requires IsPg(x) && x.asid !in m.dead && x.asid !in n.dead && 0 <= o < PAGEWORDS
    ensures Logical(n, x, o) == Logical(m, x, o)
  {
    hide Key, FrameOf, Mapped, IsValid, PageIndex, Agreed, Ended, Logical;
    SameMemory(m, n, x, o);
  }

  /** A step after which every word is to be looked for where it was, and is there. */
  predicate Still(l: Label) {
    !l.Store? && !l.Invalidate? && !l.Install? && !l.DmaWrite? && !l.DmaRead? && !l.WriteDone?
  }

  lemma StillMoves(m: Machine, l: Label, n: Machine)
    requires Sized(m) && Complete(m) && Possible(m, l) && n == Next(m, l) && Still(l)
    ensures n.ram == m.ram && n.flash == m.flash && n.pte == m.pte
  {
    hide Sized, Complete, Possible, Rewritten, Stored, Refilled, NextFrame, Victim, Occupied;
  }

  lemma StillLeaves(m: Machine, l: Label, n: Machine, x: Pg)
    requires Sized(m) && Complete(m) && Possible(m, l) && n == Next(m, l) && Still(l) && Sized(n)
    ensures Leaving(n, x) == Leaving(m, x) && (Leaving(m, x) ==> n.fault.frame == m.fault.frame)
  {
    hide Complete, Rewritten, Stored, Refilled, NextFrame, Victim, Occupied, Hits, Misses, Key, IsValid, IsDirty;
  }

  lemma StillRefines(m: Machine, l: Label, n: Machine, x: Pg, o: int)
    requires Inv(m) && Enabled(m, l) && n == Next(m, l) && Inv(n) && Still(l)
    requires IsPg(x) && x.asid !in m.dead && x.asid !in n.dead && 0 <= o < PAGEWORDS
    ensures Logical(n, x, o) == Logical(m, x, o)
  {
    hide Agreed, Served, Ended, Possible, Next, Logical, Still;
    StillMoves(m, l, n);
    StillLeaves(m, l, n, x);
    SameMemory(m, n, x, o);
  }

  /** One step changes the memory of the processes exactly as a store says, and otherwise not at all. */
  lemma StepRefines(m: Machine, l: Label, n: Machine, x: Pg, o: int)
    requires Inv(m) && Enabled(m, l) && n == Next(m, l) && Inv(n)
    requires IsPg(x) && x.asid !in m.dead && x.asid !in n.dead && 0 <= o < PAGEWORDS
    ensures Logical(n, x, o) == if Stores(l, x, o) then l.value else Logical(m, x, o)
  {
    hide Inv, Enabled, Next, Logical;
    match l
    case Store(_, _, _, _, _) => StoreRefines(m, l, n, x, o);
    case Invalidate => InvalidateRefines(m, n, x, o);
    case Install => InstallRefines(m, n, x, o);
    case DmaWrite => DmaRefines(m, l, n, x, o);
    case DmaRead => DmaRefines(m, l, n, x, o);
    case WriteDone => WriteDoneRefines(m, n, x, o);
    case _ => StillRefines(m, l, n, x, o);
  }

  lemma {:induction false} RunRefines(m: Machine, steps: seq<Label>, x: Pg, o: int)
    requires Inv(m) && Run(m, steps).Some?
    requires IsPg(x) && x.asid !in Run(m, steps).value.dead && 0 <= o < PAGEWORDS
    ensures x.asid !in m.dead
    ensures Logical(Run(m, steps).value, x, o) == Flat(Logical(m, x, o), steps, x, o)
  {
    hide Inv, Enabled, Logical;
    if steps != [] {
      var prefix, l := steps[..|steps| - 1], steps[|steps| - 1];
      var before := Run(m, prefix).value;
      DeadStayDead(before, l);
      RunRefines(m, prefix, x, o);
      StepRefines(before, l, Run(m, steps).value, x, o);
    }
  }

  lemma DeadStayDead(m: Machine, l: Label)
    requires Inv(m) && Enabled(m, l)
    ensures m.dead <= Next(m, l).dead && (!l.End? ==> Next(m, l).dead == m.dead)
  {}

  /**
    Paged memory refines flat memory: in every run, a load brings in the last value the process stored in
    the word, or what the flash device held at the start. RunIffHarmless says which runs these are.
   */
  lemma PagedIsFlat(m: Machine, steps: seq<Label>, l: Label)
    requires Initial(m) && (InitialInv(m); Run(m, steps).Some?)
    requires l.Load? && Enabled(Run(m, steps).value, l)
    ensures Read(Run(m, steps).value, l) ==
            Flat(m.flash[Pg(l.asid, l.page)][l.offset], steps, Pg(l.asid, l.page), l.offset)
  {
    hide Inv, Logical;
    InitialInv(m);
    var n, x := Run(m, steps).value, Pg(l.asid, l.page);
    RunRefines(m, steps, x, l.offset);
    LoadReadsLogical(n, l);
  }

  // ---------------------------------------------------------------- tables and TLB

  /** Frame f holds page x. */
  predicate Names(m: Machine, f: int, x: Pg)
    requires Sized(m)
  {
    IsFrame(f) && Occupied(m.swap[f]) && m.swap[f].sw_pte == x
  }

  /** No page is held by two frames, whatever phase the fault is in. */
  lemma OnePlaceEach(m: Machine, f: int, g: int, x: Pg)
    requires Inv(m) && Names(m, f, x) && Names(m, g, x)
    ensures f == g
  {
    hide Key, Decode, FrameOf, Mapped, IsValid, PageIndex, Waits, Coherent, Unique;
    assert Held(m, f) && Held(m, g);
    MappedFrame(f);
    MappedFrame(g);
  }

  /** With no fault in progress, swap table and page tables are mutual inverses. */
  lemma MutualInverses(m: Machine, steps: seq<Label>)
    requires Initial(m) && (InitialInv(m); Run(m, steps).Some?) && Run(m, steps).value.fault == Idle
    ensures var n := Run(m, steps).value;
      && (forall f, x :: Names(n, f, x) ==> IsPg(x) && n.pte[x].entryLO == Mapped(f) && IsValid(n.pte[x].entryLO))
      && (forall x :: IsPg(x) && x.asid !in n.dead && IsValid(n.pte[x].entryLO) ==>
            Names(n, FrameOf(n.pte[x].entryLO), x) && n.pte[x].entryLO == Mapped(FrameOf(n.pte[x].entryLO)))
      && (forall f, g, x :: Names(n, f, x) && Names(n, g, x) ==> f == g)
  {
    hide Key, Decode, FrameOf, Mapped, IsValid, PageIndex, Waits, Coherent, Unique, Run;
    InitialInv(m);
    var n := Run(m, steps).value;
    forall f, x | Names(n, f, x)
      ensures IsPg(x) && n.pte[x].entryLO == Mapped(f) && IsValid(n.pte[x].entryLO)
    {
      assert Held(n, f);
      MappedFrame(f);
    }
    forall x | IsPg(x) && x.asid !in n.dead && IsValid(n.pte[x].entryLO)
      ensures Names(n, FrameOf(n.pte[x].entryLO), x) && n.pte[x].entryLO == Mapped(FrameOf(n.pte[x].entryLO))
    {
      assert Resident(n, x) && Held(n, FrameOf(n.pte[x].entryLO));
    }
    forall f, g, x | Names(n, f, x) && Names(n, g, x) ensures f == g {
      OnePlaceEach(n, f, g, x);
    }
  }

  /**
    While a fault is served the two stay mutual inverses but for the frame in limbo: the page it names, if it
    names one, is invalid, and no valid entry of a living process leads there.
   */
  lemma WeakerInverses(m: Machine, f: int, x: Pg)
    requires Inv(m)
    ensures Names(m, f, x) ==> IsPg(x) && (Limbo(m, f) <==> !IsValid(m.pte[x].entryLO))
    ensures Names(m, f, x) && !Limbo(m, f) ==> m.pte[x].entryLO == Mapped(f)
    ensures IsPg(x) && x.asid !in m.dead && IsValid(m.pte[x].entryLO) ==>
      var g := FrameOf(m.pte[x].entryLO); Names(m, g, x) && !Limbo(m, g) && m.pte[x].entryLO == Mapped(g)
  {
    hide Key, Decode, FrameOf, Mapped, IsValid, PageIndex, Waits, Coherent, Unique;
    if Names(m, f, x) {
      assert Held(m, f);
      MappedFrame(f);
    }
    if IsPg(x) && x.asid !in m.dead && IsValid(m.pte[x].entryLO) {
      assert Resident(m, x) && Held(m, FrameOf(m.pte[x].entryLO));
    }
  }

  /**
    In every run the TLB has at most one entry for a page, each entry is the page table entry of the page its
    key decodes to, and a page that can be read can be written: no modification exception arises.
   */
  lemma TlbIsCoherent(m: Machine, steps: seq<Label>, i: int)
    requires Initial(m) && (InitialInv(m); Run(m, steps).Some?)
    requires 0 <= i < |Run(m, steps).value.tlb| && Run(m, steps).value.tlb[i].Some?
    ensures var n := Run(m, steps).value;
      var e := n.tlb[i].value;
      && IsPg(Decode(e.entryHI)) && e == n.pte[Decode(e.entryHI)]
      && (forall j :: 0 <= j < |n.tlb| && n.tlb[j].Some? && n.tlb[j].value.entryHI == e.entryHI ==> i == j)
      && (Decode(e.entryHI).asid !in n.dead && IsValid(e.entryLO) ==> IsDirty(e.entryLO))
  {
    hide Key, Decode, FrameOf, Mapped, IsValid, IsDirty, PageIndex, Waits, Run, Served;
    InitialInv(m);
    var n := Run(m, steps).value;
    var x := Decode(n.tlb[i].value.entryHI);
    assert Coherent(n, i) && Resident(n, x);
    if x.asid !in n.dead && IsValid(n.pte[x].entryLO) {
      assert Held(n, FrameOf(n.pte[x].entryLO));
      MappedFrame(FrameOf(n.pte[x].entryLO));
    }
  }

  /** The low bits of an entry: D always, V if it is valid, and no other; G above all is clear. */
  predicate LowBits(entryLO: bv32) {
    entryLO & 0xFFF == (if IsValid(entryLO) then 0x600 else 0x400) && entryLO & 0x100 == 0
  }

  /** In every run, bit for bit. */
  lemma EntriesArePrivate(m: Machine, steps: seq<Label>)
    requires Initial(m) && (InitialInv(m); Run(m, steps).Some?)
    ensures var n := Run(m, steps).value;
      && (forall x :: IsPg(x) ==> n.pte[x].entryHI == Key(x) && LowBits(n.pte[x].entryLO))
      && (forall i :: 0 <= i < |n.tlb| && n.tlb[i].Some? ==> LowBits(n.tlb[i].value.entryLO))
  {
    hide Key, Decode, Run, Served, Ended, Waits, Held, Resident, LowBits, Proper, IsValid;
    InitialInv(m);
    var n := Run(m, steps).value;
    forall x | IsPg(x) ensures LowBits(n.pte[x].entryLO) {
      ProperIsLow(n.pte[x].entryLO);
    }
    forall i | 0 <= i < |n.tlb| && n.tlb[i].Some? ensures LowBits(n.tlb[i].value.entryLO) {
      assert Coherent(n, i);
    }
  }

  lemma ProperIsLow(entryLO: bv32)
    requires Proper(entryLO)
    ensures LowBits(entryLO)
  {}

  /** So in every run an access that hits uses the entry of the page it means, of the process that makes it. */
  lemma NobodyHitsAnother(m: Machine, steps: seq<Label>, asid: int, page: int, slot: int)
    requires Initial(m) && (InitialInv(m); Run(m, steps).Some?) && Hits(Run(m, steps).value, asid, page, slot)
    ensures var n := Run(m, steps).value;
      Decode(n.tlb[slot].value.entryHI) == Pg(asid, page) && n.tlb[slot].value == n.pte[Pg(asid, page)]
  {
    hide Key, Decode, Run, Inv, Matches;
    InitialInv(m);
    CoherentKey(Run(m, steps).value, slot, Pg(asid, page));
  }

  /** After a refill the access hits the entry of its page. */
  lemma RefillHits(m: Machine, l: Label)
    requires Inv(m) && l.Refill? && Enabled(m, l)
    ensures var n := Next(m, l);
      Hits(n, l.asid, l.page, l.slot) && n.tlb[l.slot].value == n.pte[Pg(l.asid, l.page)] && n.pte == m.pte
  {
    hide Key, PageIndex, Served, Ended, Misses, Held, Resident, Waits, Coherent;
    KeyFields(Pg(l.asid, l.page));
  }

  // ---------------------------------------------------------------- a fault ends

  /** What the handler, or the device it waits for, does next. */
  function Handler(m: Machine): Label
    requires !m.fault.Idle?
  {
    match m.fault
    case Entered(_) => Choose
    case Serving(_, _, phase) =>
      match phase
      case Picked => Examine
      case Chosen => Invalidate
      case Taken => Address
      case Addressed(_) => StartWrite
      case Writing(_, done) => if done < PAGEWORDS then DmaWrite else WriteDone
      case Cleared => StartRead
      case Reading(done) => if done < PAGEWORDS then DmaRead else ReadDone
      case Loaded => Record
      case Recorded => Install
      case Installed => Release
  }

  /** Steps left until the swap pool is released. */
  function Remaining(fault: Fault): int {
    match fault
    case Idle => 0
    case Entered(_) => 2 * PAGEWORDS + 14
    case Serving(_, _, phase) =>
      match phase
      case Picked => 2 * PAGEWORDS + 13
      case Chosen => 2 * PAGEWORDS + 12
      case Taken => 2 * PAGEWORDS + 11
      case Addressed(_) => 2 * PAGEWORDS + 10
      case Writing(_, done) => 2 * PAGEWORDS + 9 - done
      case Cleared => PAGEWORDS + 8
      case Reading(done) => PAGEWORDS + 7 - done
      case Loaded => 4
      case Recorded => 3
      case Installed => 2
  }

  /** The phase after this one. */
  function Onward(m: Machine): Phase
    requires Sized(m) && m.fault.Serving?
  {
    match m.fault.phase
    case Picked => if Occupied(m.swap[m.fault.frame]) then Chosen else Cleared
    case Chosen => Taken
    case Taken => Addressed(Victim(m))
    case Addressed(x) => Writing(x, 0)
    case Writing(x, done) => if done < PAGEWORDS then Writing(x, done + 1) else Cleared
    case Cleared => Reading(0)
    case Reading(done) => if done < PAGEWORDS then Reading(done + 1) else Loaded
    case Loaded => Recorded
    case Recorded => Installed
    case Installed => Installed
  }

  /** The handler is never stuck. */
  lemma HandlerEnabled(m: Machine)
    requires Inv(m) && !m.fault.Idle?
    ensures Enabled(m, Handler(m))
  {
    hide Key, PageIndex, Agreed, Ended, Copied;
    if m.fault.Serving? {
      HeldEverywhere(m, m.fault.frame);
    }
  }

  /** What a step of the handler does to the fault. */
  lemma HandlerMoves(m: Machine)
    requires Inv(m) && !m.fault.Idle? && Enabled(m, Handler(m))
    ensures m.fault.Entered? ==>
              Next(m, Handler(m)).fault == Serving(m.fault.x, NextFrame(m.swap, m.swapIndex), Picked)
    ensures m.fault.Serving? && m.fault.phase.Installed? ==> Next(m, Handler(m)).fault == Idle
    ensures m.fault.Serving? && !m.fault.phase.Installed? ==>
              Next(m, Handler(m)).fault == m.fault.(phase := Onward(m))
  {
    hide Inv, Key, Decode, Rewritten, Stored, Invalidated, Mapped, NextFrame;
  }

  /** It is never stuck, and each step of its own brings the end nearer. */
  lemma HandlerAdvances(m: Machine)
    requires Inv(m) && !m.fault.Idle?
    ensures Enabled(m, Handler(m))
    ensures 0 <= Remaining(Next(m, Handler(m)).fault) < Remaining(m.fault)
    ensures m.fault.Serving? && !m.fault.phase.Installed? ==>
              Next(m, Handler(m)).fault == m.fault.(phase := Onward(m))
  {
    hide Agreed, Ended, Copied, Enabled, Next, NextFrame;
    HandlerEnabled(m);
    HandlerMoves(m);
  }

  /** No other step puts the end off. */
  lemma OnlyHandlerAdvances(m: Machine, l: Label)
    requires Inv(m) && !m.fault.Idle? && Enabled(m, l) && l != Handler(m)
    ensures Next(m, l).fault == m.fault
  {
    hide Key, Decode, FrameOf, Mapped, IsValid, IsDirty, PageIndex, Agreed, Served, Ended, Invalidated;
    hide Rewritten, Stored, Refilled, Misses, Hits, Victim;
  }

  /** At the end the process runs again, and its page is valid. */
  lemma FaultEnds(m: Machine)
    requires Inv(m) && Enabled(m, Release)
    ensures var n := Next(m, Release);
      n.fault == Idle && m.fault.x.asid !in n.waiting && IsPg(m.fault.x) && IsValid(n.pte[m.fault.x].entryLO)
  {
    hide Key, Decode, FrameOf, Mapped, IsValid, IsDirty, PageIndex, Coherent, Unique;
    assert Held(m, m.fault.frame);
    MappedFrame(m.fault.frame);
  }

  /** Every later turn of the loop of mark_all_unoccupied finds somebody else in entry 0. */
  lemma LaterTurnsFindNothing(m: Machine, steps: seq<Label>, a: int)
    requires Inv(m) && Run(m, steps).Some?
    requires a in Run(m, steps).value.dead && a !in Run(m, steps).value.marking
    ensures Run(m, steps).value.swap[0].sw_asid != a
  {
    hide Agreed, Served;
  }

  // ---------------------------------------------------------------- over runs

  /** The steps of the run that the handler makes on its own behalf. */
  ghost function HandlerSteps(m: Machine, steps: seq<Label>): nat
    requires Inv(m) && Run(m, steps).Some?
  {
    if steps == [] then 0
    else
      var prefix, l := steps[..|steps| - 1], steps[|steps| - 1];
      var before := Run(m, prefix).value;
      HandlerSteps(m, prefix) + if !before.fault.Idle? && l == Handler(before) then 1 else 0
  }

  /** Some beginning of the run ends with no fault being served. */
  ghost predicate PassesIdle(m: Machine, steps: seq<Label>)
    requires Inv(m)
  {
    exists i :: 0 <= i <= |steps| && Run(m, steps[..i]).Some? && Run(m, steps[..i]).value.fault == Idle
  }

  lemma {:induction false} NearerIdle(m: Machine, steps: seq<Label>)
    requires Inv(m) && Run(m, steps).Some? && !PassesIdle(m, steps)
    ensures HandlerSteps(m, steps) + Remaining(Run(m, steps).value.fault) <= Remaining(m.fault)
  {
    hide Inv, Enabled, Next;
    assert steps[..|steps|] == steps;
    if steps != [] {
      var prefix, l := steps[..|steps| - 1], steps[|steps| - 1];
      var before := Run(m, prefix).value;
      forall i | 0 <= i <= |prefix| ensures steps[..i] == prefix[..i] {
      }
      NearerIdle(m, prefix);
      assert steps[..|prefix|] == prefix;
      if l == Handler(before) {
        HandlerAdvances(before);
      } else {
        OnlyHandlerAdvances(before, l);
      }
    }
  }

  /** Whatever happens in between, a fault is over once the handler has made as many steps as remained. */
  lemma FaultEndsInRun(m: Machine, steps: seq<Label>)
    requires Inv(m) && Run(m, steps).Some? && HandlerSteps(m, steps) >= Remaining(m.fault)
    ensures PassesIdle(m, steps)
  {
    hide Inv, Enabled, Next, Run, HandlerSteps;
    assert steps[..|steps|] == steps;
    if !PassesIdle(m, steps) {
      NearerIdle(m, steps);
      LeftIsPositive(Run(m, steps).value);
    }
  }

  lemma LeftIsPositive(m: Machine)
    requires Inv(m)
    ensures Remaining(m.fault) >= 0 && (Remaining(m.fault) == 0 <==> m.fault == Idle)
  {
    hide Agreed;
  }
}
