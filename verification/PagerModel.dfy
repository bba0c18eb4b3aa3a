/**
  The demand pager as a state machine: user processes load, store, miss in the TLB and fault at any
  moment, while one fault at a time is served phase by phase between them.
 */
module PagerModel {
  import opened PageWords
  import opened SwapPool

  const PAGEWORDS := 1024

  type Content = seq<int>

  datatype Option<T> = None | Some(value: T)

  /** How far the fault being served has come; Writing and Reading count the words transferred. */
  datatype Phase =
    | Picked                // a frame has been picked
    | Chosen                // it was found to be occupied
    | Taken                 // its page is invalid in the page table and in the TLB
    | Addressed(block: Pg)  // the block it goes to has been read from the swap table
    | Writing(block: Pg, done: nat)
    | Cleared               // the frame may be overwritten
    | Reading(done: nat)
    | Loaded
    | Recorded              // the swap table names the new page
    | Installed             // and the page is valid again

  datatype Fault = Idle | Entered(x: Pg) | Serving(x: Pg, frame: int, phase: Phase)

  datatype Machine = Machine(
    swap: seq<Swap>,
    swapIndex: int,
    pte: map<Pg, Pte>,
    tlb: seq<Option<Pte>>,
    ram: seq<Content>,
    flash: map<Pg, Content>,
    waiting: map<int, bv32>,  // the EntryHI saved when the process took a page fault
    dead: set<int>,           // processes that have begun to end, and run no more
    marking: set<int>,        // those of them that found frame 0 to be theirs, and will free it
    fault: Fault)

  datatype Label =
    | Load(asid: int, page: int, offset: int, slot: int)
    | Store(asid: int, page: int, offset: int, slot: int, value: int)
    | Refill(asid: int, page: int, slot: int)
    | Trap(asid: int, page: int, slot: int)
    | Acquire(asid: int)
    | Choose
    | Examine
    | Invalidate
    | Address
    | StartWrite
    | DmaWrite
    | WriteDone
    | StartRead
    | DmaRead
    | ReadDone
    | Record
    | Install
    | Release
    | End(asid: int)   // mark_all_unoccupied tests entry 0
    | Mark(asid: int)  // and stores into it

  // ---------------------------------------------------------------- the TLB

  ghost predicate Misses(tlb: seq<Option<Pte>>, entryHI: bv32) {
    forall i :: 0 <= i < |tlb| && tlb[i].Some? ==> !Matches(tlb[i].value, entryHI)
  }

  /** TLBP: the first entry that matches this key, or the number of entries. */
  function Probe(tlb: seq<Option<Pte>>, entryHI: bv32): (i: nat)
    ensures i <= |tlb|
    ensures i < |tlb| ==> tlb[i].Some? && Matches(tlb[i].value, entryHI)
    ensures i == |tlb| ==> Misses(tlb, entryHI)
  {
    if tlb == [] then 0
    else if tlb[0].Some? && Matches(tlb[0].value, entryHI) then 0
    else
      var i := Probe(tlb[1..], entryHI);
      assert i < |tlb[1..]| ==> tlb[1..][i] == tlb[i + 1];
      assert forall j :: 0 <= j < |tlb| && j > 0 ==> tlb[j] == tlb[1..][j - 1];
      i + 1
  }

  /** invalid_tlb_entry: the entry that matches this key, if the TLB holds one, becomes e. */
  function Probed(tlb: seq<Option<Pte>>, e: Pte): seq<Option<Pte>> {
    var i := Probe(tlb, e.entryHI);
    if i < |tlb| then tlb[i := Some(e)] else tlb
  }

  /** An entry of the TLB through which process asid may access the page. */
  predicate Hits(m: Machine, asid: int, page: int, slot: int) {
    && IsPg(Pg(asid, page))
    && 0 <= slot < |m.tlb| && m.tlb[slot].Some?
    && Matches(m.tlb[slot].value, Key(Pg(asid, page)))
  }

  // ---------------------------------------------------------------- steps

  /** The page a waiting process faulted on, as the handler works it out. */
  function Wanted(m: Machine, asid: int): Pg
    requires asid in m.waiting
  {
    Pg(asid, PageIndex(m.waiting[asid]))
  }

  predicate Running(m: Machine, asid: int) {
    asid !in m.waiting && asid !in m.dead
  }

  predicate In(m: Machine, phase: Phase) {
    m.fault.Serving? && m.fault.phase == phase
  }

  predicate Sized(m: Machine) {
    && |m.swap| == SWAPSIZE && 0 <= m.swapIndex < SWAPSIZE && |m.ram| == SWAPSIZE
    && (forall f :: 0 <= f < SWAPSIZE ==> |m.ram[f]| == PAGEWORDS)
    && (m.fault.Serving? ==> IsFrame(m.fault.frame))
  }

  ghost predicate Complete(m: Machine) {
    && (forall x :: x in m.pte <==> IsPg(x))
    && (forall x :: x in m.flash <==> IsPg(x))
    && (forall x :: x in m.flash ==> |m.flash[x]| == PAGEWORDS)
  }

  /** Frame 0 is being filled, and its entry is going to be written anew before anybody reads it. */
  predicate Refilling(m: Machine) {
    && m.fault.Serving? && m.fault.frame == 0
    && (m.fault.phase.Addressed? || m.fault.phase.Writing? || m.fault.phase.Cleared? ||
        m.fault.phase.Reading? || m.fault.phase.Loaded?)
  }

  /** The handler has found frame 0 occupied, and has not read yet by whom. */
  predicate Examined(m: Machine) {
    m.fault.Serving? && m.fault.frame == 0 && (m.fault.phase.Chosen? || m.fault.phase.Taken?)
  }

  /**
    When a process that found frame 0 to be its own, at some earlier time, may free it without harm: it is free
    already, or held by a process that has ended, or being refilled; but not while the handler counts on its owner.
   */
  predicate MayMark(m: Machine)
    requires Sized(m)
  {
    !Examined(m) && (!Occupied(m.swap[0]) || m.swap[0].sw_asid in m.dead || Refilling(m))
  }

  /** A step that can be taken and, if it frees frame 0, may be. */
  ghost predicate Enabled(m: Machine, l: Label)
    requires Sized(m) && Complete(m)
  {
    Possible(m, l) && (l.Mark? ==> MayMark(m))
  }

  /** When a step can be taken; the frame a hit leads to must exist for the access to be defined. */
  ghost predicate Possible(m: Machine, l: Label)
    requires Sized(m) && Complete(m)
  {
    match l
    case Load(a, p, o, i) =>
      Running(m, a) && Hits(m, a, p, i) && 0 <= o < PAGEWORDS && IsValid(m.tlb[i].value.entryLO)
    case Store(a, p, o, i, v) =>
      && Running(m, a) && Hits(m, a, p, i) && 0 <= o < PAGEWORDS
      && IsValid(m.tlb[i].value.entryLO) && IsDirty(m.tlb[i].value.entryLO)
    case Refill(a, p, i) =>
      Running(m, a) && IsPg(Pg(a, p)) && 0 <= i < |m.tlb| && Misses(m.tlb, Key(Pg(a, p)))
    case Trap(a, p, i) => Running(m, a) && Hits(m, a, p, i) && !IsValid(m.tlb[i].value.entryLO)
    case Acquire(a) => m.fault.Idle? && a in m.waiting
    case Choose => m.fault.Entered?
    case Examine => In(m, Picked)
    case Invalidate => In(m, Chosen) && IsPg(m.swap[m.fault.frame].sw_pte)
    case Address => In(m, Taken)
    case StartWrite => m.fault.Serving? && m.fault.phase.Addressed?
    case DmaWrite =>
      m.fault.Serving? && m.fault.phase.Writing? && m.fault.phase.done < PAGEWORDS && IsPg(m.fault.phase.block)
    case WriteDone => m.fault.Serving? && m.fault.phase.Writing? && m.fault.phase.done == PAGEWORDS
    case StartRead => In(m, Cleared)
    case DmaRead => m.fault.Serving? && m.fault.phase.Reading? && m.fault.phase.done < PAGEWORDS && IsPg(m.fault.x)
    case ReadDone => In(m, Reading(PAGEWORDS))
    case Record => In(m, Loaded)
    case Install => In(m, Recorded) && IsPg(m.swap[m.fault.frame].sw_pte)
    case Release => In(m, Installed)
    case End(a) => Running(m, a) && 1 <= a <= UPROCMAX
    case Mark(a) => a in m.marking
  }

  /** The block the frame is going to be written back to. */
  function Victim(m: Machine): Pg
    requires Sized(m) && m.fault.Serving?
  {
    Pg(m.swap[m.fault.frame].sw_asid, m.swap[m.fault.frame].sw_pageNo)
  }

  /** A page table entry rewritten in a masked section, with the TLB brought up to date. */
  function Rewritten(m: Machine, x: Pg, entryLO: bv32): (n: Machine)
    requires x in m.pte
    ensures n == m.(pte := n.pte, tlb := n.tlb) && |n.tlb| == |m.tlb|
  {
    var e := Pte(m.pte[x].entryHI, entryLO);
    m.(pte := m.pte[x := e], tlb := Probed(m.tlb, e))
  }

  ghost function Next(m: Machine, l: Label): Machine
    requires Sized(m) && Complete(m) && Possible(m, l)
  {
    match l
    case Load(a, p, o, i) => m
    case Store(a, p, o, i, v) => Stored(m, FrameOf(m.tlb[i].value.entryLO), o, v)
    case Refill(a, p, i) => Refilled(m, a, Key(Pg(a, p)), i)
    case Trap(a, p, i) => m.(waiting := m.waiting[a := Key(Pg(a, p))])
    case Acquire(a) => m.(fault := Entered(Wanted(m, a)))
    case Choose =>
      var f := NextFrame(m.swap, m.swapIndex);
      m.(swapIndex := Successor(m.swapIndex), fault := Serving(m.fault.x, f, Picked))
    case Examine =>
      m.(fault := m.fault.(phase := if Occupied(m.swap[m.fault.frame]) then Chosen else Cleared))
    case Invalidate =>
      var x := m.swap[m.fault.frame].sw_pte;
      Rewritten(m, x, Invalidated(m.pte[x].entryLO)).(fault := m.fault.(phase := Taken))
    case Address => m.(fault := m.fault.(phase := Addressed(Victim(m))))
    case StartWrite => m.(fault := m.fault.(phase := Writing(m.fault.phase.block, 0)))
    case DmaWrite =>
      var x, k := m.fault.phase.block, m.fault.phase.done;
      m.(flash := m.flash[x := m.flash[x][k := m.ram[m.fault.frame][k]]],
      fault := m.fault.(phase := Writing(x, k + 1)))
    case WriteDone => m.(fault := m.fault.(phase := Cleared))
    case StartRead => m.(fault := m.fault.(phase := Reading(0)))
    case DmaRead =>
      var k := m.fault.phase.done;
      Stored(m, m.fault.frame, k, m.flash[m.fault.x][k]).(fault := m.fault.(phase := Reading(k + 1)))
    case ReadDone => m.(fault := m.fault.(phase := Loaded))
    case Record =>
      var x := m.fault.x;
      m.(swap := m.swap[m.fault.frame := Swap(x.asid, x.page, x)], fault := m.fault.(phase := Recorded))
    case Install =>
      Rewritten(m, m.swap[m.fault.frame].sw_pte, Mapped(m.fault.frame)).(fault := m.fault.(phase := Installed))
    case Release => m.(fault := Idle, waiting := m.waiting - {m.fault.x.asid})
    case End(a) =>
      m.(dead := m.dead + {a}, marking := if m.swap[0].sw_asid == a then m.marking + {a} else m.marking)
    case Mark(a) => m.(swap := m.swap[0 := m.swap[0].(sw_asid := NOPROC)], marking := m.marking - {a})
  }

  /** The hardware writes a word; an address outside the pool does not touch it. */
  function Stored(m: Machine, f: int, offset: int, value: int): (n: Machine)
    requires Sized(m) && 0 <= offset < PAGEWORDS
    ensures n == m.(ram := n.ram)
  {
    if IsFrame(f) then m.(ram := m.ram[f := m.ram[f][offset := value]]) else m
  }

  /** tlb_refill_handler copies an entry of the private page table of the running process. */
  function Refilled(m: Machine, asid: int, entryHI: bv32, slot: int): (n: Machine)
    requires 0 <= slot < |m.tlb|
    ensures n == m.(tlb := n.tlb) && |n.tlb| == |m.tlb|
  {
    var x := Pg(asid, PageIndex(entryHI));
    if x in m.pte then m.(tlb := m.tlb[slot := Some(m.pte[x])]) else m
  }

  /** The word a load brings in. */
  function Read(m: Machine, l: Label): int
    requires Sized(m) && l.Load? && Hits(m, l.asid, l.page, l.slot) && 0 <= l.offset < PAGEWORDS
  {
    var f := FrameOf(m.tlb[l.slot].value.entryLO);
    if IsFrame(f) then m.ram[f][l.offset] else 0
  }

  // ---------------------------------------------------------------- invariant

  /** The frame is between owners: no page table entry leads to it. */
  predicate Limbo(m: Machine, f: int) {
    && m.fault.Serving? && m.fault.frame == f
    && !m.fault.phase.Picked? && !m.fault.phase.Chosen? && !m.fault.phase.Installed?
  }

  /** The page lies in the frame being written out and nowhere else. */
  predicate Leaving(m: Machine, x: Pg)
    requires Sized(m)
  {
    && m.fault.Serving? && (m.fault.phase.Taken? || m.fault.phase.Addressed? || m.fault.phase.Writing?)
    && m.swap[m.fault.frame].sw_pte == x
  }

  /** An occupied frame names one page in three ways, and that page is mapped to it unless it is in limbo. */
  ghost predicate Held(m: Machine, f: int)
    requires Sized(m) && Complete(m) && 0 <= f < SWAPSIZE
  {
    var e := m.swap[f];
    Occupied(e) ==>
      && IsPg(e.sw_pte) && e.sw_asid == e.sw_pte.asid && e.sw_pageNo == e.sw_pte.page
      && (if Limbo(m, f) then !IsValid(m.pte[e.sw_pte].entryLO) else m.pte[e.sw_pte].entryLO == Mapped(f))
  }

  /** A valid page of a living process is held by the frame its entry leads to. */
  ghost predicate Resident(m: Machine, x: Pg)
    requires Sized(m) && Complete(m) && x in m.pte
  {
    x.asid !in m.dead && IsValid(m.pte[x].entryLO) ==>
      var f := FrameOf(m.pte[x].entryLO);
      IsFrame(f) && Occupied(m.swap[f]) && m.swap[f].sw_pte == x && !Limbo(m, f)
  }

  /** The TLB holds a copy of a page table entry. */
  ghost predicate Coherent(m: Machine, i: int)
    requires Complete(m) && 0 <= i < |m.tlb|
  {
    m.tlb[i].Some? ==>
      var x := Decode(m.tlb[i].value.entryHI);
      IsPg(x) && m.tlb[i].value == m.pte[x]
  }

  ghost predicate Unique(tlb: seq<Option<Pte>>) {
    forall i, j :: 0 <= i < j < |tlb| && tlb[i].Some? && tlb[j].Some? ==>
      tlb[i].value.entryHI != tlb[j].value.entryHI
  }

  ghost predicate Waits(m: Machine, asid: int)
    requires Complete(m) && asid in m.waiting
  {
    && IsPg(Wanted(m, asid)) && asid !in m.dead
    && (IsValid(m.pte[Wanted(m, asid)].entryLO) ==> In(m, Installed) && m.fault.x == Wanted(m, asid))
  }

  /** What holds of the fault being served, phase by phase. */
  ghost predicate Served(m: Machine)
    requires Sized(m) && Complete(m)
  {
    match m.fault
    case Idle => true
    case Entered(x) => x.asid in m.waiting && x == Wanted(m, x.asid)
    case Serving(x, f, phase) =>
      && x.asid in m.waiting && x == Wanted(m, x.asid) && IsPg(x)
      && (phase.Chosen? || phase.Taken? ==> Occupied(m.swap[f]) && m.swap[f].sw_pte != x)
      && (phase.Addressed? || phase.Writing? ==>
            IsPg(phase.block) && phase.block != x && phase.block == m.swap[f].sw_pte)
      && (phase.Recorded? || phase.Installed? ==> Occupied(m.swap[f]) && m.swap[f].sw_pte == x)
      && (phase.Writing? ==> phase.done <= PAGEWORDS && Copied(m.flash, phase.block, m.ram[f], phase.done))
      && (phase.Reading? ==> phase.done <= PAGEWORDS && Copied(m.flash, x, m.ram[f], phase.done))
      && (phase.Loaded? || phase.Recorded? ==> Copied(m.flash, x, m.ram[f], PAGEWORDS))
  }

  /** Block and frame agree on their first n words. */
  ghost predicate Copied(flash: map<Pg, Content>, x: Pg, frame: Content, n: nat) {
    x in flash && |flash[x]| == PAGEWORDS && |frame| == PAGEWORDS &&
    forall k :: 0 <= k < n && k < PAGEWORDS ==> flash[x][k] == frame[k]
  }

  /** Swap table, page tables, TLB and waiting processes agree. */
  ghost predicate Agreed(m: Machine)
    requires Sized(m) && Complete(m)
  {
    && (forall x :: x in m.pte ==> m.pte[x].entryHI == Key(x) && Proper(m.pte[x].entryLO))
    && (forall f :: 0 <= f < SWAPSIZE ==> Held(m, f))
    && (forall x :: x in m.pte ==> Resident(m, x))
    && (forall i :: 0 <= i < |m.tlb| ==> Coherent(m, i)) && Unique(m.tlb)
    && (forall a :: a in m.waiting ==> Waits(m, a))
  }

  /** Who has ended and still finds itself in entry 0 is going to free it. */
  ghost predicate Ended(m: Machine)
    requires Sized(m)
  {
    && m.marking <= m.dead && (forall a :: a in m.dead ==> 1 <= a <= UPROCMAX)
    && (m.swap[0].sw_asid in m.dead ==> m.swap[0].sw_asid in m.marking)
  }

  ghost predicate Inv(m: Machine) {
    Sized(m) && Complete(m) && Agreed(m) && Served(m) && Ended(m)
  }

  /** The word at an offset of a page, wherever it lies: in its frame, in a frame being written out, or on flash. */
  ghost function Logical(m: Machine, x: Pg, offset: int): int
    requires Inv(m) && IsPg(x) && x.asid !in m.dead && 0 <= offset < PAGEWORDS
  {
    if IsValid(m.pte[x].entryLO) then
      assert Resident(m, x);
      m.ram[FrameOf(m.pte[x].entryLO)][offset]
    else if Leaving(m, x) then m.ram[m.fault.frame][offset]
    else m.flash[x][offset]
  }
}
