/** Every step of the pager keeps the invariant. */
module PagerSafety {
  import opened PageWords
  import opened SwapPool
  import opened PagerModel

  // ---------------------------------------------------------------- TLB and page tables

  /** Every entry of the TLB is a copy of the page table entry of its key. */
  ghost predicate Faithful(m: Machine)
    requires Complete(m)
  {
    && (forall x :: x in m.pte ==> m.pte[x].entryHI == Key(x) && Proper(m.pte[x].entryLO))
    && (forall i :: 0 <= i < |m.tlb| ==> Coherent(m, i)) && Unique(m.tlb)
  }

  /** An entry of the TLB matches its own page only: nobody hits an entry of another process. */
  lemma FaithfulKey(m: Machine, i: int, x: Pg)
    requires Complete(m) && Faithful(m) && IsPg(x) && 0 <= i < |m.tlb| && m.tlb[i].Some?
    ensures Matches(m.tlb[i].value, Key(x)) <==> Decode(m.tlb[i].value.entryHI) == x
    ensures Matches(m.tlb[i].value, Key(x)) <==> m.tlb[i].value.entryHI == Key(x)
    ensures Matches(m.tlb[i].value, Key(x)) ==> m.tlb[i].value == m.pte[x]
  {
    hide Key, Decode, IsValid, FrameOf, Mapped, Matches, Proper, IsGlobal;
    assert Coherent(m, i);
    var y := Decode(m.tlb[i].value.entryHI);
    KeyRoundTrip(x, y);
    ProperIsPrivate(m.pte[y].entryLO);
    MatchesItsPage(m.tlb[i].value, y, x);
  }

  lemma CoherentKey(m: Machine, i: int, x: Pg)
    requires Inv(m) && IsPg(x) && 0 <= i < |m.tlb| && m.tlb[i].Some?
    ensures Matches(m.tlb[i].value, Key(x)) <==> Decode(m.tlb[i].value.entryHI) == x
    ensures Matches(m.tlb[i].value, Key(x)) <==> m.tlb[i].value.entryHI == Key(x)
    ensures Matches(m.tlb[i].value, Key(x)) ==> m.tlb[i].value == m.pte[x]
  {
    hide Key, Decode, Coherent, Held, Resident, Waits, Matches, Proper;
    FaithfulKey(m, i, x);
  }

  lemma MatchingIsEqual(m: Machine, x: Pg)
    requires Inv(m) && IsPg(x)
    ensures forall i :: 0 <= i < |m.tlb| && m.tlb[i].Some? ==>
      (Matches(m.tlb[i].value, Key(x)) <==> m.tlb[i].value.entryHI == Key(x))
  {
    hide Inv, Matches, Key, Decode;
    forall i | 0 <= i < |m.tlb| && m.tlb[i].Some?
      ensures Matches(m.tlb[i].value, Key(x)) <==> m.tlb[i].value.entryHI == Key(x)
    {
      CoherentKey(m, i, x);
    }
  }

  /** Rewriting an entry and probing the TLB for it keeps every copy up to date. */
  lemma RewrittenTlb(m: Machine, x: Pg, entryLO: bv32)
    requires Inv(m) && IsPg(x) && Proper(entryLO)
    ensures var n := Rewritten(m, x, entryLO);
      && Complete(n) && Unique(n.tlb)
      && (forall y :: y in n.pte ==> n.pte[y].entryHI == Key(y) && Proper(n.pte[y].entryLO))
      && (forall i :: 0 <= i < |n.tlb| ==> Coherent(n, i))
  {
    hide Key, Decode, IsValid, FrameOf, Mapped, Matches, Proper, Served, Waits, Held, Resident;
    var n := Rewritten(m, x, entryLO);
    KeyRoundTrip(x, x);
    MatchingIsEqual(m, x);
    forall i | 0 <= i < |n.tlb| ensures Coherent(n, i) {
      assert Coherent(m, i);
      if m.tlb[i].Some? {
        CoherentKey(m, i, x);
      }
    }
  }

  /** The frame of the page a process can reach through the TLB. */
  lemma HitsResident(m: Machine, asid: int, page: int, slot: int)
    requires Inv(m) && Running(m, asid) && Hits(m, asid, page, slot) && IsValid(m.tlb[slot].value.entryLO)
    ensures var x := Pg(asid, page);
      && IsValid(m.pte[x].entryLO) && m.tlb[slot].value == m.pte[x]
      && IsFrame(FrameOf(m.pte[x].entryLO)) && m.pte[x].entryLO == Mapped(FrameOf(m.pte[x].entryLO))
      && m.swap[FrameOf(m.pte[x].entryLO)].sw_pte == x && Occupied(m.swap[FrameOf(m.pte[x].entryLO)])
      && !Limbo(m, FrameOf(m.pte[x].entryLO))
  {
    hide Key, Decode, IsValid, FrameOf, Mapped, Matches, Proper, Served, Waits;
    var x := Pg(asid, page);
    CoherentKey(m, slot, x);
    assert Resident(m, x);
    assert Held(m, FrameOf(m.pte[x].entryLO));
  }

  /** Words may move and the fault may advance as long as no frame enters or leaves limbo. */
  lemma SameTables(m: Machine, n: Machine)
    requires Inv(m) && Sized(n) && Complete(n)
    requires n.swap == m.swap && n.pte == m.pte && n.tlb == m.tlb && n.waiting == m.waiting && n.dead == m.dead
    requires forall f :: 0 <= f < SWAPSIZE ==> Limbo(m, f) == Limbo(n, f)
    requires In(m, Installed) ==> n.fault == m.fault
    ensures Agreed(n)
  {
    hide Key, Decode, IsValid, FrameOf, Mapped, Matches, Proper, PageIndex, Served, Limbo;
    assert forall f :: 0 <= f < SWAPSIZE ==> Held(m, f) ==> Held(n, f);
    assert forall x :: x in m.pte ==> Resident(m, x) ==> Resident(n, x);
    assert forall i :: 0 <= i < |m.tlb| ==> Coherent(m, i) ==> Coherent(n, i);
    assert forall a :: a in m.waiting ==> Waits(m, a) ==> Waits(n, a);
  }

  // ---------------------------------------------------------------- one step of each kind

  lemma LoadInv(m: Machine, l: Label)
    requires Inv(m) && l.Load? && Enabled(m, l)
    ensures Inv(Next(m, l))
  {}

  lemma StoreInv(m: Machine, l: Label)
    requires Inv(m) && l.Store? && Enabled(m, l)
    ensures Inv(Next(m, l))
  {
    hide Key, IsValid, IsDirty, FrameOf, Mapped, Matches, Proper, PageIndex, Agreed;
    HitsResident(m, l.asid, l.page, l.slot);
    var n := Next(m, l);
    SameTables(m, n);
  }

  /** A copy of a page table entry that the TLB lacks may go in any slot. */
  lemma CopyInv(m: Machine, x: Pg, slot: int)
    requires Inv(m) && IsPg(x) && 0 <= slot < |m.tlb| && Misses(m.tlb, Key(x))
    ensures Inv(m.(tlb := m.tlb[slot := Some(m.pte[x])]))
  {
    hide Key, Decode, IsValid, FrameOf, Mapped, Matches, Proper, PageIndex, Occupied, Copied;
    KeyRoundTrip(x, x);
    MatchingIsEqual(m, x);
    var n := m.(tlb := m.tlb[slot := Some(m.pte[x])]);
    assert forall f :: 0 <= f < SWAPSIZE ==> Held(m, f) ==> Held(n, f);
    assert forall x :: x in m.pte ==> Resident(m, x) ==> Resident(n, x);
    assert forall i :: 0 <= i < |m.tlb| ==> Coherent(m, i) ==> Coherent(n, i);
    assert forall a :: a in m.waiting ==> Waits(m, a) ==> Waits(n, a);
  }

  lemma RefillInv(m: Machine, l: Label)
    requires Inv(m) && l.Refill? && Enabled(m, l)
    ensures Inv(Next(m, l))
    ensures Next(m, l) == m.(tlb := m.tlb[l.slot := Some(m.pte[Pg(l.asid, l.page)])])
  {
    hide Key, PageIndex, Agreed, Served, Misses;
    var x := Pg(l.asid, l.page);
    KeyFields(x);
    CopyInv(m, x, l.slot);
  }

  /** A process whose page is invalid may start to wait for it. */
  lemma WaitingInv(m: Machine, x: Pg)
    requires Inv(m) && IsPg(x) && Running(m, x.asid) && !IsValid(m.pte[x].entryLO)
    ensures Inv(m.(waiting := m.waiting[x.asid := Key(x)]))
  {
    hide Key, Decode, IsValid, FrameOf, Mapped, Matches, Proper, PageIndex, Occupied, Copied;
    KeyFields(x);
    var n := m.(waiting := m.waiting[x.asid := Key(x)]);
    assert forall f :: 0 <= f < SWAPSIZE ==> Held(m, f) ==> Held(n, f);
    assert forall y :: y in m.pte ==> Resident(m, y) ==> Resident(n, y);
    assert forall i :: 0 <= i < |m.tlb| ==> Coherent(m, i) ==> Coherent(n, i);
    assert forall a :: a in m.waiting ==> Waits(m, a) ==> Waits(n, a);
  }

  lemma TrapInv(m: Machine, l: Label)
    requires Inv(m) && l.Trap? && Enabled(m, l)
    ensures Inv(Next(m, l)) && Wanted(Next(m, l), l.asid) == Pg(l.asid, l.page)
  {
    hide Key, Decode, IsValid, PageIndex, Agreed, Served;
    var x := Pg(l.asid, l.page);
    KeyFields(x);
    CoherentKey(m, l.slot, x);
    WaitingInv(m, x);
  }

  /** What is left to show once the TLB is known to have followed a rewritten entry. */
  lemma RewrittenTables(m: Machine, n: Machine, x: Pg, entryLO: bv32)
    requires Inv(m) && IsPg(x) && Proper(entryLO) && Sized(n) && Complete(n)
    requires n == Rewritten(m, x, entryLO).(fault := n.fault)
    requires forall f :: 0 <= f < SWAPSIZE ==> Held(n, f)
    requires forall y :: y in n.pte ==> Resident(n, y)
    requires forall a :: a in n.waiting ==> Waits(n, a)
    ensures Agreed(n)
  {
    hide Key, Decode, IsValid, FrameOf, Mapped, Matches, Proper, Served, Waits, Held, Resident, Rewritten;
    RewrittenTlb(m, x, entryLO);
    assert forall i :: 0 <= i < |n.tlb| ==> Coherent(Rewritten(m, x, entryLO), i) ==> Coherent(n, i);
  }

  lemma TakenTables(m: Machine, n: Machine, f: int, v: Pg)
    requires Inv(m) && In(m, Chosen) && m.fault.frame == f && IsFrame(f) && m.swap[f].sw_pte == v && IsPg(v)
    requires n == Rewritten(m, v, Invalidated(m.pte[v].entryLO)).(fault := m.fault.(phase := Taken))
    requires Sized(n) && Complete(n)
    ensures Agreed(n)
  {
    hide Key, IsValid, FrameOf, Mapped, Matches, Proper, PageIndex, Invalidated, Unique, Probed, Coherent, Copied;
    hide Ended;
    assert Held(m, f);
    InvalidatedIsInvalid(m.pte[v].entryLO);
    MappedFrame(f);
    forall g | 0 <= g < SWAPSIZE ensures Held(n, g) {
      assert Held(m, g);
      MappedIsInjective(f, g);
    }
    assert forall y :: y in n.pte ==> Resident(m, y) ==> Resident(n, y);
    assert forall a :: a in n.waiting ==> Waits(m, a) ==> Waits(n, a);
    RewrittenTables(m, n, v, Invalidated(m.pte[v].entryLO));
  }

  lemma InvalidateInv(m: Machine)
    requires Inv(m) && Enabled(m, Invalidate)
    ensures Inv(Next(m, Invalidate))
  {
    hide Key, IsValid, Invalidated, PageIndex, Agreed, Probed, Copied;
    TakenTables(m, Next(m, Invalidate), m.fault.frame, m.swap[m.fault.frame].sw_pte);
  }

  lemma InstalledTables(m: Machine, n: Machine, f: int, x: Pg)
    requires Inv(m) && m.fault == Serving(x, f, Recorded) && IsPg(x) && IsFrame(f)
    requires n == Rewritten(m, x, Mapped(f)).(fault := Serving(x, f, Installed))
    requires Sized(n) && Complete(n)
    ensures Agreed(n)
  {
    hide Key, IsValid, FrameOf, Mapped, Matches, Proper, PageIndex, Unique, Probed, Coherent, Copied;
    assert Held(m, f);
    MappedFrame(f);
    forall g | 0 <= g < SWAPSIZE ensures Held(n, g) {
      assert Held(m, g);
      MappedFrame(g);
    }
    assert forall y :: y in n.pte ==> Resident(m, y) ==> Resident(n, y);
    assert forall a :: a in n.waiting ==> Waits(m, a) ==> Waits(n, a);
    RewrittenTables(m, n, x, Mapped(f));
  }

  lemma InstallInv(m: Machine)
    requires Inv(m) && Enabled(m, Install)
    ensures Inv(Next(m, Install))
  {
    hide Key, IsValid, Mapped, Matches, Proper, PageIndex, Agreed, Probed, Copied;
    HeldEverywhere(m, m.fault.frame);
    InstalledTables(m, Next(m, Install), m.fault.frame, m.fault.x);
  }

  lemma RecordEnded(m: Machine)
    requires Inv(m) && Enabled(m, Record)
    ensures Sized(Next(m, Record)) && Ended(Next(m, Record))
  {
    hide Key, Agreed, Copied;
    WaitsForIt(m);
  }

  lemma SameTlb(m: Machine, n: Machine)
    requires Inv(m) && Complete(n) && n.tlb == m.tlb && n.pte == m.pte
    ensures Unique(n.tlb) && forall i :: 0 <= i < |n.tlb| ==> Coherent(n, i)
  {
    hide Key, Decode, Served, Held, Resident, Waits, Ended;
    assert forall i :: 0 <= i < |m.tlb| ==> Coherent(m, i) ==> Coherent(n, i);
  }

  lemma RecordHeld(m: Machine)
    requires Inv(m) && Enabled(m, Record) && Sized(Next(m, Record)) && Complete(Next(m, Record))
    ensures forall f :: 0 <= f < SWAPSIZE ==> Held(Next(m, Record), f)
  {
    hide Key, Decode, IsValid, IsDirty, FrameOf, Mapped, Matches, Proper, PageIndex, Ended, Coherent, Unique, Waits;
    hide Resident;
    var n := Next(m, Record);
    WaitsForIt(m);
    forall f | 0 <= f < SWAPSIZE ensures Held(n, f) {
      assert Held(m, f);
      MappedFrame(f);
    }
  }

  lemma RecordResident(m: Machine)
    requires Inv(m) && Enabled(m, Record) && Sized(Next(m, Record)) && Complete(Next(m, Record))
    ensures forall x :: x in Next(m, Record).pte ==> Resident(Next(m, Record), x)
  {
    hide Key, Decode, IsValid, IsDirty, FrameOf, Mapped, Matches, Proper, PageIndex, Ended, Coherent, Unique, Waits;
    hide Held;
    var n := Next(m, Record);
    forall x | x in n.pte ensures Resident(n, x) {
      assert Resident(m, x);
    }
  }

  lemma RecordInv(m: Machine)
    requires Inv(m) && Enabled(m, Record)
    ensures Inv(Next(m, Record))
  {
    hide Key, Decode, IsValid, IsDirty, FrameOf, Mapped, Matches, Proper, PageIndex, Ended, Coherent, Unique, Held;
    hide Resident, Copied;
    var n := Next(m, Record);
    WaitsForIt(m);
    RecordEnded(m);
    RecordHeld(m);
    RecordResident(m);
    SameTlb(m, n);
    assert forall a :: a in m.waiting ==> Waits(m, a) ==> Waits(n, a);
  }

  lemma ExamineInv(m: Machine)
    requires Inv(m) && Enabled(m, Examine)
    ensures Inv(Next(m, Examine))
  {
    hide Key, IsValid, Mapped, Matches, Proper, PageIndex, Agreed;
    var f := m.fault.frame;
    WaitsForIt(m);
    HeldEverywhere(m, f);
    MappedFrame(f);
    ExaminedTables(m, Next(m, Examine), f);
  }

  lemma WaitsForIt(m: Machine)
    requires Inv(m) && !m.fault.Idle?
    ensures m.fault.x.asid in m.waiting && IsPg(m.fault.x) && m.fault.x.asid !in m.dead
    ensures !In(m, Installed) ==> !IsValid(m.pte[m.fault.x].entryLO)
  {
    assert Waits(m, m.fault.x.asid);
  }

  /** A free frame has no page to lose: it may be in limbo at once. */
  lemma ExaminedTables(m: Machine, n: Machine, f: int)
    requires Inv(m) && m.fault.Serving? && m.fault.phase.Picked? && f == m.fault.frame && IsFrame(f)
    requires n == m.(fault := Serving(m.fault.x, f, if Occupied(m.swap[f]) then Chosen else Cleared))
    requires Sized(n) && Complete(n)
    ensures Agreed(n)
  {
    hide Key, Decode, IsValid, IsDirty, FrameOf, Mapped, Matches, Proper, PageIndex, Served;
    forall g | 0 <= g < SWAPSIZE ensures Held(n, g) {
      assert Held(m, g);
    }
    forall y | y in n.pte ensures Resident(n, y) {
      assert Resident(m, y);
    }
    assert forall i :: 0 <= i < |m.tlb| ==> Coherent(m, i) ==> Coherent(n, i);
    assert forall a :: a in m.waiting ==> Waits(m, a) ==> Waits(n, a);
  }

  lemma HeldEverywhere(m: Machine, f: int)
    requires Inv(m) && IsFrame(f)
    ensures Held(m, f)
  {}

  lemma ResidentEverywhere(m: Machine, x: Pg)
    requires Inv(m) && IsPg(x)
    ensures Resident(m, x)
  {}

  /** A transferred word, to either side, concerns no page but the one being moved. */
  lemma DmaInv(m: Machine, l: Label)
    requires Inv(m) && (l.DmaWrite? || l.DmaRead?) && Enabled(m, l)
    ensures Inv(Next(m, l))
  {
    hide Key, IsValid, Mapped, Matches, Proper, PageIndex, Agreed;
    HeldEverywhere(m, m.fault.frame);
    SameTables(m, Next(m, l));
  }

  lemma EndedStays(m: Machine, n: Machine)
    requires Inv(m) && Sized(n) && n.swap == m.swap && n.dead == m.dead && n.marking == m.marking
    ensures Ended(n)
  {}

  lemma ChooseInv(m: Machine)
    requires Inv(m) && Enabled(m, Choose)
    ensures Inv(Next(m, Choose))
  {
    hide Key, IsValid, Mapped, Matches, Proper, PageIndex, Agreed, NextFrame, Ended;
    WaitsForIt(m);
    SameTables(m, Next(m, Choose));
    EndedStays(m, Next(m, Choose));
  }

  /** Reading the owner of the frame, and then giving the command to write there. */
  lemma AddressInv(m: Machine, l: Label)
    requires Inv(m) && Enabled(m, l) && (l.Address? || l.StartWrite?)
    ensures Inv(Next(m, l))
  {
    hide Key, IsValid, Mapped, Matches, Proper, PageIndex, Agreed, Ended;
    HeldEverywhere(m, m.fault.frame);
    SameTables(m, Next(m, l));
    EndedStays(m, Next(m, l));
  }

  /** Steps that only move the phase on. */
  lemma PhaseInv(m: Machine, l: Label)
    requires Inv(m) && Enabled(m, l)
    requires l.Acquire? || l.WriteDone? || l.StartRead? || l.ReadDone?
    ensures Inv(Next(m, l))
  {
    hide Key, IsValid, Mapped, Matches, Proper, PageIndex, Agreed, Ended;
    SameTables(m, Next(m, l));
    EndedStays(m, Next(m, l));
  }

  lemma ReleaseInv(m: Machine)
    requires Inv(m) && Enabled(m, Release)
    ensures Inv(Next(m, Release))
  {
    hide Key, Decode, IsValid, IsDirty, FrameOf, Mapped, Matches, Proper, PageIndex, Invalidated;
    var n := Next(m, Release);
    forall f | 0 <= f < SWAPSIZE ensures Held(n, f) {
      assert Held(m, f);
    }
    forall x | x in n.pte ensures Resident(n, x) {
      assert Resident(m, x);
    }
    forall a | a in n.waiting ensures Waits(n, a) {
      assert Waits(m, a);
    }
    assert forall i :: 0 <= i < |m.tlb| ==> Coherent(m, i) ==> Coherent(n, i);
  }

  lemma EndInv(m: Machine, l: Label)
    requires Inv(m) && l.End? && Enabled(m, l)
    ensures Inv(Next(m, l))
  {
    hide Key, Decode, IsValid, IsDirty, FrameOf, Mapped, Matches, Proper, PageIndex, Invalidated;
    var n := Next(m, l);
    assert forall f :: 0 <= f < SWAPSIZE ==> Held(m, f) ==> Held(n, f);
    assert forall x :: x in m.pte ==> Resident(m, x) ==> Resident(n, x);
    assert forall i :: 0 <= i < |m.tlb| ==> Coherent(m, i) ==> Coherent(n, i);
    assert forall a :: a in m.waiting ==> Waits(m, a) ==> Waits(n, a);
  }

  lemma MarkInv(m: Machine, l: Label)
    requires Inv(m) && l.Mark? && Enabled(m, l)
    ensures Inv(Next(m, l))
  {
    hide Key, Decode, IsValid, IsDirty, FrameOf, Mapped, Matches, Proper, PageIndex, Invalidated;
    var n := Next(m, l);
    WaitsForItIfAny(m);
    forall f | 0 <= f < SWAPSIZE ensures Held(n, f) {
      assert Held(m, f);
    }
    forall x | x in n.pte ensures Resident(n, x) {
      assert Resident(m, x) && Held(m, 0);
    }
    assert forall i :: 0 <= i < |m.tlb| ==> Coherent(m, i) ==> Coherent(n, i);
    assert forall a :: a in m.waiting ==> Waits(m, a) ==> Waits(n, a);
  }

  lemma WaitsForItIfAny(m: Machine)
    requires Inv(m)
    ensures m.fault.Serving? ==> IsPg(m.fault.x) && m.fault.x.asid !in m.dead
  {
    if m.fault.Serving? {
      WaitsForIt(m);
    }
  }

  /** Freed at any other moment, frame 0 is the handler's blind spot, or the page of a living process. */
  lemma UnsafeMark(m: Machine, a: int)
    requires Inv(m) && a in m.marking && !MayMark(m)
    ensures !Inv(Next(m, Mark(a)))
    ensures Examined(m) ==> Victim(Next(m, Mark(a))).asid == NOPROC
    ensures !Examined(m) ==>
      var y := m.swap[0].sw_pte; var n := Next(m, Mark(a));
      && IsPg(y) && y.asid !in m.dead && !Occupied(n.swap[0])
      && (m.pte[y].entryLO == Mapped(0) || (In(m, Recorded) && m.fault.frame == 0 && m.fault.x == y))
  {
    hide Key, Decode, IsDirty, PageIndex, Invalidated, Unique, Coherent, IsValid, FrameOf, Mapped, Matches, Proper;
    var n := Next(m, Mark(a));
    HeldEverywhere(m, 0);
    MappedFrame(0);
    if !Examined(m) && !In(m, Recorded) && !In(m, Installed) {
      assert !Resident(n, m.swap[0].sw_pte);
    }
  }

  /** MayMark is exact: the store keeps the invariant if and only if it holds at that moment. */
  lemma MarkIsSafeIff(m: Machine, a: int)
    requires Inv(m) && a in m.marking
    ensures Inv(Next(m, Mark(a))) <==> MayMark(m)
  {
    hide Agreed, Served, Ended, Next, MayMark;
    if MayMark(m) {
      MarkInv(m, Mark(a));
    } else {
      UnsafeMark(m, a);
    }
  }

  /** Every step keeps the invariant. */
  lemma StepInv(m: Machine, l: Label)
    requires Inv(m) && Enabled(m, l)
    ensures Inv(Next(m, l))
  {
    hide Inv, Enabled, Next;
    match l
    case Load(_, _, _, _) => LoadInv(m, l);
    case Store(_, _, _, _, _) => StoreInv(m, l);
    case Refill(_, _, _) => RefillInv(m, l);
    case Trap(_, _, _) => TrapInv(m, l);
    case Choose => ChooseInv(m);
    case Address => AddressInv(m, l);
    case StartWrite => AddressInv(m, l);
    case Examine => ExamineInv(m);
    case Invalidate => InvalidateInv(m);
    case DmaWrite => DmaInv(m, l);
    case DmaRead => DmaInv(m, l);
    case Record => RecordInv(m);
    case Install => InstallInv(m);
    case Release => ReleaseInv(m);
    case End(_) => EndInv(m, l);
    case Mark(_) => MarkInv(m, l);
    case _ => PhaseInv(m, l);
  }
}
