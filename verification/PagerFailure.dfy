/**
  What happens when frame 0 is freed at any other moment: a run of the code, from the state after set-up on, in
  which a living process reads a word that it neither stored nor had on flash.
 */
module PagerFailure {
  import opened PageWords
  import opened SwapPool
  import opened PagerModel
  import opened PagerSafety
  import opened PagerTheorems
  import opened PagerRuns
  import opened PagerReplacement

  /** Nothing is stored, and no frame is freed. */
  ghost predicate Calm(steps: seq<Label>) {
    forall l :: l in steps ==> !l.Store? && !l.Mark?
  }

  // ---------------------------------------------------------------- a page comes into the TLB

  /** What it takes to have the page in the TLB: nothing, or a refill of slot 0. */
  function TouchSteps(m: Machine, x: Pg): seq<Label>
    requires IsPg(x)
  {
    if Probe(m.tlb, Key(x)) < |m.tlb| then [] else [Refill(x.asid, x.page, 0)]
  }

  function Slot(m: Machine, x: Pg): nat
    requires IsPg(x)
  {
    if Probe(m.tlb, Key(x)) < |m.tlb| then Probe(m.tlb, Key(x)) else 0
  }

  function Touched(m: Machine, x: Pg): Machine
    requires IsPg(x) && x in m.pte && |m.tlb| > 0
  {
    if Probe(m.tlb, Key(x)) < |m.tlb| then m else m.(tlb := m.tlb[0 := Some(m.pte[x])])
  }

  lemma EntryMatches(m: Machine, x: Pg)
    requires Complete(m) && Faithful(m) && IsPg(x)
    ensures Matches(m.pte[x], Key(x))
  {
    hide Key, Coherent;
  }

  lemma RefilledFaithful(m: Machine, x: Pg)
    requires Complete(m) && Faithful(m) && IsPg(x) && |m.tlb| > 0 && Misses(m.tlb, Key(x))
    ensures Faithful(m.(tlb := m.tlb[0 := Some(m.pte[x])]))
  {
    hide Key, Decode, Matches, Proper, IsGlobal;
    KeyRoundTrip(x, x);
    var n := m.(tlb := m.tlb[0 := Some(m.pte[x])]);
    forall i | 0 <= i < |m.tlb| && m.tlb[i].Some? ensures m.tlb[i].value.entryHI != Key(x) {
      FaithfulKey(m, i, x);
    }
    assert forall i :: 0 <= i < |m.tlb| ==> Coherent(m, i) ==> Coherent(n, i);
  }

  lemma TouchHits(m: Machine, x: Pg)
    requires Sized(m) && Complete(m) && Faithful(m) && IsPg(x) && Running(m, x.asid) && |m.tlb| > 0
    ensures var n, i := Touched(m, x), Slot(m, x);
      && Complete(n) && Faithful(n) && Hits(n, x.asid, x.page, i) && n.tlb[i].value == m.pte[x]
    ensures TouchSteps(m, x) == [] ==> Touched(m, x) == m
    ensures TouchSteps(m, x) != [] ==>
      var l := Refill(x.asid, x.page, 0); Possible(m, l) && Next(m, l) == Touched(m, x)
  {
    hide Key, Decode, PageIndex, Probe, Matches, Proper, IsGlobal, Faithful, Coherent;
    KeyFields(x);
    EntryMatches(m, x);
    if Probe(m.tlb, Key(x)) < |m.tlb| {
      FaithfulKey(m, Slot(m, x), x);
    } else {
      RefilledFaithful(m, x);
    }
  }

  lemma InvIsFaithful(m: Machine)
    requires Inv(m)
    ensures Sized(m) && Complete(m) && Faithful(m)
  {}

  lemma RunTouch(m: Machine, steps: seq<Label>, x: Pg)
    requires Inv(m) && Run(m, steps).Some? && IsPg(x)
    requires var n := Run(m, steps).value; Running(n, x.asid) && |n.tlb| > 0
    ensures var n := Run(m, steps).value; Run(m, steps + TouchSteps(n, x)) == Some(Touched(n, x))
  {
    hide Agreed, Served, Ended, Possible, Next, Run, Touched, Faithful;
    var n := Run(m, steps).value;
    InvIsFaithful(n);
    TouchHits(n, x);
    if TouchSteps(n, x) == [] {
      assert steps + [] == steps;
    } else {
      RunAppend(m, steps, Refill(x.asid, x.page, 0));
    }
  }

  // ---------------------------------------------------------------- a fault is served

  lemma FaultsAppend(m: Machine, steps: seq<Label>, l: Label)
    requires Inv(m) && Run(m, steps).Some? && Enabled(Run(m, steps).value, l)
    ensures Run(m, steps + [l]).Some?
    ensures Faults(m, steps + [l]) ==
            Faults(m, steps) + if l.Choose? then [Run(m, steps).value.fault.x] else []
  {
    hide Inv, Enabled, Next;
    RunAppend(m, steps, l);
    assert (steps + [l])[..|steps|] == steps;
  }

  lemma StepKeeps(m: Machine, l: Label)
    requires Sized(m) && Complete(m) && Possible(m, l) && !l.Trap? && !l.Release? && !l.End? && !l.Mark?
    ensures var n := Next(m, l);
      n.waiting == m.waiting && n.dead == m.dead && n.marking == m.marking && |n.tlb| == |m.tlb|
  {
    hide Sized, Complete, Possible, Rewritten, Stored, Refilled, NextFrame, Victim, Occupied;
  }

  lemma HandlerKeeps(m: Machine)
    requires Sized(m) && Complete(m) && !m.fault.Idle? && Possible(m, Handler(m))
    ensures var n := Next(m, Handler(m));
      && n.dead == m.dead && n.marking == m.marking && |n.tlb| == |m.tlb|
      && n.waiting == if In(m, Installed) then m.waiting - {m.fault.x.asid} else m.waiting
  {
    hide Sized, Complete, Possible;
    if !In(m, Installed) {
      hide Next;
      StepKeeps(m, Handler(m));
    }
  }

  /** One step of the handler, at the end of a run. */
  lemma HandlerStep(m: Machine, steps: seq<Label>) returns (l: Label)
    requires Inv(m) && Run(m, steps).Some? && Run(m, steps).value.fault != Idle
    ensures !l.Store? && !l.Mark? && Run(m, steps + [l]).Some?
    ensures var b, n := Run(m, steps).value, Run(m, steps + [l]).value;
      && 0 <= Remaining(n.fault) < Remaining(b.fault) && !n.fault.Entered?
      && n.waiting == (if n.fault.Idle? then b.waiting - {b.fault.x.asid} else b.waiting)
      && (n.fault.Serving? ==> n.fault.x == b.fault.x)
      && n.dead == b.dead && n.marking == b.marking && |n.tlb| == |b.tlb|
      && Faults(m, steps + [l]) == Faults(m, steps) + if b.fault.Entered? then [b.fault.x] else []
  {
    hide Agreed, Served, Ended, Possible, Next, Run, Faults;
    var b := Run(m, steps).value;
    l := Handler(b);
    HandlerAdvances(b);
    HandlerMoves(b);
    HandlerKeeps(b);
    RunAppend(m, steps, l);
    FaultsAppend(m, steps, l);
  }

  /** The handler, by itself, comes to its end. */
  lemma {:induction false} Serve(m: Machine, steps: seq<Label>) returns (more: seq<Label>)
    requires Inv(m) && Run(m, steps).Some? && Run(m, steps).value.fault != Idle && Calm(steps)
    ensures Calm(steps + more) && Run(m, steps + more).Some?
    ensures var b, n := Run(m, steps).value, Run(m, steps + more).value;
      && n.fault == Idle && n.waiting == b.waiting - {b.fault.x.asid}
      && n.dead == b.dead && n.marking == b.marking && |n.tlb| == |b.tlb|
      && Faults(m, steps + more) == Faults(m, steps) + if b.fault.Entered? then [b.fault.x] else []
    decreases Remaining(Run(m, steps).value.fault)
  {
    hide Inv, Run, Faults, Remaining;
    var l := HandlerStep(m, steps);
    more := [l];
    if Run(m, steps + [l]).value.fault != Idle {
      var rest := Serve(m, steps + [l]);
      more := [l] + rest;
      assert steps + more == steps + [l] + rest;
    }
  }

  /** A process traps on a page that is not valid, and the handler lets it in. */
  lemma Trapping(m: Machine, steps: seq<Label>, x: Pg) returns (more: seq<Label>)
    requires Inv(m) && Run(m, steps).Some? && IsPg(x) && Calm(steps)
    requires var n := Run(m, steps).value;
      n.fault == Idle && Running(n, x.asid) && |n.tlb| > 0 && !IsValid(n.pte[x].entryLO)
    ensures Calm(steps + more) && Run(m, steps + more).Some?
    ensures var b, n := Run(m, steps).value, Run(m, steps + more).value;
      && n.fault == Entered(x) && n.waiting == b.waiting[x.asid := Key(x)]
      && n.dead == b.dead && n.marking == b.marking
      && |n.tlb| == |b.tlb| && Faults(m, steps + more) == Faults(m, steps)
  {
    hide Inv, Run, Faults, Enabled, Next, Key, IsValid;
    var b := Run(m, steps).value;
    InvIsFaithful(b);
    RunTouch(m, steps, x);
    var touched := steps + TouchSteps(b, x);
    TouchFaults(m, steps, x);
    var t, trap := Touched(b, x), Trap(x.asid, x.page, Slot(b, x));
    TrapAfterTouch(b, x);
    RunAppend(m, touched, trap);
    FaultsAppend(m, touched, trap);
    RunAppend(m, touched + [trap], Acquire(x.asid));
    FaultsAppend(m, touched + [trap], Acquire(x.asid));
    more := TouchSteps(b, x) + [trap] + [Acquire(x.asid)];
    assert steps + more == touched + [trap] + [Acquire(x.asid)];
  }

  /** A process that has an invalid page in the TLB can trap on it, and the handler can turn to it. */
  lemma TrapAfterTouch(m: Machine, x: Pg)
    requires Sized(m) && Complete(m) && Faithful(m) && IsPg(x) && Running(m, x.asid) && |m.tlb| > 0
    requires m.fault == Idle && !IsValid(m.pte[x].entryLO)
    ensures Touched(m, x) == m.(tlb := Touched(m, x).tlb) && |Touched(m, x).tlb| == |m.tlb|
    ensures Complete(Touched(m, x)) && Enabled(Touched(m, x), Trap(x.asid, x.page, Slot(m, x)))
    ensures var t := Touched(m, x); var u := t.(waiting := m.waiting[x.asid := Key(x)]);
      && Next(t, Trap(x.asid, x.page, Slot(m, x))) == u
      && Complete(u) && Enabled(u, Acquire(x.asid)) && Next(u, Acquire(x.asid)) == u.(fault := Entered(x))
  {
    hide Key, PageIndex, IsValid, Faithful, Probe;
    TouchHits(m, x);
    KeyFields(x);
  }

  /** A process takes a fault on a page that is not resident, and gets it. */
  lemma FaultOn(m: Machine, steps: seq<Label>, x: Pg) returns (more: seq<Label>)
    requires Inv(m) && Run(m, steps).Some? && IsPg(x) && Calm(steps)
    requires var n := Run(m, steps).value;
      n.fault == Idle && Running(n, x.asid) && |n.tlb| > 0 && !IsValid(n.pte[x].entryLO)
    ensures Calm(steps + more) && Run(m, steps + more).Some?
    ensures var b, n := Run(m, steps).value, Run(m, steps + more).value;
      && n.fault == Idle && n.waiting == b.waiting && n.dead == b.dead && n.marking == b.marking
      && |n.tlb| == |b.tlb| && Faults(m, steps + more) == Faults(m, steps) + [x]
  {
    hide Inv, Run, Faults, Key, IsValid, Calm;
    var b := Run(m, steps).value;
    var early := Trapping(m, steps, x);
    var late := Serve(m, steps + early);
    more := early + late;
    assert steps + more == steps + early + late;
    assert b.waiting[x.asid := Key(x)] - {x.asid} == b.waiting;
  }

  lemma TouchFaults(m: Machine, steps: seq<Label>, x: Pg)
    requires Inv(m) && Run(m, steps).Some? && IsPg(x)
    requires var n := Run(m, steps).value; Running(n, x.asid) && |n.tlb| > 0
    ensures var all := steps + TouchSteps(Run(m, steps).value, x);
      Run(m, all).Some? && Faults(m, all) == Faults(m, steps)
  {
    hide Agreed, Served, Ended, Possible, Next, Run, Touched, Faithful, Faults;
    var n := Run(m, steps).value;
    InvIsFaithful(n);
    TouchHits(n, x);
    RunTouch(m, steps, x);
    if TouchSteps(n, x) == [] {
      assert steps + [] == steps;
    } else {
      FaultsAppend(m, steps, Refill(x.asid, x.page, 0));
    }
  }

  // ---------------------------------------------------------------- sixteen faults of one process

  /** In the table only pages that were faulted on are found. */
  lemma ShownIsFaulted(swap: seq<Swap>, faults: seq<Pg>, f: int)
    requires |swap| == SWAPSIZE && Shows(swap, faults) && IsFrame(f) && Occupied(swap[f])
    ensures swap[f].sw_pte in faults
  {
    var n := |faults|;
    if n >= SWAPSIZE {
      var k := n - 1 - (n - f) % SWAPSIZE;
      assert Turn(k) == f;
      assert faults[k] == faults[k];
    } else {
      var k := (f + SWAPSIZE - 1) % SWAPSIZE;
      assert Turn(k) == f;
      if k < n {
        assert faults[k] == faults[k];
      }
    }
  }

  lemma CalmFreesNothing(steps: seq<Label>)
    requires Calm(steps)
    ensures NothingFreed(steps)
  {}

  /** A page nobody faulted on is not valid. */
  lemma NotFaultedOn(m: Machine, steps: seq<Label>, x: Pg)
    requires Initial(m) && (InitialInv(m); Run(m, steps).Some?) && Calm(steps) && IsPg(x)
    requires Run(m, steps).value.fault == Idle && x.asid !in Run(m, steps).value.dead
    requires x !in Faults(m, steps)
    ensures !IsValid(Run(m, steps).value.pte[x].entryLO)
  {
    hide Agreed, Served, Ended, Run, Faults, IsValid, FrameOf;
    InitialInv(m);
    InitialRotation(m);
    CalmFreesNothing(steps);
    RunRotates(m, steps);
    var n := Run(m, steps).value;
    ResidentEverywhere(n, x);
    if IsValid(n.pte[x].entryLO) {
      ShownIsFaulted(n.swap, Faults(m, steps), FrameOf(n.pte[x].entryLO));
    }
  }

  /** The first n pages of a process. */
  function FirstPages(asid: int, n: nat): seq<Pg> {
    if n == 0 then [] else FirstPages(asid, n - 1) + [Pg(asid, n - 1)]
  }

  lemma {:induction false} FirstPagesAre(asid: int, n: nat)
    ensures |FirstPages(asid, n)| == n && forall k :: 0 <= k < n ==> FirstPages(asid, n)[k] == Pg(asid, k)
  {
    if n > 0 {
      FirstPagesAre(asid, n - 1);
    }
  }

  /** No fault is being served and nobody waits. */
  predicate AtRest(m: Machine, slots: nat) {
    m.fault == Idle && m.waiting == map[] && |m.tlb| == slots > 0
  }

  lemma NotAmong(faults: seq<Pg>, asid: int, n: nat)
    requires forall x :: x in faults ==> x.asid != asid
    ensures Pg(asid, n) !in faults + FirstPages(asid, n)
    ensures faults + FirstPages(asid, n) + [Pg(asid, n)] == faults + FirstPages(asid, n + 1)
  {
    FirstPagesAre(asid, n);
  }

  /** A process faults on its first n pages, in order. */
  lemma {:induction false} Faulting(m: Machine, steps: seq<Label>, asid: int, n: nat, slots: nat)
    returns (more: seq<Label>)
    requires Initial(m) && (InitialInv(m); Run(m, steps).Some?) && Calm(steps)
    requires 1 <= asid <= UPROCMAX && n <= SWAPSIZE
    requires AtRest(Run(m, steps).value, slots) && asid !in Run(m, steps).value.dead
    requires forall x :: x in Faults(m, steps) ==> x.asid != asid
    ensures Inv(m) && Calm(steps + more) && Run(m, steps + more).Some?
    ensures var b, r := Run(m, steps).value, Run(m, steps + more).value;
      && AtRest(r, slots) && r.dead == b.dead && r.marking == b.marking
      && Faults(m, steps + more) == Faults(m, steps) + FirstPages(asid, n)
  {
    hide Initial, Inv, Run, Faults, FirstPages, Calm;
    InitialInv(m);
    if n == 0 {
      more := [];
      assert steps + [] == steps;
      FirstPagesAre(asid, 0);
      assert Faults(m, steps) + [] == Faults(m, steps);
    } else {
      var early := Faulting(m, steps, asid, n - 1, slots);
      var x := Pg(asid, n - 1);
      NotAmong(Faults(m, steps), asid, n - 1);
      NotFaultedOn(m, steps + early, x);
      var late := FaultOn(m, steps + early, x);
      more := early + late;
      assert steps + more == steps + early + late;
    }
  }

  // ---------------------------------------------------------------- the failure

  /** Process 1 is about to free frame 0, which has gone to the last page brought in by process 2. */
  ghost predicate Primed(m: Machine) {
    && Sized(m) && Complete(m) && Faithful(m) && m.fault == Idle && m.waiting == map[] && |m.tlb| > 0
    && m.dead == {1} && 1 in m.marking && m.swapIndex == 0
    && (forall f :: 0 <= f < SWAPSIZE ==> Occupied(m.swap[f]))
    && m.pte[Pg(2, 15)].entryLO == Mapped(0) && !IsValid(m.pte[Pg(3, 0)].entryLO)
  }

  /** After as many faults as there are frames, or twice as many, frame 0 holds the last page. */
  lemma LastInFrameZero(m: Machine, steps: seq<Label>, n: Machine, y: Pg)
    requires Initial(m) && (InitialInv(m); Run(m, steps) == Some(n)) && Calm(steps) && n.fault == Idle
    requires |Faults(m, steps)| == SWAPSIZE || |Faults(m, steps)| == 2 * SWAPSIZE
    requires Faults(m, steps)[|Faults(m, steps)| - 1] == y
    ensures Inv(n) && n.swapIndex == 0 && (forall f :: 0 <= f < SWAPSIZE ==> Occupied(n.swap[f]))
    ensures n.swap[0].sw_pte == y && n.swap[0].sw_asid == y.asid && y in n.pte && n.pte[y].entryLO == Mapped(0)
  {
    hide Agreed, Served, Ended, Run, Faults, Mapped, IsValid;
    InitialInv(m);
    InitialRotation(m);
    CalmFreesNothing(steps);
    RunRotates(m, steps);
    ShowsFull(n.swap, Faults(m, steps));
    assert Turn(|Faults(m, steps)| - 1) == 0;
    HeldEverywhere(n, 0);
  }

  lemma TestStep(m: Machine)
    requires Inv(m) && m.waiting == map[] && m.dead == {} && m.swap[0].sw_asid == 1
    ensures Enabled(m, End(1)) && Next(m, End(1)) == m.(dead := {1}, marking := m.marking + {1})
  {
    hide Agreed, Served, Ended;
  }

  /** The test of process 1 comes after its sixteen faults, and finds frame 0 to be its own. */
  lemma Test(m: Machine, steps: seq<Label>)
    requires Initial(m) && (InitialInv(m); Run(m, steps).Some?) && Calm(steps)
    requires AtRest(Run(m, steps).value, |m.tlb|) && Run(m, steps).value.dead == {}
    requires Faults(m, steps) == FirstPages(1, SWAPSIZE)
    ensures Calm(steps + [End(1)]) && Run(m, steps + [End(1)]).Some?
    ensures var n := Run(m, steps + [End(1)]).value; AtRest(n, |m.tlb|) && n.dead == {1} && 1 in n.marking
    ensures Faults(m, steps + [End(1)]) == Faults(m, steps)
  {
    hide Inv, Run, Faults, FirstPages, Initial, Enabled, Next;
    InitialInv(m);
    FirstPagesAre(1, SWAPSIZE);
    var n := Run(m, steps).value;
    LastInFrameZero(m, steps, n, Pg(1, 15));
    TestStep(n);
    RunAppend(m, steps, End(1));
    FaultsAppend(m, steps, End(1));
  }

  /** A run that leads there, and leaves the blocks of the flash devices as they were. */
  lemma Priming(m: Machine) returns (steps: seq<Label>)
    requires Initial(m) && |m.tlb| > 0
    ensures Inv(m) && Run(m, steps).Some? && Calm(steps) && Primed(Run(m, steps).value)
    ensures Run(m, steps).value.flash[Pg(3, 0)][0] == m.flash[Pg(3, 0)][0]
  {
    hide Initial, Inv, Run, Faults, FirstPages, Calm, Primed;
    InitialInv(m);
    AtTheStart(m);
    var first := Faulting(m, [], 1, SWAPSIZE, |m.tlb|);
    assert [] + first == first;
    assert Faults(m, first) == FirstPages(1, SWAPSIZE);
    Test(m, first);
    FirstPagesAre(1, SWAPSIZE);
    var second := Faulting(m, first + [End(1)], 2, SWAPSIZE, |m.tlb|);
    steps := first + [End(1)] + second;
    PrimedAtEnd(m, steps);
  }

  lemma AtTheStart(m: Machine)
    requires Initial(m) && |m.tlb| > 0
    ensures Inv(m) && Run(m, []) == Some(m) && Faults(m, []) == [] && Calm([]) && AtRest(m, |m.tlb|) && m.dead == {}
  {
    InitialInv(m);
  }

  lemma PrimedAtEnd(m: Machine, steps: seq<Label>)
    requires Initial(m) && (InitialInv(m); Run(m, steps).Some?) && Calm(steps)
    requires AtRest(Run(m, steps).value, |m.tlb|) && Run(m, steps).value.dead == {1} && 1 in Run(m, steps).value.marking
    requires Faults(m, steps) == FirstPages(1, SWAPSIZE) + FirstPages(2, SWAPSIZE)
    ensures Primed(Run(m, steps).value)
    ensures Run(m, steps).value.flash[Pg(3, 0)][0] == m.flash[Pg(3, 0)][0]
  {
    hide Inv, Run, Faults, FirstPages, Initial, Faithful, Mapped, IsValid, FrameOf;
    InitialInv(m);
    FirstPagesAre(1, SWAPSIZE);
    FirstPagesAre(2, SWAPSIZE);
    LastInFrameZero(m, steps, Run(m, steps).value, Pg(2, 15));
    NotFaultedOn(m, steps, Pg(3, 0));
    InvIsFaithful(Run(m, steps).value);
    RunRefines(m, steps, Pg(3, 0), 0);
    FlatIsInitial(Logical(m, Pg(3, 0), 0), steps, Pg(3, 0), 0);
  }

  lemma RawTouch(m: Machine, steps: seq<Label>, n: Machine, x: Pg)
    requires Raw(m, steps) == Some(n) && Sized(n) && Complete(n) && Faithful(n)
    requires IsPg(x) && Running(n, x.asid) && |n.tlb| > 0
    ensures Raw(m, steps + TouchSteps(n, x)) == Some(Touched(n, x))
  {
    hide Possible, Next, Raw, Touched, Faithful;
    TouchHits(n, x);
    if TouchSteps(n, x) == [] {
      assert steps + [] == steps;
    } else {
      RawAppend(m, steps, n, Refill(x.asid, x.page, 0));
    }
  }

  /** Frame 0 of this machine is free, and so is no other. */
  function Freed(m: Machine): Machine
    requires Sized(m)
  {
    m.(swap := m.swap[0 := m.swap[0].(sw_asid := NOPROC)], marking := m.marking - {1})
  }

  /** Process 1 frees frame 0, and process 3 takes a fault. */
  lemma Freeing(m: Machine, steps: seq<Label>, n: Machine) returns (more: seq<Label>, r: Machine)
    requires Raw(m, steps) == Some(n) && Primed(n) && Calm(steps)
    ensures Raw(m, steps + more) == Some(r) && (forall l :: l in steps + more ==> !l.Store?)
    ensures Sized(r) && Complete(r) && Faithful(r) && |r.tlb| > 0
    ensures r == Freed(n).(tlb := r.tlb, waiting := map[3 := Key(Pg(3, 0))], fault := Entered(Pg(3, 0)))
  {
    hide Raw, Next, Enabled, Touched, IsValid, Mapped, Key, Faithful;
    var x := Pg(3, 0);
    var f := Freed(n);
    FreeingStep(n);
    RawAppend(m, steps, n, Mark(1));
    var freed := steps + [Mark(1)];
    RawTouch(m, freed, f, x);
    TrapAfterTouch(f, x);
    TouchHits(f, x);
    var touched, t, trap := freed + TouchSteps(f, x), Touched(f, x), Trap(3, 0, Slot(f, x));
    RawAppend(m, touched, t, trap);
    var u := Next(t, trap);
    RawAppend(m, touched + [trap], u, Acquire(3));
    r := Next(u, Acquire(3));
    SameCopies(t, r);
    more := [Mark(1)] + TouchSteps(f, x) + [trap] + [Acquire(3)];
    assert steps + more == touched + [trap] + [Acquire(3)];
  }

  lemma SameCopies(m: Machine, n: Machine)
    requires Complete(m) && Complete(n) && Faithful(m) && n.pte == m.pte && n.tlb == m.tlb
    ensures Faithful(n)
  {
    hide Key, Decode;
    assert forall i :: 0 <= i < |m.tlb| ==> Coherent(m, i) ==> Coherent(n, i);
  }

  lemma FreeingStep(m: Machine)
    requires Primed(m)
    ensures Possible(m, Mark(1)) && Next(m, Mark(1)) == Freed(m)
    ensures Sized(Freed(m)) && Complete(Freed(m)) && Faithful(Freed(m))
  {
    hide Faithful;
    SameCopies(m, Freed(m));
  }

  /** The handler takes frame 0 without looking back, and the device writes over the page that lies there. */
  function Filled(m: Machine, x: Pg): Machine
    requires Sized(m) && Complete(m) && x in m.flash
  {
    m.(swapIndex := 1, ram := m.ram[0 := m.ram[0][0 := m.flash[x][0]]], fault := Serving(x, 0, Reading(1)))
  }

  ghost predicate OnlyZeroFree(m: Machine)
    requires Sized(m)
  {
    m.swapIndex == 0 && !Occupied(m.swap[0]) && forall f :: 1 <= f < SWAPSIZE ==> Occupied(m.swap[f])
  }

  lemma ChoosesZero(m: Machine)
    requires Sized(m) && OnlyZeroFree(m)
    ensures NextFrame(m.swap, m.swapIndex) == 0
  {}

  function Picking(m: Machine, phase: Phase): Machine
    requires m.fault.Entered?
  {
    m.(swapIndex := 1, fault := Serving(m.fault.x, 0, phase))
  }

  lemma PickingSteps(m: Machine, x: Pg)
    requires Sized(m) && Complete(m) && m.fault == Entered(x) && OnlyZeroFree(m)
    ensures Possible(m, Choose) && Next(m, Choose) == Picking(m, Picked)
    ensures var n := Picking(m, Picked);
      Sized(n) && Complete(n) && Possible(n, Examine) && Next(n, Examine) == Picking(m, Cleared)
  {
    hide NextFrame;
    ChoosesZero(m);
  }

  lemma FillingSteps(m: Machine, x: Pg)
    requires Sized(m) && Complete(m) && IsPg(x) && m.fault == Entered(x)
    ensures var n := Picking(m, Cleared);
      Sized(n) && Complete(n) && Possible(n, StartRead) && Next(n, StartRead) == Picking(m, Reading(0))
    ensures var n := Picking(m, Reading(0));
      Sized(n) && Complete(n) && Possible(n, DmaRead) && Next(n, DmaRead) == Filled(m, x)
  {}

  lemma Filling(m: Machine, steps: seq<Label>, n: Machine, x: Pg) returns (more: seq<Label>)
    requires Raw(m, steps) == Some(n) && forall l :: l in steps ==> !l.Store?
    requires Sized(n) && Complete(n) && IsPg(x) && n.fault == Entered(x) && OnlyZeroFree(n)
    ensures Raw(m, steps + more) == Some(Filled(n, x)) && forall l :: l in steps + more ==> !l.Store?
  {
    hide Raw, Next, Possible, Sized, OnlyZeroFree, Filled, Picking;
    PickingSteps(n, x);
    FillingSteps(n, x);
    RawAppend(m, steps, n, Choose);
    RawAppend(m, steps + [Choose], Picking(n, Picked), Examine);
    RawAppend(m, steps + [Choose] + [Examine], Picking(n, Cleared), StartRead);
    RawAppend(m, steps + [Choose] + [Examine] + [StartRead], Picking(n, Reading(0)), DmaRead);
    more := [Choose] + [Examine] + [StartRead] + [DmaRead];
    assert steps + more == steps + [Choose] + [Examine] + [StartRead] + [DmaRead];
  }

  /** A load through an entry that leads to frame 0. */
  lemma Loading(m: Machine, steps: seq<Label>, n: Machine, y: Pg) returns (more: seq<Label>, r: Machine, l: Label)
    requires Raw(m, steps) == Some(n) && Sized(n) && Complete(n) && Faithful(n) && |n.tlb| > 0
    requires IsPg(y) && Running(n, y.asid) && n.pte[y].entryLO == Mapped(0) && forall l :: l in steps ==> !l.Store?
    ensures Raw(m, steps + more) == Some(r) && Sized(r) && Complete(r) && forall l :: l in steps + more ==> !l.Store?
    ensures l.Load? && l == Load(y.asid, y.page, 0, l.slot) && Possible(r, l)
    ensures Hits(r, y.asid, y.page, l.slot) && Read(r, l) == n.ram[0][0]
  {
    hide Raw, Next, Key, Mapped, IsValid, FrameOf, Faithful, Probe;
    RawTouch(m, steps, n, y);
    TouchHits(n, y);
    more, r, l := TouchSteps(n, y), Touched(n, y), Load(y.asid, y.page, 0, Slot(n, y));
    MappedFrame(0);
  }

  /**
    So the condition of MarkIsSafeIff is needed for the refinement, too. From every state after set-up in which the
    two blocks differ in their first word the code can get to a load that brings in neither what the process stored
    nor what it had on flash: process 1 finds frame 0 to be its own, and before it frees it the frame goes to process 2,
    whose page is overwritten at the next fault without being written back.
   */
  lemma FlatFails(m: Machine) returns (steps: seq<Label>, n: Machine, l: Label)
    requires Initial(m) && |m.tlb| > 0 && m.flash[Pg(3, 0)][0] != m.flash[Pg(2, 15)][0]
    ensures Raw(m, steps) == Some(n) && Sized(n) && Complete(n) && l.Load? && Possible(n, l)
    ensures Read(n, l) != Flat(m.flash[Pg(l.asid, l.page)][l.offset], steps, Pg(l.asid, l.page), l.offset)
  {
    hide Initial, Inv, Raw, Run, Next, Possible, Flat, Key, Mapped, IsValid, Faithful;
    InitialInv(m);
    InvIsFaithful(m);
    var x, y := Pg(3, 0), Pg(2, 15);
    var early := Priming(m);
    var primed := Run(m, early).value;
    RunIffHarmless(m, early);
    var late, entered := Freeing(m, early, primed);
    var last := Filling(m, early + late, entered, x);
    SameCopies(entered, Filled(entered, x));
    var end;
    end, n, l := Loading(m, early + late + last, Filled(entered, x), y);
    steps := early + late + last + end;
    FlatIsInitial(m.flash[y][0], steps, y, 0);
  }
}
