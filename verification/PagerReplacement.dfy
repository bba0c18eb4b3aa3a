/** Page replacement over whole runs: while no frame is freed the frames are used in strict rotation. */
module PagerReplacement {
  import opened PageWords
  import opened SwapPool
  import opened PagerModel
  import opened PagerSafety
  import opened PagerTheorems

  /** The pages that were given a frame, in order. */
  ghost function Faults(m: Machine, steps: seq<Label>): seq<Pg>
    requires Inv(m) && Run(m, steps).Some?
  {
    if steps == [] then []
    else
      var prefix := steps[..|steps| - 1];
      var x := Run(m, prefix).value.fault;
      if steps[|steps| - 1].Choose? then Faults(m, prefix) + [x.x] else Faults(m, prefix)
  }

  ghost predicate NothingFreed(steps: seq<Label>) {
    forall l :: l in steps ==> !l.Mark?
  }

  /** The frame of the k-th fault, counting from 0. */
  function Turn(k: int): (f: int)
    ensures 0 <= f < SWAPSIZE
  {
    (k + 1) % SWAPSIZE
  }

  /** The swap table shows the last SWAPSIZE of these faults, each in the frame whose turn it was, and no other page. */
  ghost predicate Shows(swap: seq<Swap>, faults: seq<Pg>)
    requires |swap| == SWAPSIZE
  {
    && (forall k {:trigger faults[k]} :: 0 <= k < |faults| && k >= |faults| - SWAPSIZE ==>
          Occupied(swap[Turn(k)]) && swap[Turn(k)].sw_pte == faults[k])
    && (forall k {:trigger Turn(k)} :: |faults| <= k < SWAPSIZE ==> !Occupied(swap[Turn(k)]))
  }

  /** The latest page is being brought in, and not in the table yet. */
  predicate Coming(m: Machine) {
    m.fault.Serving? && !m.fault.phase.Recorded? && !m.fault.phase.Installed?
  }

  ghost predicate Rotation(m: Machine, faults: seq<Pg>)
    requires Sized(m)
  {
    && m.swapIndex == |faults| % SWAPSIZE
    && (m.fault.Serving? ==>
          |faults| > 0 && m.fault.frame == Turn(|faults| - 1) && m.fault.x == faults[|faults| - 1])
    && Shows(m.swap, if Coming(m) then faults[..|faults| - 1] else faults)
  }

  lemma Turns(n: nat)
    ensures Successor(n % SWAPSIZE) == Turn(n) == (n + 1) % SWAPSIZE
    ensures Turn(n + SWAPSIZE) == Turn(n)
  {
    assert n + 1 == SWAPSIZE * (n / SWAPSIZE) + n % SWAPSIZE + 1;
  }

  lemma TurnsDiffer(n: nat, k: int)
    requires n - SWAPSIZE < k < n || n < k < n + SWAPSIZE
    ensures Turn(k) != Turn(n)
  {}

  lemma ShowsFull(swap: seq<Swap>, faults: seq<Pg>)
    requires |swap| == SWAPSIZE && Shows(swap, faults) && |faults| >= SWAPSIZE
    ensures forall f :: 0 <= f < SWAPSIZE ==> Occupied(swap[f])
  {
    var n := |faults|;
    forall f | 0 <= f < SWAPSIZE ensures Occupied(swap[f]) {
      var k := n - 1 - (n - f) % SWAPSIZE;
      assert Turn(k) == f;
      assert faults[k] == faults[k];
    }
  }

  /** The next fault gets the next frame in turn. */
  lemma NextTurn(swap: seq<Swap>, faults: seq<Pg>)
    requires |swap| == SWAPSIZE && Shows(swap, faults)
    ensures NextFrame(swap, |faults| % SWAPSIZE) == Turn(|faults|) == (|faults| + 1) % SWAPSIZE
    ensures Occupied(swap[Turn(|faults|)]) <==> |faults| >= SWAPSIZE
    ensures |faults| >= SWAPSIZE ==> swap[Turn(|faults|)].sw_pte == faults[|faults| - SWAPSIZE]
  {
    hide Turn;
    var n := |faults|;
    Turns(n);
    if n < SWAPSIZE {
      assert !Occupied(swap[Turn(n)]);
    } else {
      ShowsFull(swap, faults);
      EvictsOnlyWhenFull(swap, n % SWAPSIZE);
      Turns(n - SWAPSIZE);
      assert faults[n - SWAPSIZE] == faults[n - SWAPSIZE];
    }
  }

  /** Entering a page in the table where its turn is. */
  lemma ShowsOneMore(swap: seq<Swap>, faults: seq<Pg>, x: Pg)
    requires |swap| == SWAPSIZE && Shows(swap, faults) && 0 < x.asid
    ensures Shows(swap[Turn(|faults|) := Swap(x.asid, x.page, x)], faults + [x])
  {
    hide Turn;
    var n := |faults|;
    var after, longer := swap[Turn(n) := Swap(x.asid, x.page, x)], faults + [x];
    forall k | 0 <= k < |longer| && k >= |longer| - SWAPSIZE
      ensures Occupied(after[Turn(k)]) && after[Turn(k)].sw_pte == longer[k]
    {
      if k < n {
        TurnsDiffer(n, k);
        assert faults[k] == longer[k];
      }
    }
    forall k | |longer| <= k < SWAPSIZE ensures !Occupied(after[Turn(k)]) {
      TurnsDiffer(n, k);
      assert !Occupied(swap[Turn(k)]);
    }
  }

  lemma ChooseRotates(m: Machine, faults: seq<Pg>)
    requires Inv(m) && Enabled(m, Choose) && Rotation(m, faults)
    ensures Sized(Next(m, Choose)) && Rotation(Next(m, Choose), faults + [m.fault.x])
  {
    hide Complete, Agreed, Served, NextFrame, Turn, Shows;
    NextTurn(m.swap, faults);
    Turns(|faults|);
    assert (faults + [m.fault.x])[..|faults|] == faults;
  }

  lemma RecordRotates(m: Machine, faults: seq<Pg>)
    requires Inv(m) && Enabled(m, Record) && Rotation(m, faults)
    ensures Sized(Next(m, Record)) && Rotation(Next(m, Record), faults)
  {
    hide Key, Agreed, NextFrame, Turn, Shows;
    var before := faults[..|faults| - 1];
    ShowsOneMore(m.swap, before, m.fault.x);
    assert before + [m.fault.x] == faults;
  }

  /** All other steps leave the swap table, and the frame being filled, as they are. */
  lemma OthersRotate(m: Machine, l: Label)
    requires Inv(m) && Enabled(m, l) && !l.Mark? && !l.Choose? && !l.Record?
    ensures var n := Next(m, l);
      && n.swap == m.swap && n.swapIndex == m.swapIndex && Sized(n) && Coming(n) == Coming(m)
      && (n.fault.Serving? ==> m.fault.Serving? && n.fault.x == m.fault.x && n.fault.frame == m.fault.frame)
  {
    hide Key, FrameOf, Mapped, IsValid, IsDirty, PageIndex, Agreed, Served, Ended, Invalidated, Misses, Hits;
    hide Rewritten, Stored, Refilled, Victim, NextFrame;
    StepInv(m, l);
  }

  lemma RotationKept(m: Machine, l: Label, faults: seq<Pg>)
    requires Inv(m) && Enabled(m, l) && !l.Mark? && Rotation(m, faults)
    ensures Sized(Next(m, l))
    ensures Rotation(Next(m, l), if l.Choose? then faults + [m.fault.x] else faults)
  {
    hide Inv, Enabled, Next, Sized, Shows, Turn, Coming;
    match l
    case Choose => ChooseRotates(m, faults);
    case Record => RecordRotates(m, faults);
    case _ => OthersRotate(m, l);
  }

  lemma InitialRotation(m: Machine)
    requires Initial(m)
    ensures Rotation(m, [])
  {}

  lemma {:induction false} RunRotates(m: Machine, steps: seq<Label>)
    requires Inv(m) && Rotation(m, []) && Run(m, steps).Some? && NothingFreed(steps)
    ensures Sized(Run(m, steps).value) && Rotation(Run(m, steps).value, Faults(m, steps))
  {
    hide Enabled, Next, Rotation;
    if steps != [] {
      var prefix, l := steps[..|steps| - 1], steps[|steps| - 1];
      RunRotates(m, prefix);
      assert l in steps;
      RotationKept(Run(m, prefix).value, l, Faults(m, prefix));
    }
  }

  /**
    In a run that frees no frame, the fault after n others gets frame (n + 1) mod SWAPSIZE; that frame is free
    for the first SWAPSIZE faults, and afterwards holds the page that has been resident longest.
   */
  lemma OldestIsEvicted(m: Machine, steps: seq<Label>)
    requires Initial(m) && (InitialInv(m); Run(m, steps).Some?) && NothingFreed(steps)
    requires Run(m, steps).value.fault.Entered?
    ensures var n, faults := Run(m, steps).value, Faults(m, steps);
      var f := NextFrame(n.swap, n.swapIndex);
      && f == (|faults| + 1) % SWAPSIZE
      && (Occupied(n.swap[f]) <==> |faults| >= SWAPSIZE)
      && (|faults| >= SWAPSIZE ==> n.swap[f].sw_pte == faults[|faults| - SWAPSIZE])
  {
    hide Inv, Run, Faults, NextFrame;
    InitialInv(m);
    InitialRotation(m);
    RunRotates(m, steps);
    NextTurn(Run(m, steps).value.swap, Faults(m, steps));
  }

  /** So any SWAPSIZE faults in a row get different frames. */
  lemma RowOfFaults(m: Machine, early: seq<Label>, late: seq<Label>)
    requires Initial(m) && (InitialInv(m); Run(m, early).Some? && Run(m, late).Some?)
    requires NothingFreed(early) && NothingFreed(late)
    requires Run(m, early).value.fault.Serving? && Run(m, late).value.fault.Serving?
    requires |Faults(m, early)| < |Faults(m, late)| < |Faults(m, early)| + SWAPSIZE
    ensures Run(m, early).value.fault.frame != Run(m, late).value.fault.frame
  {
    hide Inv, Run, Faults, NextFrame, Turn, Shows;
    InitialInv(m);
    InitialRotation(m);
    RunRotates(m, early);
    RunRotates(m, late);
    TurnsDiffer(|Faults(m, early)| - 1, |Faults(m, late)| - 1);
  }

  /** The first choice after set-up: every frame is free, frame 0 included, and frame 1 is taken. */
  lemma NotTheLowest(m: Machine)
    requires Initial(m)
    ensures FirstFree(m.swap, 0, SWAPSIZE) == 0 && NextFrame(m.swap, m.swapIndex) == 1
  {
    assert !Occupied(m.swap[0]) && !Occupied(m.swap[1]);
  }

  /**
    After the first fault, and until the sixteenth, mark_all_unoccupied frees nothing, whoever ends: every page
    brought in keeps its frame, and so does the process that had the first of them.
   */
  lemma MarksTooLittle(m: Machine, steps: seq<Label>, asid: int)
    requires Initial(m) && (InitialInv(m); Run(m, steps).Some?) && NothingFreed(steps)
    requires Run(m, steps).value.fault == Idle && 0 < |Faults(m, steps)| < SWAPSIZE
    requires 1 <= asid <= UPROCMAX
    ensures var n, faults := Run(m, steps).value, Faults(m, steps);
      && Marked(n.swap, asid) == n.swap
      && (forall k :: 0 <= k < |faults| ==> Names(n, k + 1, faults[k]))
      && Marked(n.swap, faults[0].asid)[1].sw_asid == faults[0].asid
  {
    hide Inv, Run, Faults, NextFrame;
    InitialInv(m);
    InitialRotation(m);
    RunRotates(m, steps);
    var n, faults := Run(m, steps).value, Faults(m, steps);
    assert !Occupied(n.swap[Turn(SWAPSIZE - 1)]);
    forall k | 0 <= k < |faults| ensures Names(n, k + 1, faults[k]) {
      assert Turn(k) == k + 1 && faults[k] == faults[k];
    }
    HeldEverywhere(n, 1);
  }
}
