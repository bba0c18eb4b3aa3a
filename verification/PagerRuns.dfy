/** How runs of the pager are put together. */
module PagerRuns {
  import opened PageWords
  import opened PagerModel
  import opened PagerSafety
  import opened PagerTheorems

  /** One more step at the end of a run. */
  lemma RunAppend(m: Machine, steps: seq<Label>, l: Label)
    requires Inv(m) && Run(m, steps).Some? && Enabled(Run(m, steps).value, l)
    ensures Inv(Next(Run(m, steps).value, l))
    ensures Run(m, steps + [l]) == Some(Next(Run(m, steps).value, l))
  {
    hide Inv, Enabled, Next;
    StepInv(Run(m, steps).value, l);
    assert (steps + [l])[..|steps|] == steps;
  }

  /** The same of what the code can do, safe or not. */
  lemma RawAppend(m: Machine, steps: seq<Label>, n: Machine, l: Label)
    requires Raw(m, steps) == Some(n) && Sized(n) && Complete(n) && Possible(n, l)
    ensures Raw(m, steps + [l]) == Some(Next(n, l))
  {
    hide Sized, Complete, Possible, Next;
    assert (steps + [l])[..|steps|] == steps;
  }

  lemma RunNone(m: Machine)
    requires Inv(m)
    ensures Run(m, []) == Some(m)
  {}

  /** A run without stores leaves the memory of the processes as it was. */
  lemma NoStoreKeeps(m: Machine, steps: seq<Label>, n: Machine)
    requires Inv(m) && Run(m, steps) == Some(n) && NoStore(steps)
    ensures n.dead == m.dead
    ensures forall x, o :: IsPg(x) && x.asid !in n.dead && 0 <= o < PAGEWORDS ==> Logical(n, x, o) == Logical(m, x, o)
  {
    hide Inv, Logical;
    NoStoreSameDead(m, steps);
    forall x, o | IsPg(x) && x.asid !in n.dead && 0 <= o < PAGEWORDS ensures Logical(n, x, o) == Logical(m, x, o) {
      RunRefines(m, steps, x, o);
      FlatIsInitial(Logical(m, x, o), steps, x, o);
    }
  }

  lemma {:induction false} NoStoreSameDead(m: Machine, steps: seq<Label>)
    requires Inv(m) && Run(m, steps).Some? && NoStore(steps)
    ensures Run(m, steps).value.dead == m.dead
  {
    hide Inv, Enabled, Next;
    if steps != [] {
      assert steps[|steps| - 1] in steps;
      DeadStayDead(Run(m, steps[..|steps| - 1]).value, steps[|steps| - 1]);
      NoStoreSameDead(m, steps[..|steps| - 1]);
    }
  }

  lemma {:induction false} FlatIsInitial(initial: int, steps: seq<Label>, x: Pg, o: int)
    requires forall l :: l in steps ==> !l.Store?
    ensures Flat(initial, steps, x, o) == initial
  {
    if steps != [] {
      assert steps[|steps| - 1] in steps;
      FlatIsInitial(initial, steps[..|steps| - 1], x, o);
    }
  }

  lemma RunOne(m: Machine, l: Label)
    requires Inv(m) && Enabled(m, l)
    ensures Inv(Next(m, l)) && Run(m, [l]) == Some(Next(m, l))
  {
    RunAppend(m, [], l);
    assert [] + [l] == [l];
  }

  lemma {:induction false} RunConcat(m: Machine, early: seq<Label>, late: seq<Label>)
    requires Inv(m) && Run(m, early).Some?
    ensures Run(m, early + late) == Run(Run(m, early).value, late)
  {
    hide Inv, Enabled, Next;
    if late == [] {
      assert early + late == early;
    } else {
      RunConcat(m, early, late[..|late| - 1]);
      assert (early + late)[..|early + late| - 1] == early + late[..|late| - 1];
    }
  }

  ghost predicate NoStore(steps: seq<Label>) {
    forall l :: l in steps ==> !l.Store? && !l.End? && !l.Mark?
  }
}
