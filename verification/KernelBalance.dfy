/**
  Over whole runs: where the units of a semaphore have gone, and that whoever sleeps does so until it is woken.
 */
module KernelBalance {
  import opened Seqs
  import opened Layout
  import opened Places
  import opened KernelModel
  import opened KernelSafety
  import opened KernelKill
  import opened KernelSteps
  import opened KernelRuns
  import opened KernelTheorems
  import opened KernelEffects
  import opened KernelDevices

  // ---------------------------------------------------------------- the balance of a cell

  /** A P on the cell, or the SYS5 that sleeps on it. */
  predicate Takes(e: Event, a: int) {
    e == SysP(a) || Issues(e, a)
  }

  /** A V on the cell, or the completion interrupt of its device. */
  predicate Gives(e: Event, a: int) {
    e == SysV(a) || Completes(e, a)
  }

  /** The waiters of a semaphore of the processes that an event terminates. */
  ghost function Refund(k: Kernel, e: Event, a: int): set<int>
    requires Sound(k)
  {
    set x | 0 <= x < MAXPROC && Ends(e) && !IsDevSem(a) && x in Descendants(k, Cur(k)) && k.place[x] == Blocked(a)
  }

  function Taken(es: seq<Event>, a: int): nat {
    if es == [] then 0 else One(Takes(es[0], a)) + Taken(es[1..], a)
  }

  function Given(es: seq<Event>, a: int): nat {
    if es == [] then 0 else One(Gives(es[0], a)) + Given(es[1..], a)
  }

  ghost function Refunds(k: Kernel, es: seq<Event>, a: int): nat
    requires Sound(k) && Legal(k, es)
    decreases |es|
  {
    if es == [] then 0
    else
      StepSound(k, es[0]);
      |Refund(k, es[0], a)| + Refunds(Step(k, es[0]), es[1..], a)
  }

  /** What Keep leaves out, counted as a set. */
  lemma {:induction false} KeepLosesSet(s: seq<int>, gone: set<int>, lost: set<int>)
    requires Distinct(s) && forall x :: x in lost <==> x in s && x in gone
    ensures |s| - |Keep(s, gone)| == |lost|
  {
    if s == [] {
      assert forall x :: x !in lost;
    } else {
      assert s == [s[0]] + s[1..];
      assert forall x :: x in s <==> x == s[0] || x in s[1..];
      assert s[0] !in s[1..];
      KeepLosesSet(s[1..], gone, lost - {s[0]});
      if s[0] in gone {
        assert s[0] in lost && |lost - {s[0]}| == |lost| - 1;
      } else {
        assert lost - {s[0]} == lost;
      }
    }
  }

  lemma RefundIsLoss(k: Kernel, e: Event, a: int)
    requires Sound(k) && Ends(e) && !IsDevSem(a)
    ensures |Refund(k, e, a)| == |Get(k.q, Blocked(a))| - |Keep(Get(k.q, Blocked(a)), Descendants(k, Cur(k)))|
  {
    hide Linked, Rooted, Count, Named, Accounted, Keep, Descendants;
    assert Lists(Get(k.q, Blocked(a)), k.place, Blocked(a));
    DescendantsArePids(k, Cur(k));
    KeepLosesSet(Get(k.q, Blocked(a)), Descendants(k, Cur(k)), Refund(k, e, a));
  }

  lemma NoRefund(k: Kernel, e: Event, a: int)
    requires Sound(k) && (!Ends(e) || IsDevSem(a))
    ensures Refund(k, e, a) == {}
  {
    hide Core, Descendants;
  }

  /** One event: the cell falls by one for whoever takes from it, and rises for whoever gives. */
  lemma CellMoves(k: Kernel, e: Event, a: int)
    requires Sound(k) && Enabled(k, e) && IsSemAddress(a) && a in k.sem && a != SYS_TIMER
    ensures a in Step(k, e).sem
    ensures Step(k, e).sem[a] == k.sem[a] + One(Gives(e, a)) - One(Takes(e, a)) + |Refund(k, e, a)|
  {
    hide Core, Accounted, Step, Refund, Keep, Descendants, Get, Resumed, Scheduled, SameFamily, Gone;
    CallerRuns(k, e);
    StepEffect(k, e);
    if Ends(e) && !IsDevSem(a) {
      RefundIsLoss(k, e, a);
    } else {
      NoRefund(k, e, a);
    }
  }

  /**
    The balance of every cell but the timer's, which each tick resets: what it holds after a run is what it held
    before, less what was taken, plus what was given, plus one unit for every waiter that was terminated. So no
    unit of a semaphore is ever lost or made.
   */
  lemma {:induction false} Balance(k: Kernel, es: seq<Event>, a: int)
    requires Sound(k) && Legal(k, es) && IsSemAddress(a) && a in k.sem && a != SYS_TIMER
    ensures a in Run(k, es).sem
    ensures Run(k, es).sem[a] == k.sem[a] + Given(es, a) - Taken(es, a) + Refunds(k, es, a)
    decreases |es|
  {
    hide Sound, Enabled, Step, Takes, Gives, Refund;
    if es != [] {
      StepSound(k, es[0]);
      CellMoves(k, es[0], a);
      Balance(Step(k, es[0]), es[1..], a);
    }
  }

  // ---------------------------------------------------------------- who sleeps, sleeps until woken

  /** The event may wake somebody who sleeps on the cell. */
  predicate Wakes(e: Event, a: int) {
    Gives(e, a) || (a == SYS_TIMER && e.ClockTick?)
  }

  /** The event terminates x. */
  ghost predicate Kills(k: Kernel, e: Event, x: int)
    requires Sound(k)
  {
    Ends(e) && x in Descendants(k, Cur(k))
  }

  /** x sleeps on a in every state of the run, the first and the last included, or up to an event that kills it. */
  ghost predicate Sleeps(k: Kernel, es: seq<Event>, x: int, a: int)
    requires Sound(k) && Legal(k, es)
    decreases |es|
  {
    && 0 <= x < |k.place| && k.place[x] == Blocked(a)
    && (es == [] || Kills(k, es[0], x) || (StepSound(k, es[0]); Sleeps(Step(k, es[0]), es[1..], x, a)))
  }

  lemma StaysPut(k: Kernel, e: Event, x: int, a: int)
    requires Sound(k) && Enabled(k, e) && IsPid(x) && k.place[x] == Blocked(a) && !Wakes(e, a) && !Kills(k, e, x)
    ensures Sound(Step(k, e)) && Step(k, e).place[x] == Blocked(a)
  {
    hide Linked, Rooted, Count, Named, Accounted, Step, Keep, Descendants, Get, Resumed, Scheduled, Decided;
    StepSound(k, e);
    StepEffect(k, e);
    CallerRuns(k, e);
    Listed(k, x);
    var s, s' := Get(k.q, Blocked(a)), Get(Step(k, e).q, Blocked(a));
    if Ends(e) {
      KeepMembers(s, Descendants(k, Cur(k)));
    }
    assert x in s';
    Member(Step(k, e), Blocked(a), x);
  }

  /** Whoever sleeps on a cell does so until an event wakes somebody there, or kills it. */
  lemma {:induction false} SleepsUntilWoken(k: Kernel, es: seq<Event>, x: int, a: int)
    requires Sound(k) && Legal(k, es) && IsPid(x) && |k.place| == MAXPROC && k.place[x] == Blocked(a)
    requires forall i :: 0 <= i < |es| ==> !Wakes(es[i], a)
    ensures Sleeps(k, es, x, a)
    decreases |es|
  {
    hide Core, Enabled, Step, Wakes, Kills, Decided;
    if es != [] && !Kills(k, es[0], x) {
      StepSound(k, es[0]);
      StaysPut(k, es[0], x, a);
      SizedPlaces(Step(k, es[0]));
      assert forall i :: 0 <= i < |es[1..]| ==> es[1..][i] == es[i + 1];
      SleepsUntilWoken(Step(k, es[0]), es[1..], x, a);
    }
  }

  lemma SizedPlaces(k: Kernel)
    requires Sound(k)
    ensures |k.place| == MAXPROC
  {}

  /** The caller of SYS7 sleeps at once, and until the next tick: it is neither ready nor running before. */
  lemma ClockSleepsUntilTick(k: Kernel, es: seq<Event>)
    requires Sound(k) && Enabled(k, SysClock) && (StepSound(k, SysClock); Legal(Step(k, SysClock), es))
    requires forall i :: 0 <= i < |es| ==> !es[i].ClockTick? && es[i] != SysV(SYS_TIMER)
    ensures Sleeps(Step(k, SysClock), es, Cur(k), SYS_TIMER)
  {
    hide Placed, Linked, Rooted, Count, Named, Accounted, Step, Decided, Scheduled;
    StepSound(k, SysClock);
    StepEffect(k, SysClock);
    CallerRuns(k, SysClock);
    var k' := Step(k, SysClock);
    assert Cur(k) in Get(k'.q, Blocked(SYS_TIMER));
    Member(k', Blocked(SYS_TIMER), Cur(k));
    forall i | 0 <= i < |es| ensures !Wakes(es[i], SYS_TIMER) {
      TimerIsNoDevice(es[i]);
    }
    SleepsUntilWoken(k', es, Cur(k), SYS_TIMER);
  }

  lemma TimerIsNoDevice(e: Event)
    ensures Wakes(e, SYS_TIMER) ==> e.ClockTick? || e == SysV(SYS_TIMER)
  {}
}
