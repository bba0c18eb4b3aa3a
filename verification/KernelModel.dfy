/**
  The nucleus as a state machine over abstract lists: what every system call, interrupt and
  scheduler decision does to the places of the PCBs, to the process tree, to the semaphores and
  to the two counters.
 */
module KernelModel {
  import opened Seqs
  import opened Layout
  import opened Places

  datatype Status =
    | Executing        // LDST of current_proc
    | Waiting          // WAIT, interrupts on
    | Halted           // HALT
    | Deadlocked       // PANIC of the scheduler
    | OutOfDescriptors // PANIC after insertBlocked

  datatype Kernel = Kernel(
    q: Queues,
    place: seq<Place>,
    parent: seq<int>,
    kids: seq<seq<int>>,   // p_child and the sibling list, first child first
    birth: seq<nat>,       // when the PCB was last allocated, which orders parents before children
    births: nat,
    root: int,             // the boot process
    sem: map<int, int>,    // the semaphore cells
    count: int,            // process_count
    sb: int,               // process_sb
    status: Status
  )

  /** A place of a process that is alive and not being terminated. */
  predicate Standing(pl: Place) {
    pl.Ready? || pl.Running? || pl.Blocked?
  }

  predicate OnDevice(pl: Place) {
    pl.Blocked? && IsDevSem(pl.address)
  }

  function Cur(k: Kernel): int {
    var running := Get(k.q, Running);
    if running == [] then NULL else running[0]
  }

  function Val(sem: map<int, int>, a: int): int {
    if a in sem then sem[a] else 0
  }

  /** Columns of a table in which nothing has happened yet. */
  function Nulls(): seq<int> {
    seq(MAXPROC, i => NULL)
  }

  function Kidless(): seq<seq<int>> {
    seq(MAXPROC, i => [])
  }

  function Zeros(): seq<nat> {
    seq(MAXPROC, i => 0)
  }

  predicate IsPid(x: int) {
    0 <= x < MAXPROC
  }

  ghost predicate Sized(k: Kernel) {
    |k.place| == |k.parent| == |k.kids| == |k.birth| == MAXPROC
  }

  // ---------------------------------------------------------------- invariant

  /** The cells of the device semaphores exist, and whoever sleeps does so on an existing cell. */
  ghost predicate Named(q: Queues, sem: map<int, int>) {
    && SYS_TIMER in sem
    && (forall row, col :: 0 <= row < 6 && 0 <= col < 8 ==> SemMat(row, col) in sem)
    && (forall a :: Get(q, Blocked(a)) != [] ==> IsSemAddress(a) && a in sem)
  }

  /** Parents and child lists mirror each other. */
  ghost predicate Linked(parent: seq<int>, kids: seq<seq<int>>) {
    && |parent| == |kids|
    && (forall p :: 0 <= p < |kids| ==> Distinct(kids[p]))
    && (forall p, c {:trigger c in kids[p]} {:trigger parent[c], kids[p]} :: 0 <= p < |kids| ==>
          (c in kids[p] <==> 0 <= c < |parent| && parent[c] == p))
    && (forall c :: 0 <= c < |parent| && parent[c] != NULL ==> 0 <= parent[c] < |kids|)
  }

  /** Only the standing have a parent; it is alive and older; and only the root stands without one. */
  ghost predicate Rooted(place: seq<Place>, parent: seq<int>, birth: seq<nat>, births: nat, root: int)
    requires |place| == |parent| == |birth|
  {
    && (forall c :: 0 <= c < |parent| && 0 <= parent[c] < |parent| ==>
          && birth[parent[c]] < birth[c]
          && Standing(place[c])
          && !place[parent[c]].Free?)
    && (forall c :: 0 <= c < |parent| && Standing(place[c]) && parent[c] == NULL ==> c == root)
    && (forall c :: 0 <= c < |birth| ==> birth[c] < births)
  }

  ghost predicate Counted(q: Queues, place: seq<Place>, count: int, sb: int) {
    && count == MAXPROC - |Get(q, Free)|
    && sb == Count(place, OnDevice)
  }

  /** A semaphore that is not a device's has exactly as many waiters as its value is below zero. */
  ghost predicate Accounted(q: Queues, sem: map<int, int>) {
    forall a :: a in sem && !IsDevSem(a) ==> |Get(q, Blocked(a))| == if sem[a] < 0 then -sem[a] else 0
  }

  /** The invariant but for the semaphore values. */
  ghost predicate Core(k: Kernel) {
    && Sized(k)
    && Placed(k.q, k.place)
    && |Get(k.q, Running)| <= 1
    && |Get(k.q, Dying)| <= 1
    && Named(k.q, k.sem)
    && Linked(k.parent, k.kids)
    && Rooted(k.place, k.parent, k.birth, k.births, k.root)
    && Counted(k.q, k.place, k.count, k.sb)
  }

  ghost predicate Inv(k: Kernel) {
    Core(k) && Accounted(k.q, k.sem)
  }

  /** No termination is in progress. */
  ghost predicate Quiet(k: Kernel) {
    Get(k.q, Doomed) == [] && Get(k.q, Dying) == []
  }

  // ---------------------------------------------------------------- elementary steps

  function MoveTo(k: Kernel, x: int, pl: Place): Kernel {
    if 0 <= x < |k.place| then k.(q := Move(k.q, k.place, x, pl), place := k.place[x := pl]) else k
  }

  /** insertChild(p, c). */
  function Attach(k: Kernel, p: int, c: int): Kernel {
    if 0 <= p < |k.kids| && 0 <= c < |k.parent|
    then k.(parent := k.parent[c := p], kids := k.kids[p := [c] + k.kids[p]])
    else k
  }

  /** outChild(c), and removeChild of c's parent when c is its first child. */
  function Detach(k: Kernel, c: int): Kernel {
    if 0 <= c < |k.parent| && 0 <= k.parent[c] < |k.kids|
    then k.(parent := k.parent[c := NULL], kids := k.kids[k.parent[c] := Remove(k.kids[k.parent[c]], c)])
    else k
  }

  function One(b: bool): int {
    if b then 1 else 0
  }

  /** current_proc goes to sleep on a, one P deeper. */
  function BlockOn(k: Kernel, a: int): Kernel {
    MoveTo(k, Cur(k), Blocked(a)).(sem := k.sem[a := Val(k.sem, a) - 1], sb := k.sb + One(IsDevSem(a)))
  }

  /** insertBlocked reports failure: a needs a new descriptor and all of them are in use. */
  predicate NoDescriptor(k: Kernel, a: int) {
    Get(k.q, Blocked(a)) == [] && |BlockedPlaces(k.q)| >= MAXPROC
  }

  /** The semaphores that have waiters. */
  function BlockedPlaces(q: Queues): set<Place> {
    set pl | pl in q && pl.Blocked?
  }

  /** removeBlocked(a), and the process it returns, if any, joins the ready queue. */
  function WakeFirst(k: Kernel, a: int): Kernel {
    var waiting := Get(k.q, Blocked(a));
    if waiting == [] then k else MoveTo(k, waiting[0], Ready).(sb := k.sb - One(IsDevSem(a)))
  }

  function AddTo(k: Kernel, a: int, n: int): Kernel {
    k.(sem := k.sem[a := Val(k.sem, a) + n])
  }

  // ---------------------------------------------------------------- scheduler

  function Dispatch(k: Kernel): Kernel {
    var ready := Get(k.q, Ready);
    if ready != [] then MoveTo(k, ready[0], Running).(status := Executing)
    else if k.count == 0 then k.(status := Halted)
    else if k.sb > 0 then k.(status := Waiting)
    else k.(status := Deadlocked)
  }

  // ---------------------------------------------------------------- system calls

  /** SYS1. Without a free PCB nothing changes. */
  function Create(k: Kernel): Kernel {
    var free := Get(k.q, Free);
    if free == [] then k
    else
      var c := free[0];
      var k1 := Attach(MoveTo(k, c, Ready), Cur(k), c);
      k1.(birth := if 0 <= c < |k.birth| then k.birth[c := k.births] else k.birth,
          births := k.births + 1,
          count := k.count + 1)
  }

  /** SYS2, before its loop: the current process leaves its parent and is the first to be doomed. */
  function KillStart(k: Kernel): Kernel {
    MoveTo(Detach(k, Cur(k)), Cur(k), Doomed)
  }

  /** The outer loop takes the next target. */
  function KillPop(k: Kernel): Kernel {
    var doomed := Get(k.q, Doomed);
    if doomed == [] then k else MoveTo(k, doomed[0], Dying)
  }

  /** A child that sleeps gives back what it took: the device count, or the semaphore's unit. */
  function Release(k: Kernel, c: int): Kernel {
    if 0 <= c < |k.place| && k.place[c].Blocked? then
      var a := k.place[c].address;
      if IsDevSem(a) then k.(sb := k.sb - 1) else AddTo(k, a, 1)
    else k
  }

  function Target(k: Kernel): int {
    var dying := Get(k.q, Dying);
    if dying == [] then NULL else dying[0]
  }

  function KidsOf(k: Kernel, p: int): seq<int> {
    if 0 <= p < |k.kids| then k.kids[p] else []
  }

  /** The inner loop dooms the target's first child. */
  function KillChild(k: Kernel): Kernel {
    var kids := KidsOf(k, Target(k));
    if kids == [] then k else MoveTo(Release(Detach(k, kids[0]), kids[0]), kids[0], Doomed)
  }

  /** The childless target is freed. */
  function KillFree(k: Kernel): Kernel {
    MoveTo(k, Target(k), Free).(count := k.count - 1)
  }

}
