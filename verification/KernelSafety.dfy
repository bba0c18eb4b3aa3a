/** Every elementary step of the nucleus keeps the invariant. */
module KernelSafety {
  import opened Seqs
  import opened Layout
  import opened Places
  import opened KernelModel

  /** What one move does to every list, to the places and to the device count. */
  lemma Moved(k: Kernel, x: int, pl: Place)
    requires Sized(k) && Placed(k.q, k.place) && IsPid(x) && k.place[x] != pl
    ensures var k' := MoveTo(k, x, pl);
      && Sized(k') && Placed(k'.q, k'.place)
      && k' == k.(q := k'.q, place := k.place[x := pl])
      && (forall other :: Get(k'.q, other) ==
            if other == pl then Add(pl, Get(k.q, pl), x)
            else if other == k.place[x] then Remove(Get(k.q, other), x)
            else Get(k.q, other))
      && |Get(k'.q, pl)| == |Get(k.q, pl)| + 1
      && |Get(k'.q, k.place[x])| == |Get(k.q, k.place[x])| - 1
      && Count(k'.place, OnDevice) == Count(k.place, OnDevice) - One(OnDevice(k.place[x])) + One(OnDevice(pl))
  {
    MovePlaced(k.q, k.place, x, pl);
    CountUpdate(k.place, x, pl, OnDevice);
    forall other
      ensures Get(MoveTo(k, x, pl).q, other) ==
        if other == pl then Add(pl, Get(k.q, pl), x)
        else if other == k.place[x] then Remove(Get(k.q, other), x)
        else Get(k.q, other)
    {
      GetAfterMove(k.q, k.place, x, pl, other);
    }
    assert Lists(Get(k.q, k.place[x]), k.place, k.place[x]);
    RemoveIsDelete(Get(k.q, k.place[x]), x);
  }

  /** The member of a list is at that list's place. */
  lemma Member(k: Kernel, pl: Place, x: int)
    requires Sized(k) && Placed(k.q, k.place) && x in Get(k.q, pl)
    ensures IsPid(x) && k.place[x] == pl
  {
    assert Lists(Get(k.q, pl), k.place, pl);
  }

  lemma Listed(k: Kernel, x: int)
    requires Sized(k) && Placed(k.q, k.place) && IsPid(x)
    ensures x in Get(k.q, k.place[x])
  {
    assert Lists(Get(k.q, k.place[x]), k.place, k.place[x]);
  }

  /** A move between standing places does not touch the family. */
  lemma StandingMove(place: seq<Place>, parent: seq<int>, birth: seq<nat>, births: nat, root: int, x: int, pl: Place)
    requires |place| == |parent| == |birth| && Rooted(place, parent, birth, births, root)
    requires 0 <= x < |place| && Standing(place[x]) && Standing(pl)
    ensures Rooted(place[x := pl], parent, birth, births, root)
  {}

  /** Lists other than the semaphores' matter neither to the cells nor to their accounts. */
  lemma SameWaiters(q: Queues, q': Queues, sem: map<int, int>)
    requires forall a :: Get(q', Blocked(a)) == Get(q, Blocked(a))
    ensures Named(q, sem) ==> Named(q', sem)
    ensures Accounted(q, sem) ==> Accounted(q', sem)
  {}

  lemma BlockOnInv(k: Kernel, a: int)
    requires Inv(k) && Cur(k) != NULL && IsSemAddress(a) && a in k.sem
    requires IsDevSem(a) || k.sem[a] <= 0
    ensures Inv(BlockOn(k, a)) && Cur(BlockOn(k, a)) == NULL
    ensures Quiet(k) ==> Quiet(BlockOn(k, a))
  {
    hide MoveTo, Move, Placed, Linked, Rooted, Count;
    Member(k, Running, Cur(k));
    Moved(k, Cur(k), Blocked(a));
    StandingMove(k.place, k.parent, k.birth, k.births, k.root, Cur(k), Blocked(a));
  }

  lemma WakeFirstCore(k: Kernel, a: int)
    requires Core(k)
    ensures var k' := WakeFirst(k, a);
      && Core(k')
      && k' == k.(q := k'.q, place := k'.place, sb := k'.sb)
      && (forall pl :: Get(k'.q, pl) ==
            if Get(k.q, Blocked(a)) == [] then Get(k.q, pl)
            else if pl == Blocked(a) then Get(k.q, pl)[1..]
            else if pl == Ready then Get(k.q, pl) + [Get(k.q, Blocked(a))[0]]
            else Get(k.q, pl))
  {
    hide MoveTo, Move, Placed, Linked, Rooted, Count;
    var waiting := Get(k.q, Blocked(a));
    if waiting != [] {
      Member(k, Blocked(a), waiting[0]);
      Moved(k, waiting[0], Ready);
      StandingMove(k.place, k.parent, k.birth, k.births, k.root, waiting[0], Ready);
    }
  }

  lemma DispatchInv(k: Kernel)
    requires Inv(k) && Cur(k) == NULL
    ensures Inv(Dispatch(k))
    ensures forall pl :: pl != Ready && pl != Running ==> Get(Dispatch(k).q, pl) == Get(k.q, pl)
    ensures Get(Dispatch(k).q, Ready) == if Get(k.q, Ready) == [] then [] else Get(k.q, Ready)[1..]
    ensures Get(Dispatch(k).q, Running) == if Get(k.q, Ready) == [] then [] else [Get(k.q, Ready)[0]]
  {
    hide MoveTo, Move, Placed, Linked, Rooted, Count;
    var ready := Get(k.q, Ready);
    if ready != [] {
      Member(k, Ready, ready[0]);
      Moved(k, ready[0], Running);
      StandingMove(k.place, k.parent, k.birth, k.births, k.root, ready[0], Running);
    }
    if Get(k.q, Running) != [] {
      Member(k, Running, Get(k.q, Running)[0]);
      assert false;
    }
  }

  // ---------------------------------------------------------------- the family

  lemma AttachLinked(parent: seq<int>, kids: seq<seq<int>>, p: int, c: int)
    requires Linked(parent, kids) && 0 <= p < |kids| && 0 <= c < |parent| && parent[c] == NULL
    ensures Linked(parent[c := p], kids[p := [c] + kids[p]])
  {
    var longer := [c] + kids[p];
    assert c !in kids[p];
    forall i, j | 0 <= i < j < |longer| ensures longer[i] != longer[j] {
      assert longer[j] == kids[p][j - 1] && longer[j] in kids[p];
    }
    assert forall x :: x in longer <==> x == c || x in kids[p];
  }

  lemma DetachLinked(parent: seq<int>, kids: seq<seq<int>>, c: int)
    requires Linked(parent, kids) && 0 <= c < |parent| && parent[c] != NULL
    ensures Linked(parent[c := NULL], kids[parent[c] := Remove(kids[parent[c]], c)])
  {
    RemoveIsDelete(kids[parent[c]], c);
  }

  /** Create: a free PCB becomes the youngest, a child of a process that is alive. */
  lemma BornRooted(place: seq<Place>, parent: seq<int>, birth: seq<nat>, births: nat, root: int, p: int, c: int)
    requires |place| == |parent| == |birth| && Rooted(place, parent, birth, births, root)
    requires 0 <= p < |place| && 0 <= c < |place| && place[c].Free? && Standing(place[p])
    ensures Rooted(place[c := Ready], parent[c := p], birth[c := births], births + 1, root)
  {}

  /** A standing process is doomed and orphaned. */
  lemma DoomedRooted(place: seq<Place>, parent: seq<int>, birth: seq<nat>, births: nat, root: int, c: int)
    requires |place| == |parent| == |birth| && Rooted(place, parent, birth, births, root)
    requires 0 <= c < |place| && Standing(place[c])
    ensures Rooted(place[c := Doomed], parent[c := NULL], birth, births, root)
  {}

  lemma CreateInv(k: Kernel)
    requires Inv(k) && Cur(k) != NULL
    ensures Inv(Create(k)) && (Quiet(k) ==> Quiet(Create(k))) && Cur(Create(k)) == Cur(k)
    ensures forall pl :: pl != Free && pl != Ready ==> Get(Create(k).q, pl) == Get(k.q, pl)
    ensures Get(k.q, Free) != [] ==>
      && Get(Create(k).q, Ready) == Get(k.q, Ready) + [Get(k.q, Free)[0]]
      && Get(Create(k).q, Free) == Get(k.q, Free)[1..]
  {
    hide MoveTo, Move, Placed, Linked, Rooted, Count;
    var free := Get(k.q, Free);
    if free != [] {
      var c, p := free[0], Cur(k);
      Member(k, Free, c);
      Member(k, Running, p);
      Moved(k, c, Ready);
      BornRooted(k.place, k.parent, k.birth, k.births, k.root, p, c);
      FreeIsOrphan(k, c);
      AttachLinked(k.parent, k.kids, p, c);
    }
  }

  /** A dying process without children is freed. */
  lemma FreedRooted(place: seq<Place>, parent: seq<int>, birth: seq<nat>, births: nat, root: int, t: int)
    requires |place| == |parent| == |birth| && Rooted(place, parent, birth, births, root)
    requires 0 <= t < |place| && !Standing(place[t]) && forall c :: 0 <= c < |parent| ==> parent[c] != t
    ensures Rooted(place[t := Free], parent, birth, births, root)
  {}

  lemma TargetRooted(place: seq<Place>, parent: seq<int>, birth: seq<nat>, births: nat, root: int, t: int)
    requires |place| == |parent| == |birth| && Rooted(place, parent, birth, births, root)
    requires 0 <= t < |place| && place[t].Doomed?
    ensures Rooted(place[t := Dying], parent, birth, births, root)
  {}

  lemma NoKidsNoParent(k: Kernel, p: int)
    requires Core(k) && IsPid(p) && k.kids[p] == []
    ensures forall c :: 0 <= c < |k.parent| ==> k.parent[c] != p
  {
    forall c | 0 <= c < |k.parent| ensures k.parent[c] != p {
      assert c !in k.kids[p];
    }
  }

  lemma FreeIsOrphan(k: Kernel, c: int)
    requires Core(k) && IsPid(c) && !Standing(k.place[c])
    ensures k.parent[c] == NULL
  {}

  lemma DetachKeepsLinked(k: Kernel, c: int)
    requires Core(k) && IsPid(c)
    ensures var k' := Detach(k, c);
      && Linked(k'.parent, k'.kids) && |k'.kids| == MAXPROC
      && k'.parent == k.parent[c := NULL] && k' == k.(parent := k'.parent, kids := k'.kids)
  {
    if k.parent[c] != NULL {
      DetachLinked(k.parent, k.kids, c);
    } else {
      assert k.parent[c := NULL] == k.parent;
    }
  }

  lemma KillStartInv(k: Kernel)
    requires Inv(k) && Quiet(k) && Cur(k) != NULL
    ensures Inv(KillStart(k)) && Cur(KillStart(k)) == NULL
    ensures Get(KillStart(k).q, Doomed) == [Cur(k)]
    ensures KillStart(k).place == k.place[Cur(k) := Doomed]
    ensures KillStart(k).parent == k.parent[Cur(k) := NULL]
    ensures forall pl :: pl != Running && pl != Doomed ==> Get(KillStart(k).q, pl) == Get(k.q, pl)
  {
    hide MoveTo, Move, Placed, Linked, Rooted, Count, Named, Accounted;
    var c := Cur(k);
    Member(k, Running, c);
    DetachKeepsLinked(k, c);
    Moved(Detach(k, c), c, Doomed);
    DoomedRooted(k.place, k.parent, k.birth, k.births, k.root, c);
    SameWaiters(k.q, KillStart(k).q, k.sem);
  }

  lemma KillPopInv(k: Kernel)
    requires Inv(k) && Get(k.q, Dying) == [] && Get(k.q, Doomed) != []
    ensures Inv(KillPop(k)) && Cur(KillPop(k)) == Cur(k)
    ensures Get(KillPop(k).q, Dying) == [Get(k.q, Doomed)[0]]
    ensures Get(KillPop(k).q, Doomed) == Get(k.q, Doomed)[1..]
    ensures KillPop(k).place == k.place[Get(k.q, Doomed)[0] := Dying]
    ensures forall pl :: pl != Doomed && pl != Dying ==> Get(KillPop(k).q, pl) == Get(k.q, pl)
  {
    hide MoveTo, Move, Placed, Linked, Rooted, Count, Named, Accounted;
    var t := Get(k.q, Doomed)[0];
    Member(k, Doomed, t);
    Moved(k, t, Dying);
    TargetRooted(k.place, k.parent, k.birth, k.births, k.root, t);
    SameWaiters(k.q, KillPop(k).q, k.sem);
  }

  lemma KillFreeInv(k: Kernel)
    requires Inv(k) && Get(k.q, Dying) != [] && KidsOf(k, Target(k)) == []
    ensures Inv(KillFree(k)) && Cur(KillFree(k)) == Cur(k)
    ensures Get(KillFree(k).q, Dying) == []
    ensures KillFree(k).place == k.place[Target(k) := Free]
    ensures forall pl :: pl != Free && pl != Dying ==> Get(KillFree(k).q, pl) == Get(k.q, pl)
  {
    hide MoveTo, Move, Placed, Linked, Rooted, Count, Named, Accounted;
    var t := Target(k);
    Member(k, Dying, t);
    Moved(k, t, Free);
    NoKidsNoParent(k, t);
    FreedRooted(k.place, k.parent, k.birth, k.births, k.root, t);
    SameWaiters(k.q, KillFree(k).q, k.sem);
  }

  lemma ChildStands(k: Kernel, p: int, c: int)
    requires Core(k) && IsPid(p) && c in k.kids[p]
    ensures IsPid(c) && k.parent[c] == p && Standing(k.place[c])
  {
    assert 0 <= c < |k.parent| && k.parent[c] == p;
  }

  /** The child's semaphore gets back exactly what the child took. */
  lemma ReleaseAccounts(k: Kernel, c: int, q': Queues)
    requires Core(k) && Accounted(k.q, k.sem) && IsPid(c)
    requires forall pl: Place :: pl.Blocked? ==>
      |Get(q', pl)| == |Get(k.q, pl)| - One(pl == k.place[c]) && (Get(k.q, pl) == [] ==> Get(q', pl) == [])
    ensures Named(q', Release(k, c).sem) && Accounted(q', Release(k, c).sem)
  {
    hide Placed, Linked, Rooted, Count;
    Listed(k, c);
  }

  lemma KillChildInv(k: Kernel)
    requires Inv(k) && Cur(k) == NULL && Get(k.q, Dying) != [] && KidsOf(k, Target(k)) != []
    ensures Inv(KillChild(k)) && Cur(KillChild(k)) == NULL
    ensures var c := KidsOf(k, Target(k))[0]; var k' := KillChild(k);
      && IsPid(c) && k.parent[c] == Target(k) && Standing(k.place[c])
      && k'.place == k.place[c := Doomed] && k'.parent == k.parent[c := NULL]
      && (forall pl :: Get(k'.q, pl) ==
            if pl == Doomed then Get(k.q, pl) + [c]
            else if pl == k.place[c] then Remove(Get(k.q, pl), c)
            else Get(k.q, pl))
  {
    hide MoveTo, Move, Placed, Linked, Rooted, Count, Named, Accounted;
    var t := Target(k);
    Member(k, Dying, t);
    var c := KidsOf(k, t)[0];
    ChildStands(k, t, c);
    DetachKeepsLinked(k, c);
    Listed(k, c);
    var k1 := Release(Detach(k, c), c);
    assert k1 == k.(parent := k1.parent, kids := k1.kids, sem := k1.sem, sb := k1.sb);
    Moved(k1, c, Doomed);
    DoomedRooted(k.place, k.parent, k.birth, k.births, k.root, c);
    assert Remove([], c) == [];
    ReleaseAccounts(k, c, KillChild(k).q);
  }
}
