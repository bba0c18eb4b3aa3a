/**
  SYS2: the nested loop of syscall2 as a recursion over its elementary steps, and the proof that it
  frees the current process and all its descendants, once each, and disturbs nobody else.
 */
module KernelKill {
  import opened Seqs
  import opened Layout
  import opened Places
  import opened KernelModel
  import opened KernelSafety

  /** Dooming a child leaves fewer standing. */
  lemma ChildShrinks(k: Kernel)
    requires Inv(k) && Cur(k) == NULL && Get(k.q, Dying) != [] && KidsOf(k, Target(k)) != []
    ensures Inv(KillChild(k)) && Cur(KillChild(k)) == NULL
    ensures Count(KillChild(k).place, Standing) < Count(k.place, Standing)
  {
    hide Placed, Linked, Rooted, Count, Named, Accounted, MoveTo, Move;
    KillChildInv(k);
    CountUpdate(k.place, KidsOf(k, Target(k))[0], Doomed, Standing);
  }

  /** Freeing the target leaves nobody dying. */
  lemma FreeShrinks(k: Kernel)
    requires Inv(k) && Cur(k) == NULL && Get(k.q, Dying) != [] && KidsOf(k, Target(k)) == []
    ensures Inv(KillFree(k)) && Cur(KillFree(k)) == NULL
    ensures Count(KillFree(k).place, Standing) == Count(k.place, Standing)
    ensures Get(KillFree(k).q, Doomed) == Get(k.q, Doomed) && Get(KillFree(k).q, Dying) == []
  {
    hide Placed, Linked, Rooted, Count, Named, Accounted, MoveTo, Move;
    Member(k, Dying, Target(k));
    KillFreeInv(k);
    CountUpdate(k.place, Target(k), Free, Standing);
  }

  /** Taking a target leaves fewer doomed. */
  lemma PopShrinks(k: Kernel)
    requires Inv(k) && Cur(k) == NULL && Get(k.q, Dying) == [] && Get(k.q, Doomed) != []
    ensures Inv(KillPop(k)) && Cur(KillPop(k)) == NULL
    ensures Count(KillPop(k).place, Standing) == Count(k.place, Standing)
    ensures |Get(KillPop(k).q, Doomed)| < |Get(k.q, Doomed)|
  {
    hide Placed, Linked, Rooted, Count, Named, Accounted, MoveTo, Move;
    Member(k, Doomed, Get(k.q, Doomed)[0]);
    KillPopInv(k);
    CountUpdate(k.place, Get(k.q, Doomed)[0], Dying, Standing);
  }

  /** The loops of syscall2: every iteration shrinks the standing, then the doomed, then the dying. */
  function Kill(k: Kernel): (r: Kernel)
    requires Inv(k) && Cur(k) == NULL
    ensures Inv(r) && Cur(r) == NULL && Quiet(r)
    decreases Count(k.place, Standing), |Get(k.q, Doomed)|, |Get(k.q, Dying)|
  {
    if Get(k.q, Dying) != [] then
      if KidsOf(k, Target(k)) != [] then
        ChildShrinks(k);
        Kill(KillChild(k))
      else
        FreeShrinks(k);
        Kill(KillFree(k))
    else if Get(k.q, Doomed) != [] then
      PopShrinks(k);
      Kill(KillPop(k))
    else k
  }

  /** x is r or a descendant of r. */
  ghost predicate Under(k: Kernel, r: int, x: int)
    requires Core(k) && IsPid(x)
    decreases k.birth[x]
  {
    x == r || (k.parent[x] != NULL && Under(k, r, k.parent[x]))
  }

  /** x is being terminated, or descends from a process that is. */
  ghost predicate Lost(k: Kernel, x: int)
    requires Core(k) && IsPid(x)
    decreases k.birth[x]
  {
    k.place[x].Doomed? || k.place[x].Dying? || (k.parent[x] != NULL && Lost(k, k.parent[x]))
  }

  ghost function LostSet(k: Kernel): set<int>
    requires Core(k)
  {
    set x | 0 <= x < MAXPROC && Lost(k, x)
  }

  /** Dooming a child, or taking a target, leaves the set of the lost as it was. */
  lemma {:induction false} LostAfterChild(k: Kernel, x: int)
    requires Inv(k) && Cur(k) == NULL && Get(k.q, Dying) != [] && KidsOf(k, Target(k)) != []
    requires IsPid(x)
    ensures Inv(KillChild(k)) && (Lost(KillChild(k), x) <==> Lost(k, x))
    decreases k.birth[x]
  {
    hide Linked, Placed, Count, Move;
    KillChildInv(k);
    var c := KidsOf(k, Target(k))[0];
    Member(k, Dying, Target(k));
    if x != c && k.parent[x] != NULL {
      ParentIsOlder(k, x);
      LostAfterChild(k, k.parent[x]);
    }
  }

  lemma ParentIsOlder(k: Kernel, x: int)
    requires Core(k) && IsPid(x) && k.parent[x] != NULL
    ensures IsPid(k.parent[x]) && k.birth[k.parent[x]] < k.birth[x]
  {}

  lemma {:induction false} LostAfterPop(k: Kernel, x: int)
    requires Inv(k) && Get(k.q, Dying) == [] && Get(k.q, Doomed) != [] && IsPid(x)
    ensures Inv(KillPop(k)) && (Lost(KillPop(k), x) <==> Lost(k, x))
    decreases k.birth[x]
  {
    hide Linked, Placed, Count, Move;
    KillPopInv(k);
    Member(k, Doomed, Get(k.q, Doomed)[0]);
    if k.parent[x] != NULL {
      ParentIsOlder(k, x);
      LostAfterPop(k, k.parent[x]);
    }
  }

  /** Freeing the target takes exactly the target out of the lost. */
  lemma {:induction false} LostAfterFree(k: Kernel, x: int)
    requires Inv(k) && Get(k.q, Dying) != [] && KidsOf(k, Target(k)) == [] && IsPid(x)
    ensures Inv(KillFree(k)) && (Lost(KillFree(k), x) <==> Lost(k, x) && x != Target(k))
    decreases k.birth[x]
  {
    hide Placed, Count, Move;
    KillFreeInv(k);
    Member(k, Dying, Target(k));
    if k.parent[x] != NULL {
      ParentIsOlder(k, x);
      LostAfterFree(k, k.parent[x]);
      assert x in k.kids[k.parent[x]];
    }
  }

  /** The survivors of a termination keep everything; the lost are all, and only, what is freed. */
  ghost predicate Exact(k: Kernel, k': Kernel)
    requires Core(k) && Core(k')
  {
    var lost := LostSet(k);
    && (forall x :: IsPid(x) ==> k'.place[x] == if x in lost then Free else k.place[x])
    && (forall pl :: Standing(pl) ==> Get(k'.q, pl) == Keep(Get(k.q, pl), lost))
    && |Get(k'.q, Free)| == |Get(k.q, Free)| + |lost|
    && (forall x :: IsPid(x) && x !in lost ==> k'.parent[x] == k.parent[x] && k'.kids[x] == k.kids[x])
    && Refunded(k, k')
    && k'.birth == k.birth && k'.births == k.births && k'.root == k.root && k'.status == k.status
  }

  /** Each semaphore that is not a device's got back one unit for every waiter it lost. */
  ghost predicate Refunded(k: Kernel, k': Kernel) {
    && k'.sem.Keys == k.sem.Keys
    && forall a :: a in k.sem ==>
      k'.sem[a] == k.sem[a] + if IsDevSem(a) then 0 else |Get(k.q, Blocked(a))| - |Get(k'.q, Blocked(a))|
  }

  lemma ExactAfterPop(k: Kernel, k': Kernel)
    requires Inv(k) && Cur(k) == NULL && Get(k.q, Dying) == [] && Get(k.q, Doomed) != []
    requires Inv(KillPop(k)) && Inv(k') && Exact(KillPop(k), k')
    ensures Exact(k, k')
  {
    hide Linked, Rooted, Placed, Count, Move, Lost, Named, Accounted;
    var k1 := KillPop(k);
    KillPopInv(k);
    var t := Get(k.q, Doomed)[0];
    Member(k, Doomed, t);
    forall x | IsPid(x) ensures Lost(k1, x) <==> Lost(k, x) {
      LostAfterPop(k, x);
    }
    assert LostSet(k1) == LostSet(k);
    DoomedIsLost(k, t);
  }

  lemma DoomedIsLost(k: Kernel, x: int)
    requires Core(k) && IsPid(x) && (k.place[x].Doomed? || k.place[x].Dying?)
    ensures Lost(k, x)
  {}

  lemma ExactAfterFree(k: Kernel, k': Kernel)
    requires Inv(k) && Cur(k) == NULL && Get(k.q, Dying) != [] && KidsOf(k, Target(k)) == []
    requires Inv(KillFree(k)) && Inv(k') && Exact(KillFree(k), k')
    ensures Exact(k, k')
  {
    hide Linked, Rooted, Placed, Count, Move, Lost, Named, Accounted, Keep;
    var k1, t := KillFree(k), Target(k);
    KillFreeInv(k);
    Member(k, Dying, t);
    DoomedIsLost(k, t);
    forall x | IsPid(x) ensures Lost(k1, x) <==> Lost(k, x) && x != t {
      LostAfterFree(k, x);
    }
    assert LostSet(k) == LostSet(k1) + {t};
    assert forall pl :: Standing(pl) ==> Get(k1.q, pl) == Get(k.q, pl);
    forall pl | Standing(pl) ensures Keep(Get(k.q, pl), LostSet(k1)) == Keep(Get(k.q, pl), LostSet(k)) {
      if t in Get(k.q, pl) {
        Member(k, pl, t);
      }
      KeepOthers(Get(k.q, pl), LostSet(k1), t);
    }
    assert |Get(k1.q, Free)| == |Get(k.q, Free)| + 1 by {
      Moved(k, t, Free);
    }
  }

  lemma {:induction false} KeepOthers(s: seq<int>, gone: set<int>, t: int)
    requires t !in s
    ensures Keep(s, gone + {t}) == Keep(s, gone)
  {
    if s != [] {
      assert s[0] in s;
      KeepOthers(s[1..], gone, t);
    }
  }

  /** Dooming a child changes only its own and its parent's links, and frees nobody. */
  lemma ChildKeepsOthers(k: Kernel)
    requires Inv(k) && Cur(k) == NULL && Get(k.q, Dying) != [] && KidsOf(k, Target(k)) != []
    ensures var k1 := KillChild(k);
      && IsPid(Target(k)) && k.place[Target(k)].Dying?
      && |k1.kids| == |k1.parent| == MAXPROC
      && (forall x :: IsPid(x) && x != Target(k) ==> k1.kids[x] == k.kids[x])
      && (forall x :: IsPid(x) && x != KidsOf(k, Target(k))[0] ==> k1.parent[x] == k.parent[x])
      && k1.birth == k.birth && k1.births == k.births && k1.root == k.root && k1.status == k.status
      && |Get(k1.q, Free)| == |Get(k.q, Free)|
  {
    hide Linked, Rooted, Placed, Count, Move, MoveTo, Named, Accounted;
    var c := KidsOf(k, Target(k))[0];
    KillChildInv(k);
    Member(k, Dying, Target(k));
    Moved(Release(Detach(k, c), c), c, Doomed);
  }

  lemma ExactAfterChild(k: Kernel, k': Kernel)
    requires Inv(k) && Cur(k) == NULL && Get(k.q, Dying) != [] && KidsOf(k, Target(k)) != []
    requires Inv(KillChild(k)) && Inv(k') && Exact(KillChild(k), k')
    ensures Exact(k, k')
  {
    hide Linked, Rooted, Placed, Counted, KillChild, Lost, Named, Accounted, Keep, Remove, Refunded, Get;
    var k1, c := KillChild(k), KidsOf(k, Target(k))[0];
    KillChildInv(k);
    ChildKeepsOthers(k);
    DoomedIsLost(k, Target(k));
    DoomedIsLost(k1, c);
    forall x | IsPid(x) ensures Lost(k1, x) <==> Lost(k, x) {
      LostAfterChild(k, x);
    }
    assert LostSet(k1) == LostSet(k);
    forall pl | Standing(pl) ensures Keep(Get(k1.q, pl), LostSet(k)) == Keep(Get(k.q, pl), LostSet(k)) {
      KeepRemove(Get(k.q, pl), c, LostSet(k));
    }
    ChildRefund(k);
    RefundedTwice(k, k1, k');
  }

  lemma RefundedTwice(k: Kernel, k1: Kernel, k': Kernel)
    requires Refunded(k, k1) && Refunded(k1, k')
    ensures Refunded(k, k')
  {
    forall a | a in k.sem
      ensures k'.sem[a] == k.sem[a] + if IsDevSem(a) then 0 else |Get(k.q, Blocked(a))| - |Get(k'.q, Blocked(a))|
    {
      assert a in k1.sem;
    }
  }

  lemma RemoveOne(k: Kernel, pl: Place, x: int)
    requires Core(k) && x in Get(k.q, pl)
    ensures |Remove(Get(k.q, pl), x)| == |Get(k.q, pl)| - 1
  {
    assert Lists(Get(k.q, pl), k.place, pl);
    RemoveIsDelete(Get(k.q, pl), x);
  }

  /** The cells after a child is doomed. */
  lemma ChildCells(k: Kernel)
    requires Inv(k) && Cur(k) == NULL && Get(k.q, Dying) != [] && KidsOf(k, Target(k)) != []
    ensures var k1, c := KillChild(k), KidsOf(k, Target(k))[0];
      && 0 <= c < |k.place|
      && k1.sem == (if k.place[c].Blocked? && !IsDevSem(k.place[c].address)
                    then k.sem[k.place[c].address := Val(k.sem, k.place[c].address) + 1] else k.sem)
      && (k.place[c].Blocked? ==> k.place[c].address in k.sem)
  {
    hide Placed, Rooted, Count, Move, Accounted;
    var c := KidsOf(k, Target(k))[0];
    Member(k, Dying, Target(k));
    ChildStands(k, Target(k), c);
    Listed(k, c);
  }

  /** The child's own semaphore, and no other, is refunded one unit when the child is doomed. */
  lemma ChildRefund(k: Kernel)
    requires Inv(k) && Cur(k) == NULL && Get(k.q, Dying) != [] && KidsOf(k, Target(k)) != []
    ensures Refunded(k, KillChild(k))
  {
    hide Linked, Rooted, Placed, Counted, KillChild, Accounted, Named, Get;
    var k1, c := KillChild(k), KidsOf(k, Target(k))[0];
    KillChildInv(k);
    ChildCells(k);
    Listed(k, c);
    forall a | a in k.sem
      ensures k1.sem[a] == k.sem[a] + if IsDevSem(a) then 0 else |Get(k.q, Blocked(a))| - |Get(k1.q, Blocked(a))|
    {
      if k.place[c] == Blocked(a) {
        RemoveOne(k, Blocked(a), c);
      }
    }
  }

  lemma {:induction false} KillExact(k: Kernel)
    requires Inv(k) && Cur(k) == NULL
    ensures Exact(k, Kill(k))
    decreases Count(k.place, Standing), |Get(k.q, Doomed)|, |Get(k.q, Dying)|
  {
    hide Core, Move, MoveTo, Named, Accounted, Exact, Lost, KillChild, KillFree, KillPop;
    if Get(k.q, Dying) != [] {
      if KidsOf(k, Target(k)) != [] {
        ChildShrinks(k);
        KillExact(KillChild(k));
        ExactAfterChild(k, Kill(k));
      } else {
        FreeShrinks(k);
        KillExact(KillFree(k));
        ExactAfterFree(k, Kill(k));
      }
    } else if Get(k.q, Doomed) != [] {
      PopShrinks(k);
      KillExact(KillPop(k));
      ExactAfterPop(k, Kill(k));
    } else {
      QuietIsExact(k);
    }
  }

  lemma QuietIsExact(k: Kernel)
    requires Inv(k) && Quiet(k)
    ensures Exact(k, k)
  {
    forall x | IsPid(x) ensures !Lost(k, x) {
      NobodyLost(k, x);
    }
    assert LostSet(k) == {};
    forall pl ensures Keep(Get(k.q, pl), {}) == Get(k.q, pl) {
      KeepAll(Get(k.q, pl), {});
    }
  }

  lemma {:induction false} NobodyLost(k: Kernel, x: int)
    requires Inv(k) && Quiet(k) && IsPid(x)
    ensures !Lost(k, x)
    decreases k.birth[x]
  {
    Listed(k, x);
    if k.parent[x] != NULL {
      NobodyLost(k, k.parent[x]);
    }
  }

  // ---------------------------------------------------------------- from the current process

  /** Once the current process is doomed, the lost are the process itself and its descendants. */
  lemma {:induction false} LostIsUnder(k: Kernel, x: int)
    requires Inv(k) && Quiet(k) && Cur(k) != NULL && IsPid(x)
    ensures Inv(KillStart(k)) && (Lost(KillStart(k), x) <==> Under(k, Cur(k), x))
    decreases k.birth[x]
  {
    hide Linked, Placed, Count, Move;
    KillStartInv(k);
    Member(k, Running, Cur(k));
    Listed(k, x);
    if x != Cur(k) && k.parent[x] != NULL {
      ParentIsOlder(k, x);
      LostIsUnder(k, k.parent[x]);
    }
  }

  ghost function Descendants(k: Kernel, r: int): set<int>
    requires Core(k)
  {
    set x | 0 <= x < MAXPROC && Under(k, r, x)
  }

  /**
    SYS2 is exact: the current process and its descendants become free, everybody else stays where
    it was, every queue loses only the dead and keeps its order, the process count drops by the
    number of the dead, semaphores are refunded, and the tree only loses the dead subtree.
   */
  lemma LoopIsExact(k: Kernel)
    requires Inv(k) && Quiet(k) && Cur(k) != NULL
    ensures Inv(KillStart(k)) && Cur(KillStart(k)) == NULL
    ensures var k' := Kill(KillStart(k)); var dead := Descendants(k, Cur(k));
      && Cur(k) in dead
      && (forall x :: IsPid(x) ==> k'.place[x] == if x in dead then Free else k.place[x])
      && (forall pl: Place :: pl.Ready? || pl.Blocked? ==> Get(k'.q, pl) == Keep(Get(k.q, pl), dead))
      && k'.count == k.count - |dead|
      && Refunded(k, k')
      && (forall x :: IsPid(x) && x !in dead ==>
            && k'.parent[x] == k.parent[x]
            && k'.kids[x] == if x == k.parent[Cur(k)] then Remove(k.kids[x], Cur(k)) else k.kids[x])
      && k'.root == k.root && k'.status == k.status
  {
    hide Rooted, Linked, Placed, Count, Move, MoveTo, Lost, Named, Accounted, Kill;
    var k1 := KillStart(k);
    KillStartInv(k);
    Member(k, Running, Cur(k));
    forall x | IsPid(x) ensures Lost(k1, x) <==> Under(k, Cur(k), x) {
      LostIsUnder(k, x);
    }
    assert LostSet(k1) == Descendants(k, Cur(k));
    KillExact(k1);
    StartKeepsOthers(k);
  }

  lemma StartKeepsOthers(k: Kernel)
    requires Inv(k) && Quiet(k) && Cur(k) != NULL
    ensures IsPid(Cur(k))
    ensures var k1 := KillStart(k);
      && k1 == k.(q := k1.q, place := k1.place, parent := k1.parent, kids := k1.kids)
      && |k1.kids| == MAXPROC
      && (forall x :: IsPid(x) ==>
            k1.kids[x] == if x == k.parent[Cur(k)] then Remove(k.kids[x], Cur(k)) else k.kids[x])
  {
    Member(k, Running, Cur(k));
  }
}
