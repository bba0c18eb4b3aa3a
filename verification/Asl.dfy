/**
  phase1/asl.c: the active semaphore list, sorted by address between two dummy descriptors, and the
  list of free descriptors. It stands for the map from addresses to the queues of their waiters.
 */
module Asls {
  import opened Seqs
  import opened Layout
  import opened Places
  import opened KernelModel
  import opened Pcbs

  datatype Semd = Semd(s_next: int, s_semAdd: int, s_procQ: int)

  /** asl, with the two dummies at its ends, is the list from h in strictly ascending order. */
  ghost predicate Sorted(d: seq<Semd>, h: int, asl: seq<int>) {
    && |d| == MAXPROC + 2 && |asl| >= 2
    && asl[0] == h == MAXPROC && asl[|asl| - 1] == MAXPROC + 1
    && (forall i :: 0 <= i < |asl| ==> 0 <= asl[i] < |d|)
    && (forall i, j :: 0 <= i < |asl| && j == i + 1 < |asl| ==>
          d[asl[i]].s_next == asl[j] && d[asl[i]].s_semAdd < d[asl[j]].s_semAdd)
    && d[MAXPROC].s_semAdd == 0 && d[MAXPROC + 1].s_semAdd == MAXINT
  }

  ghost predicate Spare(d: seq<Semd>, h: int, free: seq<int>) {
    && h == Head(free)
    && (forall i :: 0 <= i < |free| ==> 0 <= free[i] < |d|)
    && (forall i, j :: 0 <= i < |free| && j == i + 1 < |free| ==> d[free[i]].s_next == free[j])
    && (free != [] ==> d[free[|free| - 1]].s_next == NULL)
  }

  /** Every descriptor is on exactly one of the two lists. */
  ghost predicate Apart(asl: seq<int>, free: seq<int>) {
    && |asl| + |free| == MAXPROC + 2
    && Distinct(free)
    && (forall i, j :: 0 <= i < |asl| && 0 <= j < |free| ==> asl[i] != free[j])
  }

  /** The descriptors between the dummies know the tails of the non-empty semaphore queues, all of them. */
  ghost predicate Mirrors(d: seq<Semd>, asl: seq<int>, q: Queues) {
    && (forall i :: 0 <= i < |asl| ==> 0 <= asl[i] < |d|)
    && (forall i :: 0 < i < |asl| - 1 ==>
          var s := Get(q, Blocked(d[asl[i]].s_semAdd));
          s != [] && d[asl[i]].s_procQ == Tail(s))
    && (forall a :: Get(q, Blocked(a)) != [] ==> HasKey(d, asl, a))
  }

  ghost predicate HasKey(d: seq<Semd>, asl: seq<int>, a: int)
    requires forall i :: 0 <= i < |asl| ==> 0 <= asl[i] < |d|
  {
    exists i :: 0 < i < |asl| - 1 && d[asl[i]].s_semAdd == a
  }

  /** A PCB that waits knows on what. */
  ghost predicate Tagged(t: seq<Pcb>, place: seq<Place>) {
    |t| == |place| && forall x :: 0 <= x < |t| && place[x].Blocked? ==> t[x].p_semAdd == place[x].address
  }

  /** t' differs from t in the queue links and in p_semAdd only. */
  ghost predicate SameButQueueing(t: seq<Pcb>, t': seq<Pcb>) {
    |t| == |t'| && forall i :: 0 <= i < |t| ==>
      t'[i] == t[i].(p_next := t'[i].p_next, p_prev := t'[i].p_prev, p_semAdd := t'[i].p_semAdd)
  }

  class Asl {
    const pcbs: PcbTable
    const sd: array<Semd>
    var semd_h: int
    var semdFree_h: int
    ghost var asl: seq<int>
    ghost var free: seq<int>

    ghost predicate Valid()
      reads this, sd, pcbs, pcbs.table
    {
      && pcbs.Valid()
      && Sorted(sd[..], semd_h, asl)
      && Spare(sd[..], semdFree_h, free)
      && Apart(asl, free)
      && Mirrors(sd[..], asl, pcbs.q)
      && Tagged(pcbs.table[..], pcbs.place)
    }

    /** initASL: nobody waits, every descriptor but the dummies is free. */
    constructor (pcbs: PcbTable)
      requires pcbs.Valid() && forall pl :: pl != Free ==> Get(pcbs.q, pl) == []
      ensures Valid() && this.pcbs == pcbs && fresh(sd)
    {
      this.pcbs := pcbs;
      sd := new Semd[MAXPROC + 2](i => Semd(NULL, 0, NULL));
      semdFree_h := NULL;
      semd_h := MAXPROC;
      new;
      hide PcbTable.Valid, Sorted, Spare, Apart, Mirrors, Tagged;
      LinkFree();
      sd[MAXPROC] := sd[MAXPROC].(s_semAdd := 0);
      sd[MAXPROC] := sd[MAXPROC].(s_next := MAXPROC + 1);
      sd[MAXPROC + 1] := sd[MAXPROC + 1].(s_semAdd := MAXINT);
      sd[MAXPROC + 1] := sd[MAXPROC + 1].(s_next := NULL);
      asl := [MAXPROC, MAXPROC + 1];
      free := seq(MAXPROC, i => MAXPROC - 1 - i);
      FreshAsl(sd[..], pcbs.q);
      NobodyTagged(pcbs.table[..], pcbs.q, pcbs.place);
    }

    /** The loop of initASL: every descriptor but the dummies is free. */
    method LinkFree()
      requires sd.Length == MAXPROC + 2 && semdFree_h == NULL
      modifies `semdFree_h, sd
      ensures semdFree_h == MAXPROC - 1 && forall p :: 0 <= p < MAXPROC ==> sd[p].s_next == p - 1
    {
      for i := 0 to MAXPROC
        invariant semdFree_h == i - 1
        invariant forall p :: 0 <= p < i ==> sd[p].s_next == p - 1
      {
        sd[i] := sd[i].(s_next := semdFree_h);
        semdFree_h := i;
      }
    }

    /** The active descriptor before that of address a; NULL if nobody waits on a. */
    method SearchPrev(a: int) returns (p: int, ghost i: nat)
      requires Valid() && IsSemAddress(a)
      ensures p == NULL <==> Get(pcbs.q, Blocked(a)) == []
      ensures p != NULL ==> i < |asl| - 2 && p == asl[i] && sd[asl[i + 1]].s_semAdd == a
    {
      hide PcbTable.Valid, Tagged, Sorted, Mirrors, Spare, Apart;
      p := semd_h;
      i := 0;
      SortedEnds(sd[..], semd_h, asl);
      SortedAt(sd[..], semd_h, asl, 0);
      while sd[sd[p].s_next].s_semAdd != MAXINT
        invariant i < |asl| - 1 && p == asl[i]
        invariant 0 <= p < sd.Length && 0 <= sd[p].s_next < sd.Length && sd[p].s_next == asl[i + 1]
        invariant sd[p].s_semAdd < a
        decreases |asl| - i
      {
        SortedAt(sd[..], semd_h, asl, i + 1);
        if sd[sd[p].s_next].s_semAdd == a {
          Present(sd[..], semd_h, asl, pcbs.q, i + 1);
          return;
        } else if sd[sd[p].s_next].s_semAdd > a {
          Absent(sd[..], semd_h, asl, pcbs.q, a, i);
          p := NULL;
          return;
        }
        p := sd[p].s_next;
        i := i + 1;
      }
      Absent(sd[..], semd_h, asl, pcbs.q, a, i);
      p := NULL;
    }

    /**
      The end of removeBlocked and outBlocked: the queue of descriptor k has this tail now, and if it
      is empty k goes from behind s to the free descriptors.
     */
    method Settle(s: int, k: int, tail: int, ghost i: nat, ghost q: Queues)
      requires pcbs.Valid() && Sorted(sd[..], semd_h, asl) && Spare(sd[..], semdFree_h, free) && Apart(asl, free)
      requires Mirrors(sd[..], asl, q) && i < |asl| - 2 && s == asl[i] && k == asl[i + 1]
      requires var a := sd[k].s_semAdd;
        && tail == Tail(Get(pcbs.q, Blocked(a)))
        && forall b :: b != a ==> Get(pcbs.q, Blocked(b)) == Get(q, Blocked(b))
      modifies this, sd
      ensures Sorted(sd[..], semd_h, asl) && Spare(sd[..], semdFree_h, free) && Apart(asl, free)
      ensures Mirrors(sd[..], asl, pcbs.q)
    {
      hide Sorted, Mirrors, Spare, Apart, Get, PcbTable.Valid;
      ghost var d := sd[..];
      SortedEnds(d, semd_h, asl);
      SortedAt(d, semd_h, asl, i);
      EmptyTail(pcbs, Blocked(sd[k].s_semAdd));
      sd[k] := sd[k].(s_procQ := tail);
      if sd[k].s_procQ == NULL {
        sd[s] := sd[s].(s_next := sd[k].s_next);
        sd[k] := sd[k].(s_next := semdFree_h);
        ghost var hf := semdFree_h;
        semdFree_h := k;
        sd[k] := sd[k].(s_semAdd := 0);
        DropSorted(d, sd[..], semd_h, asl, i);
        DropSpare(d, sd[..], hf, asl, free, i);
        DropMirrors(d, sd[..], semd_h, asl, q, pcbs.q, i);
        asl, free := Without(asl, i + 1), [k] + free;
      } else {
        KeepSorted(d, sd[..], semd_h, semdFree_h, asl, free);
        KeepMirrors(d, sd[..], semd_h, asl, q, pcbs.q, i);
      }
    }

    /** Takes the first who waits on a, or NULL; a descriptor without waiters becomes free. */
    method RemoveBlocked(a: int, ghost to: Place) returns (res: int)
      requires Valid() && IsSemAddress(a) && IsUnlinked(to)
      modifies this, sd, pcbs`q, pcbs`place, pcbs.table
      ensures Valid() && res == Head(old(Get(pcbs.q, Blocked(a))))
      ensures res == NULL ==>
        pcbs.q == old(pcbs.q) && pcbs.place == old(pcbs.place) && pcbs.table[..] == old(pcbs.table[..])
      ensures res != NULL ==>
        && IsPid(res) && pcbs.q == Move(old(pcbs.q), old(pcbs.place), res, to)
        && pcbs.place == old(pcbs.place)[res := to]
        && Untagged(old(pcbs.table[..]), pcbs.table[..], res)
    {
      hide PcbTable.Valid, Sorted, Mirrors, Spare, Apart, Tagged, Placed, Move, Get, Untagged;
      var s, i := SearchPrev(a);
      if s == NULL {
        return NULL;
      }
      SortedEnds(sd[..], semd_h, asl);
      SortedAt(sd[..], semd_h, asl, i);
      var k := sd[s].s_next;
      Present(sd[..], semd_h, asl, pcbs.q, i + 1);
      ghost var q, place, t := pcbs.q, pcbs.place, pcbs.table[..];
      TableSize(pcbs);
      var tail;
      tail, res := pcbs.RemoveProcQ(Blocked(a), sd[k].s_procQ, to);
      Leaving(q, place, a, res, to);
      Settle(s, k, tail, i, q);
      StillTagged(t, pcbs.table[..], place, pcbs.place, res);
      pcbs.SetSemAdd(res, 0);
    }

    /** Takes p, which waits, off the queue it waits on. */
    method OutBlocked(p: int, ghost to: Place) returns (res: int)
      requires Valid() && IsPid(p) && pcbs.place[p].Blocked? && IsUnlinked(to)
      requires IsSemAddress(pcbs.place[p].address)
      modifies this, sd, pcbs`q, pcbs`place, pcbs.table
      ensures Valid() && res == p
      ensures pcbs.q == Move(old(pcbs.q), old(pcbs.place), p, to) && pcbs.place == old(pcbs.place)[p := to]
      ensures Untagged(old(pcbs.table[..]), pcbs.table[..], p)
    {
      hide PcbTable.Valid, Sorted, Mirrors, Spare, Apart, Placed, Move, Get, Untagged;
      TableSize(pcbs);
      ghost var a := pcbs.place[p].address;
      InQueue(pcbs.q, pcbs.place, p);
      var prev, i := SearchPrev(pcbs.table[p].p_semAdd);
      SortedEnds(sd[..], semd_h, asl);
      SortedAt(sd[..], semd_h, asl, i);
      var s := sd[prev].s_next;
      Present(sd[..], semd_h, asl, pcbs.q, i + 1);
      ghost var q, place, t := pcbs.q, pcbs.place, pcbs.table[..];
      var tail;
      tail, res := pcbs.OutProcQ(Blocked(a), sd[s].s_procQ, p, to);
      Leaving(q, place, a, p, to);
      Settle(prev, s, tail, i, q);
      StillTagged(t, pcbs.table[..], place, pcbs.place, p);
      pcbs.SetSemAdd(res, 0);
    }

    /** The last descriptor below a, which nobody waits on, from the head of the list. */
    method Slide(a: int) returns (sliding: int, ghost i: nat)
      requires Sorted(sd[..], semd_h, asl) && Mirrors(sd[..], asl, pcbs.q) && IsSemAddress(a)
      requires Get(pcbs.q, Blocked(a)) == []
      ensures i < |asl| - 1 && sliding == asl[i] && 0 <= sliding < sd.Length && sd[sliding].s_next == asl[i + 1]
      ensures 0 <= asl[i + 1] < sd.Length && sd[sliding].s_semAdd < a < sd[asl[i + 1]].s_semAdd
    {
      hide Sorted, Mirrors;
      sliding := semd_h;
      i := 0;
      SortedEnds(sd[..], semd_h, asl);
      SortedAt(sd[..], semd_h, asl, 0);
      SortedAt(sd[..], semd_h, asl, 1);
      while sd[sd[sliding].s_next].s_semAdd < a
        invariant i < |asl| - 1 && sliding == asl[i]
        invariant 0 <= sliding < sd.Length && 0 <= sd[sliding].s_next < sd.Length && sd[sliding].s_next == asl[i + 1]
        invariant sd[sliding].s_semAdd < a
        decreases |asl| - i
      {
        SortedAt(sd[..], semd_h, asl, i + 1);
        sliding := sd[sliding].s_next;
        i := i + 1;
        SortedAt(sd[..], semd_h, asl, i + 1);
      }
      NotActive(sd[..], semd_h, asl, pcbs.q, a, i);
    }

    /**
      p, which is on no list, joins those who wait on a. True, and nothing done, if a needs a descriptor
      and all MAXPROC of them have waiters already.
     */
    method InsertBlocked(a: int, p: int) returns (full: bool)
      requires Valid() && IsSemAddress(a) && IsPid(p) && IsUnlinked(pcbs.place[p])
      modifies this, sd, pcbs`q, pcbs`place, pcbs.table
      ensures Valid()
      ensures full <==> old(Get(pcbs.q, Blocked(a)) == [] && |BlockedPlaces(pcbs.q)| >= MAXPROC)
      ensures full ==>
        pcbs.q == old(pcbs.q) && pcbs.place == old(pcbs.place) && pcbs.table[..] == old(pcbs.table[..])
      ensures !full ==>
        && pcbs.q == Move(old(pcbs.q), old(pcbs.place), p, Blocked(a))
        && pcbs.place == old(pcbs.place)[p := Blocked(a)]
        && TaggedWith(old(pcbs.table[..]), pcbs.table[..], p, a)
    {
      hide PcbTable.Valid, Sorted, Mirrors, Spare, Apart, Tagged, Placed, Move, Get, TaggedWith, BlockedPlaces;
      ghost var q, place, t, d := pcbs.q, pcbs.place, pcbs.table[..], sd[..];
      SortedEnds(d, semd_h, asl);
      TableSize(pcbs);
      ActiveCount(d, semd_h, asl, free, q, place);
      var prev, i := SearchPrev(a);
      var tmp := NULL;
      if prev != NULL {
        SortedAt(d, semd_h, asl, i);
        tmp := sd[prev].s_next;
        Present(d, semd_h, asl, q, i + 1);
      }
      if tmp != NULL {
        var tail := pcbs.InsertProcQ(Blocked(a), sd[tmp].s_procQ, p);
        Joining(q, place, a, p);
        sd[tmp] := sd[tmp].(s_procQ := tail);
        KeepSorted(d, sd[..], semd_h, semdFree_h, asl, free);
        KeepMirrors(d, sd[..], semd_h, asl, q, pcbs.q, i);
        NowTagged(t, pcbs.table[..], place, pcbs.place, p, a);
        pcbs.SetSemAdd(p, a);
        return false;
      }
      SpareAt(d, semdFree_h, asl, free);
      if semdFree_h == NULL {
        return true;
      }
      Enlist(a, p);
      full := false;
    }

    /** The part of insertBlocked that takes a free descriptor for a. */
    method Enlist(a: int, p: int)
      requires Valid() && IsSemAddress(a) && IsPid(p) && IsUnlinked(pcbs.place[p])
      requires Get(pcbs.q, Blocked(a)) == [] && semdFree_h != NULL
      modifies this, sd, pcbs`q, pcbs`place, pcbs.table
      ensures Valid() && pcbs.q == Move(old(pcbs.q), old(pcbs.place), p, Blocked(a))
      ensures pcbs.place == old(pcbs.place)[p := Blocked(a)]
      ensures TaggedWith(old(pcbs.table[..]), pcbs.table[..], p, a)
    {
      hide PcbTable.Valid, Sorted, Mirrors, Spare, Apart, Tagged, Placed, Move, Get, TaggedWith;
      ghost var q, place, t, d := pcbs.q, pcbs.place, pcbs.table[..], sd[..];
      SortedEnds(d, semd_h, asl);
      TableSize(pcbs);
      SpareAt(d, semdFree_h, asl, free);
      var tmp := semdFree_h;
      semdFree_h := sd[semdFree_h].s_next;
      var sliding, i := Slide(a);
      sd[tmp] := sd[tmp].(s_next := sd[sliding].s_next);
      sd[sliding] := sd[sliding].(s_next := tmp);
      sd[tmp] := sd[tmp].(s_semAdd := a);
      sd[tmp] := sd[tmp].(s_procQ := NULL);
      var tail := pcbs.InsertProcQ(Blocked(a), sd[tmp].s_procQ, p);
      sd[tmp] := sd[tmp].(s_procQ := tail);
      Joining(q, place, a, p);
      Inserted(d, sd[..], semd_h, asl, free, q, pcbs.q, i, a);
      asl, free := With(asl, i + 1, tmp), free[1..];
      NowTagged(t, pcbs.table[..], place, pcbs.place, p, a);
      pcbs.SetSemAdd(p, a);
    }

    /** The first who waits on a, who stays; NULL if nobody does. */
    method HeadBlocked(a: int) returns (p: int)
      requires Valid() && IsSemAddress(a)
      ensures p == Head(Get(pcbs.q, Blocked(a)))
    {
      hide PcbTable.Valid, Sorted, Mirrors, Spare, Apart, Tagged;
      var s, i := SearchPrev(a);
      if s == NULL {
        return NULL;
      }
      SortedEnds(sd[..], semd_h, asl);
      SortedAt(sd[..], semd_h, asl, i);
      Present(sd[..], semd_h, asl, pcbs.q, i + 1);
      p := pcbs.HeadProcQ(Blocked(a), sd[sd[s].s_next].s_procQ);
    }
  }

  lemma FreshAsl(d: seq<Semd>, q: Queues)
    requires |d| == MAXPROC + 2 && forall p :: 0 <= p < MAXPROC ==> d[p].s_next == p - 1
    requires d[MAXPROC].s_semAdd == 0 && d[MAXPROC].s_next == MAXPROC + 1 && d[MAXPROC + 1].s_semAdd == MAXINT
    requires forall a :: Get(q, Blocked(a)) == []
    ensures var asl := [MAXPROC, MAXPROC + 1]; var free := seq(MAXPROC, i => MAXPROC - 1 - i);
      && Sorted(d, MAXPROC, asl) && Mirrors(d, asl, q)
      && Spare(d, MAXPROC - 1, free) && Apart(asl, free)
  {}

  lemma SortedEnds(d: seq<Semd>, h: int, asl: seq<int>)
    requires Sorted(d, h, asl)
    ensures |asl| >= 2 && |d| == MAXPROC + 2
  {}

  /** Strictly ascending neighbours make a strictly ascending list. */
  lemma {:induction false} Ascending(d: seq<Semd>, h: int, asl: seq<int>, i: nat, j: nat)
    requires Sorted(d, h, asl) && i < j < |asl|
    ensures 0 <= asl[i] < |d| && 0 <= asl[j] < |d| && d[asl[i]].s_semAdd < d[asl[j]].s_semAdd
    decreases j - i
  {
    if i + 1 < j {
      Ascending(d, h, asl, i, j - 1);
      assert d[asl[j - 1]].s_semAdd < d[asl[j]].s_semAdd;
    } else {
      assert j == i + 1;
    }
  }

  lemma SortedAt(d: seq<Semd>, h: int, asl: seq<int>, i: nat)
    requires Sorted(d, h, asl) && i < |asl|
    ensures |d| == MAXPROC + 2 && 0 <= asl[i] < |d|
    ensures asl[0] == h && d[h].s_semAdd == 0 && Distinct(asl)
    ensures i + 1 < |asl| ==>
      0 <= asl[i + 1] < |d| && d[asl[i]].s_next == asl[i + 1] && asl[i] != asl[i + 1]
    ensures d[asl[i]].s_semAdd == MAXINT <==> i == |asl| - 1
  {
    Different(d, h, asl);
    if i < |asl| - 1 {
      Ascending(d, h, asl, i, |asl| - 1);
    }
  }

  lemma Present(d: seq<Semd>, h: int, asl: seq<int>, q: Queues, i: nat)
    requires Sorted(d, h, asl) && Mirrors(d, asl, q) && 0 < i < |asl| - 1
    ensures Get(q, Blocked(d[asl[i]].s_semAdd)) != []
    ensures d[asl[i]].s_procQ == Tail(Get(q, Blocked(d[asl[i]].s_semAdd)))
  {}

  /** An address that falls between two neighbours has no waiters. */
  lemma Absent(d: seq<Semd>, h: int, asl: seq<int>, q: Queues, a: int, i: nat)
    requires Sorted(d, h, asl) && Mirrors(d, asl, q) && i < |asl| - 1
    requires d[asl[i]].s_semAdd < a < d[asl[i + 1]].s_semAdd
    ensures Get(q, Blocked(a)) == []
  {
    forall j | 0 < j < |asl| - 1 ensures d[asl[j]].s_semAdd != a {
      if j < i {
        Ascending(d, h, asl, j, i);
      } else if j > i + 1 {
        Ascending(d, h, asl, i + 1, j);
      }
    }
  }

  lemma NobodyTagged(t: seq<Pcb>, q: Queues, place: seq<Place>)
    requires |t| == |place| && Placed(q, place) && forall pl :: pl != Free ==> Get(q, pl) == []
    ensures Tagged(t, place)
  {
    forall x | 0 <= x < |t| ensures !place[x].Blocked? {
      assert Lists(Get(q, place[x]), place, place[x]);
    }
  }

  /** x is off its queue and no longer tagged; nothing else but queue links changed. */
  ghost predicate Untagged(t: seq<Pcb>, t': seq<Pcb>, x: int) {
    && SameButQueueing(t, t')
    && forall y :: 0 <= y < |t| ==> t'[y].p_semAdd == if y == x then 0 else t[y].p_semAdd
  }

  function Without(s: seq<int>, i: nat): seq<int>
    requires i < |s|
  {
    s[..i] + s[i + 1..]
  }

  /** A queue is empty just when its tail pointer is NULL. */
  lemma EmptyTail(p: PcbTable, pl: Place)
    requires p.Valid()
    ensures Tail(Get(p.q, pl)) == NULL <==> Get(p.q, pl) == []
  {
    QueueMembers(p.q, p.place, pl);
  }

  lemma InQueue(q: Queues, place: seq<Place>, x: int)
    requires Placed(q, place) && 0 <= x < |place|
    ensures x in Get(q, place[x])
  {
    QueueMembers(q, place, place[x]);
  }

  function With(s: seq<int>, i: nat, x: int): seq<int>
    requires i <= |s|
  {
    s[..i] + [x] + s[i..]
  }

  lemma TableSize(p: PcbTable)
    requires p.Valid()
    ensures Placed(p.q, p.place) && |p.place| == |p.table[..]| == MAXPROC
  {}

  /** What the semaphore queues look like when x leaves that of a. */
  lemma Leaving(q: Queues, place: seq<Place>, a: int, x: int, to: Place)
    requires Placed(q, place) && x in Get(q, Blocked(a)) && IsUnlinked(to)
    ensures 0 <= x < |place| && place[x] == Blocked(a)
    ensures var q' := Move(q, place, x, to);
      && (forall b :: b != a ==> Get(q', Blocked(b)) == Get(q, Blocked(b)))
      && Get(q', Blocked(a)) == Remove(Get(q, Blocked(a)), x)
  {
    hide Move, Placed;
    QueueMembers(q, place, Blocked(a));
    forall b | b != a ensures Get(Move(q, place, x, to), Blocked(b)) == Get(q, Blocked(b)) {
      GetAfterMove(q, place, x, to, Blocked(b));
    }
    GetAfterMove(q, place, x, to, Blocked(a));
  }

  lemma StillTagged(t: seq<Pcb>, t': seq<Pcb>, place: seq<Place>, place': seq<Place>, x: int)
    requires Tagged(t, place) && SameButLinks(t, t') && 0 <= x < |place|
    requires |place'| == |place| && place' == place[x := place'[x]] && !place'[x].Blocked?
    ensures Tagged(t', place')
    ensures forall a :: Tagged(t'[x := t'[x].(p_semAdd := a)], place')
    ensures Untagged(t, t'[x := t'[x].(p_semAdd := 0)], x)
  {}

  lemma KeepSorted(d: seq<Semd>, d': seq<Semd>, h: int, hf: int, asl: seq<int>, free: seq<int>)
    requires Sorted(d, h, asl) && Spare(d, hf, free) && |d'| == |d|
    requires forall x :: 0 <= x < |d| ==> d'[x].s_next == d[x].s_next && d'[x].s_semAdd == d[x].s_semAdd
    ensures Sorted(d', h, asl) && Spare(d', hf, free)
  {}

  lemma KeepMirrors(d: seq<Semd>, d': seq<Semd>, h: int, asl: seq<int>, q: Queues, q': Queues, i: nat)
    requires Sorted(d, h, asl) && Mirrors(d, asl, q) && i < |asl| - 2 && |d'| == |d|
    requires var k := asl[i + 1]; var a := d[k].s_semAdd;
      && (forall b :: b != a ==> Get(q', Blocked(b)) == Get(q, Blocked(b)))
      && Get(q', Blocked(a)) != [] && d'[k] == d[k].(s_procQ := Tail(Get(q', Blocked(a))))
      && (forall x :: 0 <= x < |d| && x != k ==> d'[x] == d[x])
    ensures Mirrors(d', asl, q')
  {
    hide Sorted, Get, HasKey;
    SortedEnds(d, h, asl);
    OnlyOne(d, h, asl, i + 1);
    forall b | Get(q', Blocked(b)) != [] ensures HasKey(d', asl, b) {
      KeyAt(d, asl, i + 1);
      KeepKey(d, d', asl, b);
    }
  }

  lemma KeyAt(d: seq<Semd>, asl: seq<int>, i: nat)
    requires forall j :: 0 <= j < |asl| ==> 0 <= asl[j] < |d|
    requires 0 < i < |asl| - 1
    ensures HasKey(d, asl, d[asl[i]].s_semAdd)
  {}

  lemma KeepKey(d: seq<Semd>, d': seq<Semd>, asl: seq<int>, b: int)
    requires |d'| == |d| && forall j :: 0 <= j < |asl| ==> 0 <= asl[j] < |d|
    requires forall x :: 0 <= x < |d| ==> d'[x].s_semAdd == d[x].s_semAdd
    requires HasKey(d, asl, b)
    ensures HasKey(d', asl, b)
  {
    var m :| 0 < m < |asl| - 1 && d[asl[m]].s_semAdd == b;
    assert d'[asl[m]].s_semAdd == b;
  }

  lemma DropKey(d: seq<Semd>, d': seq<Semd>, asl: seq<int>, i: nat, b: int)
    requires |d'| == |d| && forall j :: 0 <= j < |asl| ==> 0 <= asl[j] < |d|
    requires i < |asl| - 2 && forall j :: 0 <= j < |asl| && j != i + 1 ==> asl[j] != asl[i + 1]
    requires forall x :: 0 <= x < |d| && x != asl[i + 1] ==> d'[x].s_semAdd == d[x].s_semAdd
    requires HasKey(d, asl, b) && b != d[asl[i + 1]].s_semAdd
    ensures HasKey(d', Without(asl, i + 1), b)
  {
    var asl' := Without(asl, i + 1);
    var m :| 0 < m < |asl| - 1 && d[asl[m]].s_semAdd == b;
    var j := if m <= i then m else m - 1;
    assert asl'[j] == asl[m] && d'[asl'[j]].s_semAdd == b;
  }

  lemma InsertKey(d: seq<Semd>, d': seq<Semd>, asl: seq<int>, i: nat, k: int, b: int)
    requires |d'| == |d| && 0 <= k < |d| && i < |asl| - 1
    requires forall j :: 0 <= j < |asl| ==> 0 <= asl[j] < |d| && asl[j] != k
    requires forall x :: 0 <= x < |d| && x != k ==> d'[x].s_semAdd == d[x].s_semAdd
    requires HasKey(d, asl, b)
    ensures HasKey(d', With(asl, i + 1, k), b)
  {
    var asl' := With(asl, i + 1, k);
    var m :| 0 < m < |asl| - 1 && d[asl[m]].s_semAdd == b;
    var j := if m <= i then m else m + 1;
    assert asl'[j] == asl[m] && d'[asl'[j]].s_semAdd == b;
  }

  lemma DropMirrors(d: seq<Semd>, d': seq<Semd>, h: int, asl: seq<int>, q: Queues, q': Queues, i: nat)
    requires Sorted(d, h, asl) && Mirrors(d, asl, q) && i < |asl| - 2 && |d'| == |d|
    requires var k := asl[i + 1]; var a := d[k].s_semAdd;
      && (forall b :: b != a ==> Get(q', Blocked(b)) == Get(q, Blocked(b)))
      && Get(q', Blocked(a)) == []
      && (forall x :: 0 <= x < |d| && x != k ==> d'[x] == d[x].(s_next := d'[x].s_next))
    ensures Mirrors(d', Without(asl, i + 1), q')
  {
    hide Sorted, Get, HasKey;
    var asl' := Without(asl, i + 1);
    SortedEnds(d, h, asl);
    OnlyOne(d, h, asl, i + 1);
    forall j | 0 < j < |asl'| - 1
      ensures var s := Get(q', Blocked(d'[asl'[j]].s_semAdd)); s != [] && d'[asl'[j]].s_procQ == Tail(s)
    {
      var m := if j <= i then j else j + 1;
      assert asl'[j] == asl[m] && asl[m] != asl[i + 1];
    }
    forall b | Get(q', Blocked(b)) != [] ensures HasKey(d', asl', b) {
      DropKey(d, d', asl, i, b);
    }
  }

  /** The list closes over the descriptor at i + 1. */
  lemma DropSorted(d: seq<Semd>, d': seq<Semd>, h: int, asl: seq<int>, i: nat)
    requires Sorted(d, h, asl) && i < |asl| - 2 && |d'| == |d|
    requires forall x :: 0 <= x < |d| && x != asl[i + 1] ==>
      && d'[x].s_next == (if x == asl[i] then d[asl[i + 1]].s_next else d[x].s_next)
      && d'[x].s_semAdd == d[x].s_semAdd
    ensures Sorted(d', h, Without(asl, i + 1))
  {
    var asl' := Without(asl, i + 1);
    Different(d, h, asl);
    forall m, n | 0 <= m < |asl'| && n == m + 1 < |asl'|
      ensures d'[asl'[m]].s_next == asl'[n] && d'[asl'[m]].s_semAdd < d'[asl'[n]].s_semAdd
    {
      if n <= i {
        assert asl'[m] == asl[m] && asl'[n] == asl[n];
      } else if n == i + 1 {
        assert asl'[m] == asl[i] && asl'[n] == asl[i + 2];
        Ascending(d, h, asl, i, i + 2);
      } else {
        assert asl'[m] == asl[n] && asl'[n] == asl[n + 1];
      }
    }
  }

  /** The descriptor at i + 1 becomes the first of the free ones. */
  lemma DropSpare(d: seq<Semd>, d': seq<Semd>, hf: int, asl: seq<int>, free: seq<int>, i: nat)
    requires Spare(d, hf, free) && Apart(asl, free) && i < |asl| - 2 && |d'| == |d| && Distinct(asl)
    requires 0 <= asl[i + 1] < |d| && d'[asl[i + 1]].s_next == hf
    requires forall x :: 0 <= x < |d| && x != asl[i + 1] && x != asl[i] ==> d'[x].s_next == d[x].s_next
    ensures Spare(d', asl[i + 1], [asl[i + 1]] + free)
    ensures Apart(Without(asl, i + 1), [asl[i + 1]] + free)
  {
    var free' := [asl[i + 1]] + free;
    forall m, n | 0 <= m < |free'| && n == m + 1 < |free'| ensures d'[free'[m]].s_next == free'[n] {
      if m > 0 {
        assert free'[m] == free[m - 1] && free'[n] == free[m];
      }
    }
  }

  /** The i-th descriptor and its address occur once. */
  lemma OnlyOne(d: seq<Semd>, h: int, asl: seq<int>, i: nat)
    requires Sorted(d, h, asl) && i < |asl|
    ensures forall m :: 0 <= m < |asl| ==>
      && 0 <= asl[m] < |d|
      && (m != i ==> asl[m] != asl[i] && d[asl[m]].s_semAdd != d[asl[i]].s_semAdd)
  {
    forall m | 0 <= m < |asl| && m != i ensures d[asl[m]].s_semAdd != d[asl[i]].s_semAdd {
      if m < i {
        Ascending(d, h, asl, m, i);
      } else {
        Ascending(d, h, asl, i, m);
      }
    }
  }

  lemma Different(d: seq<Semd>, h: int, asl: seq<int>)
    requires Sorted(d, h, asl)
    ensures Distinct(asl)
  {
    forall i, j | 0 <= i < j < |asl| ensures asl[i] != asl[j] {
      Ascending(d, h, asl, i, j);
    }
  }

  // ---------------------------------------------------------------- insertion

  /** p waits on a and knows it; nothing else but queue links changed. */
  ghost predicate TaggedWith(t: seq<Pcb>, t': seq<Pcb>, p: int, a: int) {
    && SameButQueueing(t, t')
    && forall y :: 0 <= y < |t| ==> t'[y].p_semAdd == if y == p then a else t[y].p_semAdd
  }

  lemma NowTagged(t: seq<Pcb>, t': seq<Pcb>, place: seq<Place>, place': seq<Place>, x: int, a: int)
    requires Tagged(t, place) && SameButLinks(t, t') && 0 <= x < |place| && place' == place[x := Blocked(a)]
    ensures Tagged(t'[x := t'[x].(p_semAdd := a)], place')
    ensures TaggedWith(t, t'[x := t'[x].(p_semAdd := a)], x, a)
  {}

  /** What the semaphore queues look like when x joins that of a. */
  lemma Joining(q: Queues, place: seq<Place>, a: int, x: int)
    requires Placed(q, place) && 0 <= x < |place| && IsUnlinked(place[x])
    ensures var q' := Move(q, place, x, Blocked(a));
      && (forall b :: b != a ==> Get(q', Blocked(b)) == Get(q, Blocked(b)))
      && Get(q', Blocked(a)) == Get(q, Blocked(a)) + [x]
  {
    hide Move, Placed;
    forall b | b != a ensures Get(Move(q, place, x, Blocked(a)), Blocked(b)) == Get(q, Blocked(b)) {
      GetAfterMove(q, place, x, Blocked(a), Blocked(b));
    }
    GetAfterMove(q, place, x, Blocked(a), Blocked(a));
  }

  lemma SpareAt(d: seq<Semd>, h: int, asl: seq<int>, free: seq<int>)
    requires Spare(d, h, free) && Apart(asl, free) && |d| == MAXPROC + 2
    ensures |asl| <= MAXPROC + 2 && (h == NULL <==> |asl| == MAXPROC + 2)
    ensures h != NULL ==> free != [] && h == free[0] && 0 <= h < |d| && forall i :: 0 <= i < |asl| ==> asl[i] != h
  {}

  /** The first free descriptor, put behind the i-th with address a and its queue's tail. */
  lemma Inserted(d: seq<Semd>, d': seq<Semd>, h: int, asl: seq<int>, free: seq<int>, q: Queues, q': Queues,
                 i: nat, a: int)
    requires Sorted(d, h, asl) && Mirrors(d, asl, q) && Apart(asl, free) && i < |asl| - 1 && |d'| == |d|
    requires free != [] && Spare(d, free[0], free)
    requires 0 <= asl[i] < |d| && 0 <= asl[i + 1] < |d| && d[asl[i]].s_semAdd < a < d[asl[i + 1]].s_semAdd
    requires 0 <= free[0] < |d| && d'[free[0]] == Semd(asl[i + 1], a, Tail(Get(q', Blocked(a))))
    requires forall x :: 0 <= x < |d| && x != free[0] ==>
      d'[x] == d[x].(s_next := if x == asl[i] then free[0] else d[x].s_next)
    requires Get(q, Blocked(a)) == [] && Get(q', Blocked(a)) != []
    requires forall b :: b != a ==> Get(q', Blocked(b)) == Get(q, Blocked(b))
    ensures var asl' := With(asl, i + 1, free[0]);
      && Sorted(d', h, asl') && Mirrors(d', asl', q')
      && Spare(d', d[free[0]].s_next, free[1..]) && Apart(asl', free[1..])
  {
    hide Sorted, Mirrors, Get, Spare;
    SortedEnds(d, h, asl);
    SpareAt(d, free[0], asl, free);
    InsertSorted(d, d', h, asl, i, free[0], a);
    TakeSpare(d, d', asl, free, i, asl[i]);
    InsertMirrors(d, d', h, asl, q, q', i, free[0], a);
  }

  lemma NotActive(d: seq<Semd>, h: int, asl: seq<int>, q: Queues, a: int, i: nat)
    requires Sorted(d, h, asl) && Mirrors(d, asl, q) && i < |asl| - 1 && Get(q, Blocked(a)) == []
    requires d[asl[i]].s_semAdd < a <= d[asl[i + 1]].s_semAdd && a < MAXINT
    ensures a < d[asl[i + 1]].s_semAdd
  {
    if d[asl[i + 1]].s_semAdd == a {
      Present(d, h, asl, q, i + 1);
      assert false;
    }
  }

  lemma InsertedLink(d: seq<Semd>, d': seq<Semd>, h: int, asl: seq<int>, i: nat, k: int, a: int, m: nat)
    requires Sorted(d, h, asl) && i < |asl| - 1 && |d'| == |d| && 0 <= k < |d|
    requires forall j :: 0 <= j < |asl| ==> asl[j] != k
    requires d[asl[i]].s_semAdd < a < d[asl[i + 1]].s_semAdd
    requires d'[k].s_next == asl[i + 1] && d'[k].s_semAdd == a
    requires forall x :: 0 <= x < |d| && x != k ==>
      && d'[x].s_next == (if x == asl[i] then k else d[x].s_next)
      && d'[x].s_semAdd == d[x].s_semAdd
    requires m < |asl|
    ensures var asl' := With(asl, i + 1, k);
      && |asl'| == |asl| + 1 && 0 <= asl'[m] < |d'| && 0 <= asl'[m + 1] < |d'|
      && d'[asl'[m]].s_next == asl'[m + 1] && d'[asl'[m]].s_semAdd < d'[asl'[m + 1]].s_semAdd
  {
    hide With;
    WithAt(asl, i + 1, k, m);
    WithAt(asl, i + 1, k, m + 1);
    Different(d, h, asl);
    if m < i {
      assert asl[m] != asl[i];
    } else if m > i + 1 {
      assert asl[m - 1] != asl[i];
    }
  }

  lemma InsertSorted(d: seq<Semd>, d': seq<Semd>, h: int, asl: seq<int>, i: nat, k: int, a: int)
    requires Sorted(d, h, asl) && i < |asl| - 1 && |d'| == |d| && 0 <= k < |d|
    requires forall j :: 0 <= j < |asl| ==> asl[j] != k
    requires d[asl[i]].s_semAdd < a < d[asl[i + 1]].s_semAdd
    requires d'[k].s_next == asl[i + 1] && d'[k].s_semAdd == a
    requires forall x :: 0 <= x < |d| && x != k ==>
      && d'[x].s_next == (if x == asl[i] then k else d[x].s_next)
      && d'[x].s_semAdd == d[x].s_semAdd
    ensures Sorted(d', h, With(asl, i + 1, k))
  {
    hide With;
    var asl' := With(asl, i + 1, k);
    WithAt(asl, i + 1, k, 0);
    WithAt(asl, i + 1, k, |asl|);
    forall m, n | 0 <= m < |asl'| && n == m + 1 < |asl'|
      ensures 0 <= asl'[m] < |d'| && 0 <= asl'[n] < |d'|
      ensures d'[asl'[m]].s_next == asl'[n] && d'[asl'[m]].s_semAdd < d'[asl'[n]].s_semAdd
    {
      InsertedLink(d, d', h, asl, i, k, a, m);
    }
    forall m | 0 <= m < |asl'| ensures 0 <= asl'[m] < |d'| {
      WithAt(asl, i + 1, k, m);
    }
  }

  lemma WithAt(s: seq<int>, i: nat, x: int, m: nat)
    requires i <= |s| && m <= |s|
    ensures |With(s, i, x)| == |s| + 1
    ensures With(s, i, x)[m] == if m < i then s[m] else if m == i then x else s[m - 1]
  {}

  lemma TakeSpare(d: seq<Semd>, d': seq<Semd>, asl: seq<int>, free: seq<int>, i: nat, s: int)
    requires free != [] && Spare(d, free[0], free) && Apart(asl, free) && i < |asl| - 1 && s == asl[i] && |d'| == |d|
    requires forall x :: 0 <= x < |d| && x != free[0] && x != s ==> d'[x].s_next == d[x].s_next
    ensures 0 <= free[0] < |d|
    ensures Spare(d', d[free[0]].s_next, free[1..])
    ensures Apart(With(asl, i + 1, free[0]), free[1..])
  {
    var free' := free[1..];
    forall m, n | 0 <= m < |free'| && n == m + 1 < |free'| ensures d'[free'[m]].s_next == free'[n] {
      assert free'[m] == free[n] && free'[n] == free[n + 1] && free[n] != free[0];
    }
  }

  lemma InsertMirrors(d: seq<Semd>, d': seq<Semd>, h: int, asl: seq<int>, q: Queues, q': Queues, i: nat, k: int, a: int)
    requires Sorted(d, h, asl) && Mirrors(d, asl, q) && i < |asl| - 1 && |d'| == |d| && 0 <= k < |d|
    requires forall j :: 0 <= j < |asl| ==> asl[j] != k
    requires Get(q, Blocked(a)) == [] && Get(q', Blocked(a)) != []
    requires forall b :: b != a ==> Get(q', Blocked(b)) == Get(q, Blocked(b))
    requires d'[k].s_semAdd == a && d'[k].s_procQ == Tail(Get(q', Blocked(a)))
    requires forall x :: 0 <= x < |d| && x != k ==> d'[x] == d[x].(s_next := d'[x].s_next)
    ensures Mirrors(d', With(asl, i + 1, k), q')
  {
    hide Sorted, Get, HasKey;
    var asl' := With(asl, i + 1, k);
    SortedEnds(d, h, asl);
    forall j | 0 < j < |asl'| - 1
      ensures var s := Get(q', Blocked(d'[asl'[j]].s_semAdd)); s != [] && d'[asl'[j]].s_procQ == Tail(s)
    {
      if j != i + 1 {
        OldTail(d, d', asl, q, q', k, a, if j <= i then j else j - 1);
      }
    }
    forall b | Get(q', Blocked(b)) != [] ensures HasKey(d', asl', b) {
      if b == a {
        assert asl'[i + 1] == k;
        KeyAt(d', asl', i + 1);
      } else {
        InsertKey(d, d', asl, i, k, b);
      }
    }
  }

  lemma OldTail(d: seq<Semd>, d': seq<Semd>, asl: seq<int>, q: Queues, q': Queues, k: int, a: int, m: int)
    requires Mirrors(d, asl, q) && 0 < m < |asl| - 1 && |d'| == |d| && asl[m] != k && Get(q, Blocked(a)) == []
    requires forall b :: b != a ==> Get(q', Blocked(b)) == Get(q, Blocked(b))
    requires forall x :: 0 <= x < |d| && x != k ==> d'[x] == d[x].(s_next := d'[x].s_next)
    ensures 0 <= asl[m] < |d'|
    ensures var s := Get(q', Blocked(d'[asl[m]].s_semAdd)); s != [] && d'[asl[m]].s_procQ == Tail(s)
  {}

  /** There are as many semaphores with waiters as descriptors between the dummies. */
  lemma ActiveCount(d: seq<Semd>, h: int, asl: seq<int>, free: seq<int>, q: Queues, place: seq<Place>)
    requires Sorted(d, h, asl) && Mirrors(d, asl, q) && Placed(q, place)
    ensures |BlockedPlaces(q)| == |asl| - 2
  {
    SortedEnds(d, h, asl);
    var n := |asl| - 1;
    ActivePlaces(d, h, asl, n);
    assert Upto(d, asl, n) == BlockedPlaces(q) by {
      forall pl ensures pl in Upto(d, asl, n) <==> pl in BlockedPlaces(q) {
        if pl in Upto(d, asl, n) {
          var i :| 0 < i < n && pl == Blocked(d[asl[i]].s_semAdd);
          assert Get(q, pl) != [];
        }
        if pl in BlockedPlaces(q) {
          assert Get(q, Blocked(pl.address)) != [];
        }
      }
    }
  }

  ghost function Upto(d: seq<Semd>, asl: seq<int>, n: nat): set<Place>
    requires n <= |asl| && forall i :: 0 <= i < |asl| ==> 0 <= asl[i] < |d|
  {
    set i | 0 < i < n :: Blocked(d[asl[i]].s_semAdd)
  }

  lemma {:induction false} ActivePlaces(d: seq<Semd>, h: int, asl: seq<int>, n: nat)
    requires Sorted(d, h, asl) && 0 < n < |asl|
    ensures |Upto(d, asl, n)| == n - 1
  {
    if n == 1 {
      assert Upto(d, asl, n) == {};
    } else {
      ActivePlaces(d, h, asl, n - 1);
      var last := Blocked(d[asl[n - 1]].s_semAdd);
      assert last !in Upto(d, asl, n - 1) by {
        forall i | 0 < i < n - 1 ensures d[asl[i]].s_semAdd != d[asl[n - 1]].s_semAdd {
          Ascending(d, h, asl, i, n - 1);
        }
      }
      assert Upto(d, asl, n) == Upto(d, asl, n - 1) + {last};
    }
  }
}
