/**
  phase1/pcb.c: the static table of process control blocks, threaded by index into the free list,
  the circular queues (known by their tail) and the process tree.
 */
module Pcbs {
  import opened Seqs
  import opened Layout
  import opened Places
  import opened KernelModel
  import opened KernelSafety

  datatype Pcb = Pcb(
    p_next: int, p_prev: int,
    p_prnt: int, p_child: int, p_next_sib: int, p_prev_sib: int,
    p_semAdd: int,   // 0 is the null address
    p_time: int,
    reg_v0: int)

  const BLANK := Pcb(NULL, NULL, NULL, NULL, NULL, NULL, 0, 0, 0)

  // ---------------------------------------------------------------- what the links mean

  /** s, head first, is the circular doubly linked queue its members form. */
  ghost predicate Circular(t: seq<Pcb>, s: seq<int>) {
    && (forall i :: 0 <= i < |s| ==> 0 <= s[i] < |t|)
    && (forall i, j :: 0 <= i < |s| && j == i + 1 < |s| ==> t[s[i]].p_next == s[j] && t[s[j]].p_prev == s[i])
    && (s != [] ==> t[s[|s| - 1]].p_next == s[0] && t[s[0]].p_prev == s[|s| - 1])
  }

  /** s is the list that starts at h and follows p_next. */
  ghost predicate Stack(t: seq<Pcb>, h: int, s: seq<int>) {
    && h == Head(s)
    && (forall i :: 0 <= i < |s| ==> 0 <= s[i] < |t|)
    && (forall i, j :: 0 <= i < |s| && j == i + 1 < |s| ==> t[s[i]].p_next == s[j])
    && (s != [] ==> t[s[|s| - 1]].p_next == NULL)
  }

  /** The sibling list of p. */
  ghost predicate Siblings(t: seq<Pcb>, p: int, s: seq<int>)
    requires 0 <= p < |t|
  {
    && t[p].p_child == Head(s)
    && (forall i :: 0 <= i < |s| ==> 0 <= s[i] < |t|)
    && (forall i, j :: 0 <= i < |s| && j == i + 1 < |s| ==>
          t[s[i]].p_next_sib == s[j] && t[s[j]].p_prev_sib == s[i])
    && (s != [] ==> t[s[0]].p_prev_sib == NULL && t[s[|s| - 1]].p_next_sib == NULL)
  }

  ghost predicate Tree(t: seq<Pcb>, parent: seq<int>, kids: seq<seq<int>>) {
    && |t| == |parent| == |kids|
    && Linked(parent, kids)
    && (forall c :: 0 <= c < |t| ==> t[c].p_prnt == parent[c])
    && (forall p :: 0 <= p < |t| ==> Siblings(t, p, kids[p]))
    && (forall c :: 0 <= c < |t| && parent[c] == NULL ==> t[c].p_next_sib == NULL && t[c].p_prev_sib == NULL)
  }

  ghost predicate Threaded(t: seq<Pcb>, h: int, q: Queues) {
    && (forall pl :: IsQueue(pl) ==> Circular(t, Get(q, pl)))
    && Stack(t, h, Get(q, Free))
  }

  /** t' differs from t in the queue links only. */
  ghost predicate SameButLinks(t: seq<Pcb>, t': seq<Pcb>) {
    |t| == |t'| && forall i :: 0 <= i < |t| ==> t'[i] == t[i].(p_next := t'[i].p_next, p_prev := t'[i].p_prev)
  }

  /** t' differs from t in the links of the tree only. */
  ghost predicate SameButTree(t: seq<Pcb>, t': seq<Pcb>) {
    |t| == |t'| && forall i :: 0 <= i < |t| ==>
      t'[i] == t[i].(p_prnt := t'[i].p_prnt, p_child := t'[i].p_child,
                     p_next_sib := t'[i].p_next_sib, p_prev_sib := t'[i].p_prev_sib)
  }

  // ---------------------------------------------------------------- lists under updates

  lemma CircularAppend(t: seq<Pcb>, t': seq<Pcb>, s: seq<int>, p: int)
    requires Circular(t, s) && 0 <= p < |t| && |t'| == |t| && Distinct(s) && p !in s
    requires s == [] ==> t'[p].p_next == p && t'[p].p_prev == p
    requires s != [] ==>
      && t'[p].p_next == s[0] && t'[p].p_prev == Tail(s)
      && t'[s[0]].p_prev == p && t'[Tail(s)].p_next == p
    requires forall i :: 0 <= i < |s| ==>
      && (i < |s| - 1 ==> t'[s[i]].p_next == t[s[i]].p_next)
      && (i > 0 ==> t'[s[i]].p_prev == t[s[i]].p_prev)
    ensures Circular(t', s + [p])
  {
    var s' := s + [p];
  }

  /** Unlinking the i-th element leaves the circle of the others. */
  lemma CircularRemove(t: seq<Pcb>, t': seq<Pcb>, s: seq<int>, i: nat)
    requires Circular(t, s) && i < |s| && Distinct(s) && |s| > 1 && |t'| == |t|
    requires var before := if i > 0 then s[i - 1] else s[|s| - 1]; var after := if i + 1 < |s| then s[i + 1] else s[0];
      && t'[before].p_next == after && t'[after].p_prev == before
      && (forall j :: 0 <= j < |s| && j != i ==>
            && (s[j] != before ==> t'[s[j]].p_next == t[s[j]].p_next)
            && (s[j] != after ==> t'[s[j]].p_prev == t[s[j]].p_prev))
    ensures Circular(t', s[..i] + s[i + 1..])
  {
    var s' := s[..i] + s[i + 1..];
    forall j, m | 0 <= j < |s'| && m == j + 1 < |s'|
      ensures t'[s'[j]].p_next == s'[m] && t'[s'[m]].p_prev == s'[j]
    {
      var last := |s| - 1;
      if j + 1 < i {
        assert s[j + 1] == s'[j + 1];
        assert s[j] != s[i - 1] && s[j + 1] != s[0] && (i < last ==> s[j + 1] != s[i + 1]);
      } else if j + 1 > i {
        assert s[j + 1] == s'[j] && s[(j + 1) + 1] == s'[j + 1];
        assert s[j + 1] != s[last] && (i > 0 ==> s[j + 1] != s[i - 1]) && s[j + 2] != s[i + 1];
      }
    }
  }

  lemma CircularFrame(t: seq<Pcb>, t': seq<Pcb>, s: seq<int>)
    requires Circular(t, s) && |t'| == |t|
    requires forall i :: 0 <= i < |s| ==> t'[s[i]].p_next == t[s[i]].p_next && t'[s[i]].p_prev == t[s[i]].p_prev
    ensures Circular(t', s)
  {}

  lemma QueueMembers(q: Queues, place: seq<Place>, pl: Place)
    requires Placed(q, place)
    ensures var s := Get(q, pl);
      && Distinct(s)
      && (forall i :: 0 <= i < |s| ==> 0 <= s[i] < |place| && place[s[i]] == pl)
      && (forall x :: x in s <==> 0 <= x < |place| && place[x] == pl)
  {
    var s := Get(q, pl);
    assert Lists(s, place, pl);
    forall i | 0 <= i < |s| ensures 0 <= s[i] < |place| && place[s[i]] == pl {
      assert s[i] in s;
    }
  }

  /** Where the two ends of a queue point. */
  lemma QueueEnds(t: seq<Pcb>, h: int, q: Queues, place: seq<Place>, pl: Place)
    requires Placed(q, place) && Threaded(t, h, q) && IsQueue(pl) && |t| == |place|
    ensures var s := Get(q, pl); s != [] ==>
      && 0 <= Tail(s) < |t| && 0 <= Head(s) < |t|
      && place[Tail(s)] == pl && place[Head(s)] == pl
      && t[Tail(s)].p_next == Head(s) && t[Head(s)].p_prev == Tail(s)
  {
    QueueMembers(q, place, pl);
    assert Circular(t, Get(q, pl));
  }

  lemma StackFrame(t: seq<Pcb>, t': seq<Pcb>, h: int, s: seq<int>)
    requires Stack(t, h, s) && |t'| == |t|
    requires forall i :: 0 <= i < |s| ==> t'[s[i]].p_next == t[s[i]].p_next
    ensures Stack(t', h, s)
  {}

  lemma StackPush(t: seq<Pcb>, t': seq<Pcb>, h: int, s: seq<int>, p: int)
    requires Stack(t, h, s) && |t'| == |t| && 0 <= p < |t| && t'[p].p_next == h
    requires forall i :: 0 <= i < |s| ==> t'[s[i]].p_next == t[s[i]].p_next
    ensures Stack(t', p, [p] + s)
  {
    var s' := [p] + s;
    forall i, j | 0 <= i < |s'| && j == i + 1 < |s'| ensures t'[s'[i]].p_next == s'[j] {
      if i > 0 {
        assert s'[i] == s[i - 1] && s'[j] == s[i];
      }
    }
  }

  lemma StackPop(t: seq<Pcb>, t': seq<Pcb>, s: seq<int>)
    requires s != [] && Stack(t, s[0], s) && Distinct(s) && |t'| == |t| && t' == t[s[0] := t'[s[0]]]
    ensures Stack(t', t[s[0]].p_next, s[1..])
  {
    var s' := s[1..];
    forall i, j | 0 <= i < |s'| && j == i + 1 < |s'| ensures t'[s'[i]].p_next == s'[j] {
      assert s'[i] == s[j] && s'[j] == s[j + 1] && s[j] != s[0];
    }
  }

  /** A change to the links of PCBs that are at pl, or on no list, leaves every other list as it was. */
  lemma OthersThreaded(t: seq<Pcb>, t': seq<Pcb>, h: int, q: Queues, q': Queues, place: seq<Place>, pl: Place)
    requires Placed(q, place) && Threaded(t, h, q) && |t'| == |t| == |place|
    requires forall x :: 0 <= x < |t| && place[x] != pl && !IsUnlinked(place[x]) ==>
      t'[x].p_next == t[x].p_next && t'[x].p_prev == t[x].p_prev
    requires forall other :: other != pl && !IsUnlinked(other) ==> Get(q', other) == Get(q, other)
    ensures forall other :: IsQueue(other) && other != pl ==> Circular(t', Get(q', other))
    ensures pl != Free ==> Stack(t', h, Get(q', Free))
  {
    hide Placed, Circular, Stack;
    if pl != Free {
      QueueMembers(q, place, Free);
      StackFrame(t, t', h, Get(q, Free));
    }
    forall other | IsQueue(other) && other != pl ensures Circular(t', Get(q', other)) {
      QueueMembers(q, place, other);
      CircularFrame(t, t', Get(q, other));
    }
  }

  lemma TreeFrame(t: seq<Pcb>, t': seq<Pcb>, parent: seq<int>, kids: seq<seq<int>>)
    requires Tree(t, parent, kids) && SameButLinks(t, t')
    ensures Tree(t', parent, kids)
  {
    forall p | 0 <= p < |t| ensures Siblings(t', p, kids[p]) {
      assert Siblings(t, p, kids[p]);
    }
  }

  // ---------------------------------------------------------------- the table

  class PcbTable {
    const table: array<Pcb>
    var pcbFree_h: int
    ghost var q: Queues
    ghost var place: seq<Place>
    ghost var parent: seq<int>
    ghost var kids: seq<seq<int>>

    ghost predicate Valid()
      reads this, table
    {
      && table.Length == MAXPROC == |place| == |parent| == |kids|
      && Placed(q, place)
      && Threaded(table[..], pcbFree_h, q)
      && Tree(table[..], parent, kids)
      && (forall x :: IsPid(x) && place[x].Free? ==> parent[x] == NULL && kids[x] == [])
    }

    /** initPcbs: every PCB goes on the free list, the last of the table first. */
    constructor ()
      ensures Valid() && fresh(table)
      ensures q == Put(map[], Free, seq(MAXPROC, i => MAXPROC - 1 - i)) && place == seq(MAXPROC, i => Free)
      ensures parent == Nulls() && kids == Kidless()
      ensures forall p :: IsPid(p) ==> table[p].p_semAdd == 0 && table[p].p_time == 0 && table[p].reg_v0 == 0
    {
      table := new Pcb[MAXPROC](i => BLANK);
      pcbFree_h := NULL;
      new;
      for i := 0 to MAXPROC
        invariant table.Length == MAXPROC && pcbFree_h == i - 1
        invariant forall p :: 0 <= p < i ==> table[p] == BLANK.(p_next := p - 1)
        invariant forall p :: i <= p < MAXPROC ==> table[p] == BLANK
      {
        table[i] := table[i].(p_next := pcbFree_h);
        pcbFree_h := i;
      }
      q := Put(map[], Free, seq(MAXPROC, i => MAXPROC - 1 - i));
      place := seq(MAXPROC, i => Free);
      parent := Nulls();
      kids := Kidless();
      FreshTable(table[..], pcbFree_h, q, place, parent, kids);
    }

    /** Appends p, which is on no list, to the queue with this tail. */
    method InsertProcQ(ghost pl: Place, tp: int, p: int) returns (tp': int)
      requires Valid() && IsQueue(pl) && tp == Tail(Get(q, pl)) && IsPid(p) && IsUnlinked(place[p])
      modifies this`q, this`place, table
      ensures Valid() && q == Move(old(q), old(place), p, pl) && place == old(place)[p := pl]
      ensures tp' == Tail(Get(q, pl))
      ensures SameButLinks(old(table[..]), table[..])
    {
      hide Placed, Threaded, Tree, Move, Get;
      ghost var t := table[..];
      QueueEnds(t, pcbFree_h, q, place, pl);
      LinkBehind(tp, p);
      tp' := p;
      ghost var q', place' := Move(q, place, p, pl), place[p := pl];
      AppendThreaded(t, table[..], pcbFree_h, q, place, pl, p);
      q, place := q', place';
      TreeFrame(t, table[..], parent, kids);
    }

    /** The part of insertProcQ that rewrites the links, for an empty queue and for any other. */
    method LinkBehind(tp: int, p: int)
      requires 0 <= p < table.Length && NULL <= tp < table.Length
      requires tp != NULL ==> tp != p && 0 <= table[tp].p_next < table.Length && table[tp].p_next != p
      modifies table
      ensures var head := if tp == NULL then p else old(table[tp].p_next); var tail := if tp == NULL then p else tp;
        forall x :: 0 <= x < table.Length ==>
          table[x] == old(table[x]).(p_next := if x == p then head else if x == tail then p else old(table[x]).p_next,
                                     p_prev := if x == p then tail else if x == head then p else old(table[x]).p_prev)
    {
      if tp == NULL {
        table[p] := table[p].(p_prev := p);
        table[p] := table[p].(p_next := p);
      } else {
        table[p] := table[p].(p_next := table[tp].p_next);
        var head := table[tp].p_next;
        table[head] := table[head].(p_prev := p);
        table[tp] := table[tp].(p_next := p);
        table[p] := table[p].(p_prev := tp);
      }
    }

    /** Unlinks p from its queue; tells whether p was alone in it. */
    method Unlink(ghost pl: Place, p: int, ghost to: Place) returns (alone: bool)
      requires Valid() && IsQueue(pl) && IsPid(p) && place[p] == pl && IsUnlinked(to)
      modifies this`q, this`place, table
      ensures Valid() && q == Move(old(q), old(place), p, to) && place == old(place)[p := to]
      ensures alone <==> |old(Get(q, pl))| == 1
      ensures SameButLinks(old(table[..]), table[..])
    {
      hide Placed, Threaded, Tree, Move, Get;
      ghost var t, s := table[..], Get(q, pl);
      ghost var i := IndexIn(q, place, pl, p);
      QueueNeighbours(t, pcbFree_h, q, place, pl, i);
      if table[p].p_next == p {
        table[p] := table[p].(p_next := NULL);
        table[p] := table[p].(p_prev := NULL);
        alone := true;
      } else {
        var after, before := table[p].p_next, table[p].p_prev;
        table[after] := table[after].(p_prev := table[p].p_prev);
        table[before] := table[before].(p_next := table[p].p_next);
        table[p] := table[p].(p_next := NULL);
        table[p] := table[p].(p_prev := NULL);
        alone := false;
      }
      RemoveThreaded(t, table[..], pcbFree_h, q, place, pl, i, to);
      q, place := Move(q, place, p, to), place[p := to];
      TreeFrame(t, table[..], parent, kids);
    }

    /** Takes the head of the queue with this tail, or NULL if the queue is empty. */
    method RemoveProcQ(ghost pl: Place, tp: int, ghost to: Place) returns (tp': int, p: int)
      requires Valid() && IsQueue(pl) && tp == Tail(Get(q, pl)) && IsUnlinked(to)
      modifies this`q, this`place, table
      ensures Valid()
      ensures p == Head(old(Get(q, pl))) && tp' == Tail(Get(q, pl))
      ensures p == NULL ==> q == old(q) && place == old(place) && table[..] == old(table[..])
      ensures p != NULL ==> IsPid(p) && q == Move(old(q), old(place), p, to) && place == old(place)[p := to]
      ensures Get(q, pl) == if old(Get(q, pl)) == [] then [] else old(Get(q, pl))[1..]
      ensures SameButLinks(old(table[..]), table[..])
    {
      hide Placed, Threaded, Tree, Move;
      QueueEnds(table[..], pcbFree_h, q, place, pl);
      if tp == NULL {
        return tp, NULL;
      }
      p := table[tp].p_next;
      GetAfterMove(q, place, p, to, pl);
      var alone := Unlink(pl, p, to);
      tp' := if alone then NULL else tp;
    }

    /** Takes p out of the queue with this tail, wherever it stands; NULL and no change if it is not there. */
    method OutProcQ(ghost pl: Place, tp: int, p: int, ghost to: Place) returns (tp': int, res: int)
      requires Valid() && IsQueue(pl) && tp == Tail(Get(q, pl)) && IsPid(p) && IsUnlinked(to)
      modifies this`q, this`place, table
      ensures Valid() && tp' == Tail(Get(q, pl))
      ensures old(place)[p] != pl ==>
        res == NULL && q == old(q) && place == old(place) && table[..] == old(table[..])
      ensures old(place)[p] == pl ==>
        && res == p && q == Move(old(q), old(place), p, to) && place == old(place)[p := to]
        && Get(q, pl) == Remove(old(Get(q, pl)), p)
      ensures SameButLinks(old(table[..]), table[..])
    {
      hide Placed, Threaded, Tree, Move;
      ghost var s := Get(q, pl);
      QueueMembers(q, place, pl);
      if tp == NULL {
        return tp, NULL;
      }
      QueueEnds(table[..], pcbFree_h, q, place, pl);
      QueueNeighbours(table[..], pcbFree_h, q, place, pl, |s| - 1);
      var k, target := table[tp].p_next, NULL;
      tp' := tp;
      if p == tp {
        target := tp;
        tp' := table[tp].p_prev;
      }
      ghost var n := 0;
      while target == NULL && k != tp'
        invariant 0 <= n < |s|
        invariant target == NULL ==> tp' == tp && k == s[n] && p != tp && forall i :: 0 <= i < n ==> s[i] != p
        modifies {}
        invariant Valid() && q == old(q) && place == old(place) && table[..] == old(table[..])
        invariant target != NULL ==> target == p && place[p] == pl
        invariant target != NULL ==> tp' == if p == tp then Before(s, |s| - 1) else tp
        decreases target == NULL, |s| - n
      {
        if k == p {
          target := k;
        }
        QueueNeighbours(table[..], pcbFree_h, q, place, pl, n);
        assert s[n] != s[|s| - 1];
        k := table[k].p_next;
        n := if target == NULL then n + 1 else n;
      }
      if target == NULL {
        assert p !in s;
        return tp', NULL;
      }
      res := target;
      GetAfterMove(q, place, p, to, pl);
      RemoveTail(s, p);
      var alone := Unlink(pl, target, to);
      if alone {
        tp' := NULL;
      }
    }

    /** The head of the queue with this tail, which stays; NULL if the queue is empty. */
    method HeadProcQ(ghost pl: Place, tp: int) returns (p: int)
      requires Valid() && IsQueue(pl) && tp == Tail(Get(q, pl))
      ensures p == Head(Get(q, pl))
    {
      QueueEnds(table[..], pcbFree_h, q, place, pl);
      p := if tp == NULL then NULL else table[tp].p_next;
    }

    // -------------------------------------------------------------- free list

    /** Takes a PCB off the free list and blanks it; NULL if there is none. */
    method AllocPcb(ghost to: Place) returns (p: int)
      requires Valid() && IsUnlinked(to)
      modifies this`pcbFree_h, this`q, this`place, table
      ensures Valid() && p == Head(old(Get(q, Free)))
      ensures p == NULL ==> q == old(q) && place == old(place) && table[..] == old(table[..])
      ensures p != NULL ==>
        && IsPid(p) && q == Move(old(q), old(place), p, to) && place == old(place)[p := to]
        && table[..] == old(table[..])[p := BLANK]
    {
      hide Placed, Move, Circular, Siblings, Linked;
      ghost var t := table[..];
      QueueMembers(q, place, Free);
      if pcbFree_h == NULL {
        return NULL;
      }
      p := pcbFree_h;
      pcbFree_h := table[pcbFree_h].p_next;
      table[p] := BLANK;
      PopThreaded(t, table[..], pcbFree_h, q, place, to);
      OrphanTree(t, table[..], parent, kids, p);
      q, place := Move(q, place, p, to), place[p := to];
    }

    /** Puts an unlinked PCB without relatives back on the free list. */
    method FreePcb(p: int)
      requires Valid() && IsPid(p) && IsUnlinked(place[p]) && parent[p] == NULL && kids[p] == []
      modifies this`pcbFree_h, this`q, this`place, table
      ensures Valid() && q == Move(old(q), old(place), p, Free) && place == old(place)[p := Free]
      ensures table[..] == old(table[..])[p := old(table[p]).(p_semAdd := 0, p_next := old(pcbFree_h))]
    {
      hide Placed, Move, Threaded, Linked;
      ghost var t := table[..];
      table[p] := table[p].(p_semAdd := 0);
      var sup := pcbFree_h;
      table[p] := table[p].(p_next := sup);
      pcbFree_h := p;
      PushThreaded(t, table[..], sup, q, place, p);
      OrphanTree(t, table[..], parent, kids, p);
      q, place := Move(q, place, p, Free), place[p := Free];
    }

    // -------------------------------------------------------------- process tree

    /** Makes p the first child of prnt. */
    method InsertChild(prnt: int, p: int)
      requires Valid() && IsPid(prnt) && IsPid(p)
      requires parent[p] == NULL && !place[p].Free? && !place[prnt].Free?
      modifies this`parent, this`kids, table
      ensures Valid() && SameButTree(old(table[..]), table[..])
      ensures parent == old(parent)[p := prnt] && kids == old(kids)[prnt := [p] + old(kids[prnt])]
    {
      hide Placed, Threaded, Tree;
      ghost var t := table[..];
      SiblingLinks(t, parent, kids, prnt);
      if table[prnt].p_child == NULL {
        table[prnt] := table[prnt].(p_child := p);
        table[p] := table[p].(p_next_sib := NULL);
        table[p] := table[p].(p_prev_sib := NULL);
        table[p] := table[p].(p_prnt := prnt);
      } else {
        var first := table[prnt].p_child;
        table[first] := table[first].(p_prev_sib := p);
        table[p] := table[p].(p_next_sib := table[prnt].p_child);
        table[p] := table[p].(p_prev_sib := NULL);
        table[p] := table[p].(p_prnt := prnt);
        table[prnt] := table[prnt].(p_child := p);
      }
      AttachTree(t, table[..], parent, kids, prnt, p);
      ThreadedFrame(t, table[..], pcbFree_h, q);
      parent, kids := parent[p := prnt], kids[prnt := [p] + kids[prnt]];
    }

    /** Takes the first child of p away from it; NULL if p has none. */
    method RemoveChild(p: int) returns (target: int)
      requires Valid() && IsPid(p)
      modifies this`parent, this`kids, table
      ensures Valid() && SameButTree(old(table[..]), table[..])
      ensures target == Head(old(kids[p]))
      ensures target == NULL ==> parent == old(parent) && kids == old(kids) && table[..] == old(table[..])
      ensures target != NULL ==>
        && IsPid(target) && old(parent)[target] == p
        && parent == old(parent)[target := NULL] && kids == old(kids)[p := Remove(old(kids[p]), target)]
    {
      hide Placed, Threaded, Tree, SameButTree;
      ghost var t, s := table[..], kids[p];
      Childless(t, parent, kids, p);
      SameTable(t);
      if table[p].p_child == NULL {
        return NULL;
      }
      target := table[p].p_child;
      ChildLinks(t, parent, kids, p, 0);
      table[p] := table[p].(p_child := table[target].p_next_sib);
      var first := table[p].p_child;
      if first != NULL {
        table[first] := table[first].(p_prev_sib := NULL);
      }
      table[target] := table[target].(p_prnt := NULL);
      table[target] := table[target].(p_next_sib := NULL);
      table[target] := table[target].(p_prev_sib := NULL);
      assert forall x :: 0 <= x < |t| ==> table[x] == Unhooked(t, x, p, target, NULL, Later(s, 0));
      DetachTree(t, table[..], parent, kids, p, 0);
      ThreadedFrame(t, table[..], pcbFree_h, q);
      parent, kids := parent[target := NULL], kids[p := Remove(s, target)];
    }

    /** Takes p away from its parent, wherever it stands among its siblings; NULL if it has no parent. */
    method OutChild(p: int) returns (res: int)
      requires Valid() && IsPid(p)
      modifies this`parent, this`kids, table
      ensures Valid() && SameButTree(old(table[..]), table[..])
      ensures old(parent)[p] == NULL ==>
        res == NULL && parent == old(parent) && kids == old(kids) && table[..] == old(table[..])
      ensures old(parent)[p] != NULL ==>
        && res == p && IsPid(old(parent)[p]) && parent == old(parent)[p := NULL]
        && kids == old(kids)[old(parent)[p] := Remove(old(kids[parent[p]]), p)]
    {
      hide Placed, Threaded, Tree, SameButTree;
      ghost var t := table[..];
      TreeSize(t, parent, kids);
      SameTable(t);
      if table[p].p_prnt == NULL {
        return NULL;
      }
      ghost var r := parent[p];
      ghost var s := kids[r];
      ghost var i := ChildIndex(t, parent, kids, p);
      ChildLinks(t, parent, kids, r, i);
      ghost var before, after := Earlier(s, i), Later(s, i);
      Unhook(p);
      res := p;
      DetachTree(t, table[..], parent, kids, r, i);
      ThreadedFrame(t, table[..], pcbFree_h, q);
      parent, kids := parent[p := NULL], kids[r := Remove(s, p)];
    }

    /** The part of outChild that rewrites the links around p, in its four cases. */
    method Unhook(p: int)
      requires 0 <= p < table.Length && 0 <= table[p].p_prnt < table.Length
      requires var next, prev := table[p].p_next_sib, table[p].p_prev_sib;
        && NULL <= next < table.Length && NULL <= prev < table.Length && next != p && prev != p
        && (next != NULL ==> next != prev)
      modifies table
      ensures forall x :: 0 <= x < table.Length ==>
        table[x] ==
        Unhooked(old(table[..]), x, old(table[p].p_prnt), p, old(table[p].p_prev_sib), old(table[p].p_next_sib))
    {
      var next, prev, prnt := table[p].p_next_sib, table[p].p_prev_sib, table[p].p_prnt;
      if next != NULL && prev != NULL {
        table[next] := table[next].(p_prev_sib := prev);
        table[prev] := table[prev].(p_next_sib := next);
        table[p] := table[p].(p_next_sib := NULL);
        table[p] := table[p].(p_prev_sib := NULL);
      } else if prev == NULL && next != NULL {
        table[prnt] := table[prnt].(p_child := next);
        table[next] := table[next].(p_prev_sib := NULL);
        table[p] := table[p].(p_next_sib := NULL);
      } else if prev != NULL && next == NULL {
        table[prev] := table[prev].(p_next_sib := NULL);
        table[p] := table[p].(p_prev_sib := NULL);
      } else {
        table[prnt] := table[prnt].(p_child := NULL);
      }
      table[p] := table[p].(p_prnt := NULL);
    }

    // -------------------------------------------------------------- single fields

    method SetSemAdd(p: int, address: int)
      requires Valid() && IsPid(p)
      modifies table
      ensures Valid() && table[..] == old(table[..])[p := old(table[p]).(p_semAdd := address)]
    {
      hide Placed;
      ghost var t := table[..];
      table[p] := table[p].(p_semAdd := address);
      FieldFrame(t, table[..], pcbFree_h, q, parent, kids);
    }

    method SetV0(p: int, value: int)
      requires Valid() && IsPid(p)
      modifies table
      ensures Valid() && table[..] == old(table[..])[p := old(table[p]).(reg_v0 := value)]
    {
      hide Placed;
      ghost var t := table[..];
      table[p] := table[p].(reg_v0 := value);
      FieldFrame(t, table[..], pcbFree_h, q, parent, kids);
    }

    method AddTime(p: int, elapsed: int)
      requires Valid() && IsPid(p)
      modifies table
      ensures Valid() && table[..] == old(table[..])[p := old(table[p]).(p_time := old(table[p]).p_time + elapsed)]
    {
      hide Placed;
      ghost var t := table[..];
      table[p] := table[p].(p_time := table[p].p_time + elapsed);
      FieldFrame(t, table[..], pcbFree_h, q, parent, kids);
    }
  }

  lemma AppendThreaded(t: seq<Pcb>, t': seq<Pcb>, h: int, q: Queues, place: seq<Place>, pl: Place, p: int)
    requires Placed(q, place) && Threaded(t, h, q) && |t'| == |t| == |place|
    requires IsQueue(pl) && 0 <= p < |t| && IsUnlinked(place[p])
    requires forall x :: 0 <= x < |t| && place[x] != pl && !IsUnlinked(place[x]) ==>
      t'[x].p_next == t[x].p_next && t'[x].p_prev == t[x].p_prev
    requires var s := Get(q, pl);
      && (s == [] ==> t'[p].p_next == p && t'[p].p_prev == p)
      && (s != [] ==>
            && 0 <= s[0] < |t| && 0 <= Tail(s) < |t|
            && t'[p].p_next == s[0] && t'[p].p_prev == Tail(s)
            && t'[s[0]].p_prev == p && t'[Tail(s)].p_next == p)
      && (forall x :: 0 <= x < |t| && place[x] == pl ==>
            && (x != Tail(s) ==> t'[x].p_next == t[x].p_next)
            && (x != Head(s) ==> t'[x].p_prev == t[x].p_prev))
    ensures var q' := Move(q, place, p, pl);
      Placed(q', place[p := pl]) && Threaded(t', h, q') && Get(q', pl) == Get(q, pl) + [p]
  {
    hide Move, Lists, Placed;
    var s, q' := Get(q, pl), Move(q, place, p, pl);
    MovePlaced(q, place, p, pl);
    forall other ensures Get(q', other) ==
      if other == pl then s + [p] else if other == place[p] then Remove(Get(q, other), p) else Get(q, other)
    {
      GetAfterMove(q, place, p, pl, other);
    }
    OthersThreaded(t, t', h, q, q', place, pl);
    QueueMembers(q, place, pl);
    CircularAppend(t, t', s, p);
  }

  lemma IndexIn(q: Queues, place: seq<Place>, pl: Place, p: int) returns (i: nat)
    requires Placed(q, place) && 0 <= p < |place| && place[p] == pl
    ensures i < |Get(q, pl)| && Get(q, pl)[i] == p
  {
    assert Lists(Get(q, pl), place, pl);
    assert p in Get(q, pl);
    i :| 0 <= i < |Get(q, pl)| && Get(q, pl)[i] == p;
  }

  function Before(s: seq<int>, i: nat): int
    requires i < |s|
  {
    if i > 0 then s[i - 1] else s[|s| - 1]
  }

  function After(s: seq<int>, i: nat): int
    requires i < |s|
  {
    if i + 1 < |s| then s[i + 1] else s[0]
  }

  lemma QueueNeighbours(t: seq<Pcb>, h: int, q: Queues, place: seq<Place>, pl: Place, i: nat)
    requires Placed(q, place) && Threaded(t, h, q) && IsQueue(pl) && |t| == |place| && i < |Get(q, pl)|
    ensures var s := Get(q, pl);
      && 0 <= s[i] < |t| && 0 <= Before(s, i) < |t| && 0 <= After(s, i) < |t|
      && place[Before(s, i)] == pl && place[After(s, i)] == pl
      && t[s[i]].p_next == After(s, i) && t[s[i]].p_prev == Before(s, i)
      && (|s| > 1 ==> Before(s, i) != s[i] && After(s, i) != s[i])
  {
    QueueMembers(q, place, pl);
    assert Circular(t, Get(q, pl));
  }

  lemma RemoveThreaded(t: seq<Pcb>, t': seq<Pcb>, h: int, q: Queues, place: seq<Place>, pl: Place, i: nat, to: Place)
    requires Placed(q, place) && Threaded(t, h, q) && |t'| == |t| == |place|
    requires IsQueue(pl) && IsUnlinked(to) && i < |Get(q, pl)|
    requires var s := Get(q, pl); forall x :: 0 <= x < |t| && x != s[i] && !IsUnlinked(place[x]) ==>
      && t'[x].p_next == (if x == Before(s, i) then After(s, i) else t[x].p_next)
      && t'[x].p_prev == (if x == After(s, i) then Before(s, i) else t[x].p_prev)
    ensures 0 <= Get(q, pl)[i] < |t|
    ensures var s := Get(q, pl); var q' := Move(q, place, s[i], to);
      && Placed(q', place[s[i] := to]) && Threaded(t', h, q')
      && Get(q', pl) == s[..i] + s[i + 1..]
  {
    hide Move, Lists, Placed, Circular, Stack;
    QueueMembers(q, place, pl);
    var s := Get(q, pl);
    var p, q' := s[i], Move(q, place, s[i], to);
    MovePlaced(q, place, p, to);
    forall other ensures Get(q', other) ==
      if other == to then Get(q, other) + [p] else if other == pl then Remove(s, p) else Get(q, other)
    {
      GetAfterMove(q, place, p, to, other);
    }
    RemoveAt(s, i);
    QueueNeighbours(t, h, q, place, pl, i);
    OthersThreaded(t, t', h, q, q', place, pl);
    RemovedCircle(t, t', s, i);
  }

  lemma RemovedCircle(t: seq<Pcb>, t': seq<Pcb>, s: seq<int>, i: nat)
    requires Circular(t, s) && Distinct(s) && i < |s| && |t'| == |t|
    requires forall j :: 0 <= j < |s| && j != i ==>
      && t'[s[j]].p_next == (if s[j] == Before(s, i) then After(s, i) else t[s[j]].p_next)
      && t'[s[j]].p_prev == (if s[j] == After(s, i) then Before(s, i) else t[s[j]].p_prev)
    ensures Circular(t', s[..i] + s[i + 1..])
  {
    if |s| > 1 {
      CircularRemove(t, t', s, i);
    }
  }

  /** What becomes of the tail pointer when p leaves. */
  lemma RemoveTail(s: seq<int>, p: int)
    requires Distinct(s) && p in s
    ensures Tail(Remove(s, p)) == if |s| == 1 then NULL else if p == Tail(s) then Before(s, |s| - 1) else Tail(s)
  {
    var i :| 0 <= i < |s| && s[i] == p;
    RemoveAt(s, i);
  }

  // ---------------------------------------------------------------- the free list under updates

  lemma PopThreaded(t: seq<Pcb>, t': seq<Pcb>, h': int, q: Queues, place: seq<Place>, to: Place)
    requires |t'| == |t| == |place| && Placed(q, place) && IsUnlinked(to) && Get(q, Free) != []
    requires Threaded(t, Get(q, Free)[0], q) && 0 <= Get(q, Free)[0] < |t|
    requires h' == t[Get(q, Free)[0]].p_next && t' == t[Get(q, Free)[0] := t'[Get(q, Free)[0]]]
    ensures var p := Get(q, Free)[0]; var q' := Move(q, place, p, to);
      Placed(q', place[p := to]) && Threaded(t', h', q')
  {
    hide Move, Placed, Stack, Circular;
    var s := Get(q, Free);
    var p := s[0];
    QueueMembers(q, place, Free);
    MovePlaced(q, place, p, to);
    forall other ensures Get(Move(q, place, p, to), other) ==
      if other == to then Get(q, other) + [p] else if other == Free then s[1..] else Get(q, other)
    {
      GetAfterMove(q, place, p, to, other);
    }
    OthersThreaded(t, t', p, q, Move(q, place, p, to), place, Free);
    StackPop(t, t', s);
  }

  lemma PushThreaded(t: seq<Pcb>, t': seq<Pcb>, h: int, q: Queues, place: seq<Place>, p: int)
    requires |t'| == |t| == |place| && Placed(q, place) && Threaded(t, h, q)
    requires 0 <= p < |t| && IsUnlinked(place[p]) && t' == t[p := t'[p]] && t'[p].p_next == h
    ensures var q' := Move(q, place, p, Free);
      Placed(q', place[p := Free]) && Threaded(t', p, q')
  {
    hide Move, Placed, Stack, Circular;
    QueueMembers(q, place, Free);
    MovePlaced(q, place, p, Free);
    var s := Get(q, Free);
    forall other ensures Get(Move(q, place, p, Free), other) ==
      if other == Free then [p] + s else if other == place[p] then Remove(Get(q, other), p) else Get(q, other)
    {
      GetAfterMove(q, place, p, Free, other);
    }
    OthersThreaded(t, t', h, q, Move(q, place, p, Free), place, Free);
    StackPush(t, t', h, s, p);
  }

  /** A PCB without relatives may be rewritten freely as long as its own tree links stay NULL. */
  lemma OrphanTree(t: seq<Pcb>, t': seq<Pcb>, parent: seq<int>, kids: seq<seq<int>>, p: int)
    requires Tree(t, parent, kids) && 0 <= p < |t| && parent[p] == NULL && kids[p] == []
    requires |t'| == |t| && t' == t[p := t'[p]]
    requires t'[p].p_prnt == NULL && t'[p].p_child == NULL
    requires t'[p].p_next_sib == NULL && t'[p].p_prev_sib == NULL
    ensures Tree(t', parent, kids)
  {
    forall x | 0 <= x < |t| ensures Siblings(t', x, kids[x]) {
      assert Siblings(t, x, kids[x]);
      forall i | 0 <= i < |kids[x]| ensures kids[x][i] != p {
        assert kids[x][i] in kids[x];
      }
    }
  }

  // ---------------------------------------------------------------- the tree under updates

  lemma ThreadedFrame(t: seq<Pcb>, t': seq<Pcb>, h: int, q: Queues)
    requires Threaded(t, h, q) && SameButTree(t, t')
    ensures Threaded(t', h, q)
  {
    forall pl | IsQueue(pl) ensures Circular(t', Get(q, pl)) {
      CircularFrame(t, t', Get(q, pl));
    }
  }

  lemma ChildInTree(t: seq<Pcb>, parent: seq<int>, kids: seq<seq<int>>, p: int, i: nat)
    requires Tree(t, parent, kids) && 0 <= p < |kids| && i < |kids[p]|
    ensures 0 <= kids[p][i] < |t| && parent[kids[p][i]] == p
  {
    assert kids[p][i] in kids[p];
  }

  /** Siblings of different parents, and different siblings of one, are different. */
  lemma KidsApart(t: seq<Pcb>, parent: seq<int>, kids: seq<seq<int>>, p: int)
    requires Tree(t, parent, kids) && 0 <= p < |kids|
    ensures Distinct(kids[p])
    ensures forall i :: 0 <= i < |kids[p]| ==> 0 <= kids[p][i] < |t| && parent[kids[p][i]] == p
  {
    forall i | 0 <= i < |kids[p]| ensures 0 <= kids[p][i] < |t| && parent[kids[p][i]] == p {
      ChildInTree(t, parent, kids, p, i);
    }
  }

  lemma AttachTree(t: seq<Pcb>, t': seq<Pcb>, parent: seq<int>, kids: seq<seq<int>>, p: int, c: int)
    requires Tree(t, parent, kids) && |t'| == |t| && 0 <= p < |t| && 0 <= c < |t| && parent[c] == NULL
    requires forall x :: 0 <= x < |t| ==>
      && t'[x].p_prnt == (if x == c then p else t[x].p_prnt)
      && t'[x].p_child == (if x == p then c else t[x].p_child)
      && t'[x].p_next_sib == (if x == c then t[p].p_child else t[x].p_next_sib)
      && t'[x].p_prev_sib == (if x == c then NULL else if x == t[p].p_child then c else t[x].p_prev_sib)
    ensures Tree(t', parent[c := p], kids[p := [c] + kids[p]])
  {
    hide Linked, Siblings;
    AttachLinked(parent, kids, p, c);
    var kids' := kids[p := [c] + kids[p]];
    KidsApart(t, parent, kids, p);
    SiblingLinks(t, parent, kids, p);
    OtherSiblings(t, t', parent, kids, p, c);
    AddedSibling(t, t', p, kids[p], c);
  }

  /** Changes to the links of children of p, and of c that comes or goes, leave the other lists alone. */
  lemma OtherSiblings(t: seq<Pcb>, t': seq<Pcb>, parent: seq<int>, kids: seq<seq<int>>, p: int, c: int)
    requires Tree(t, parent, kids) && |t'| == |t| && 0 <= p < |t|
    requires 0 <= c < |t| && (parent[c] == NULL || parent[c] == p)
    requires forall x :: 0 <= x < |t| && parent[x] != p && x != c ==>
      t'[x].p_next_sib == t[x].p_next_sib && t'[x].p_prev_sib == t[x].p_prev_sib
    requires forall x :: 0 <= x < |t| && x != p ==> t'[x].p_child == t[x].p_child
    ensures forall x :: 0 <= x < |t| && x != p ==> Siblings(t', x, kids[x])
  {
    hide Linked, Siblings;
    forall x | 0 <= x < |t| && x != p ensures Siblings(t', x, kids[x]) {
      KidsApart(t, parent, kids, x);
      SiblingsFrame(t, t', x, kids[x]);
    }
  }

  lemma SiblingsFrame(t: seq<Pcb>, t': seq<Pcb>, p: int, s: seq<int>)
    requires |t'| == |t| && 0 <= p < |t| && Siblings(t, p, s) && t'[p].p_child == t[p].p_child
    requires forall i :: 0 <= i < |s| ==>
      0 <= s[i] < |t| && t'[s[i]].p_next_sib == t[s[i]].p_next_sib && t'[s[i]].p_prev_sib == t[s[i]].p_prev_sib
    ensures Siblings(t', p, s)
  {}

  lemma AddedSibling(t: seq<Pcb>, t': seq<Pcb>, p: int, s: seq<int>, c: int)
    requires |t'| == |t| && 0 <= p < |t| && 0 <= c < |t| && Siblings(t, p, s) && Distinct(s)
    requires t'[p].p_child == c && t'[c].p_next_sib == Head(s) && t'[c].p_prev_sib == NULL
    requires forall i :: 0 <= i < |s| ==>
      && 0 <= s[i] < |t|
      && t'[s[i]].p_next_sib == t[s[i]].p_next_sib
      && t'[s[i]].p_prev_sib == if i == 0 then c else t[s[i]].p_prev_sib
    ensures Siblings(t', p, [c] + s)
  {
    var s' := [c] + s;
    forall i, j | 0 <= i < |s'| && j == i + 1 < |s'|
      ensures t'[s'[i]].p_next_sib == s'[j] && t'[s'[j]].p_prev_sib == s'[i]
    {
      if i > 0 {
        assert s'[i] == s[i - 1] && s'[j] == s[i];
      }
    }
  }

  lemma SameTable(t: seq<Pcb>)
    ensures SameButTree(t, t)
  {}

  lemma Childless(t: seq<Pcb>, parent: seq<int>, kids: seq<seq<int>>, p: int)
    requires Tree(t, parent, kids) && 0 <= p < |t|
    ensures t[p].p_child == Head(kids[p]) && (kids[p] != [] ==> 0 <= kids[p][0] < |t|)
  {
    assert Siblings(t, p, kids[p]);
  }

  /** The links of the i-th child of p. */
  lemma ChildLinks(t: seq<Pcb>, parent: seq<int>, kids: seq<seq<int>>, p: int, i: nat)
    requires Tree(t, parent, kids) && 0 <= p < |kids| && i < |kids[p]|
    ensures var s := kids[p]; var c := s[i];
      && 0 <= c < |t| && parent[c] == p && t[c].p_prnt == p
      && (i == 0 <==> t[p].p_child == c)
      && t[c].p_next_sib == Later(s, i) && t[c].p_prev_sib == Earlier(s, i)
      && Later(s, i) < |t| && Earlier(s, i) < |t| && Later(s, i) >= -1 && Earlier(s, i) >= -1
      && Later(s, i) != c && Earlier(s, i) != c
      && (Later(s, i) != NULL ==> Later(s, i) != Earlier(s, i))
  {
    SiblingLinks(t, parent, kids, p);
    KidsApart(t, parent, kids, p);
  }

  lemma TreeSize(t: seq<Pcb>, parent: seq<int>, kids: seq<seq<int>>)
    requires Tree(t, parent, kids)
    ensures |t| == |parent| == |kids|
    ensures forall c :: 0 <= c < |t| ==> t[c].p_prnt == parent[c]
    ensures forall c :: 0 <= c < |t| && parent[c] != NULL ==> 0 <= parent[c] < |t|
    ensures forall c :: 0 <= c < |t| && parent[c] == NULL ==> t[c].p_next_sib == NULL && t[c].p_prev_sib == NULL
  {}

  /** What the tree links of the children of p, and of p itself, are. */
  lemma SiblingLinks(t: seq<Pcb>, parent: seq<int>, kids: seq<seq<int>>, p: int)
    requires Tree(t, parent, kids) && 0 <= p < |kids|
    ensures var s := kids[p];
      && t[p].p_child == Head(s)
      && (forall i :: 0 <= i < |s| ==>
            && 0 <= s[i] < |t|
            && t[s[i]].p_next_sib == (if i + 1 < |s| then s[i + 1] else NULL)
            && t[s[i]].p_prev_sib == (if i > 0 then s[i - 1] else NULL))
  {
    var s := kids[p];
    assert Siblings(t, p, s);
    forall i | 0 <= i < |s|
      ensures t[s[i]].p_next_sib == (if i + 1 < |s| then s[i + 1] else NULL)
      ensures t[s[i]].p_prev_sib == (if i > 0 then s[i - 1] else NULL)
    {
      if i > 0 {
        assert s[i - 1] == s[i - 1];
      }
      if i + 1 < |s| {
        assert s[i + 1] == s[i + 1];
      }
    }
  }

  /** The record of x once c, a child of p between `before` and `after`, is unhooked. */
  function Unhooked(t: seq<Pcb>, x: int, p: int, c: int, before: int, after: int): Pcb
    requires 0 <= x < |t|
  {
    t[x].(p_prnt := if x == c then NULL else t[x].p_prnt,
          p_child := if x == p && before == NULL then after else t[x].p_child,
          p_next_sib := if x == c then NULL else if x == before then after else t[x].p_next_sib,
          p_prev_sib := if x == c then NULL else if x == after then before else t[x].p_prev_sib)
  }

  function Earlier(s: seq<int>, i: nat): int
    requires i < |s|
  {
    if i > 0 then s[i - 1] else NULL
  }

  function Later(s: seq<int>, i: nat): int
    requires i < |s|
  {
    if i + 1 < |s| then s[i + 1] else NULL
  }

  lemma DetachTree(t: seq<Pcb>, t': seq<Pcb>, parent: seq<int>, kids: seq<seq<int>>, p: int, i: nat)
    requires Tree(t, parent, kids) && |t'| == |t| && 0 <= p < |t| && i < |kids[p]|
    requires forall x :: 0 <= x < |t| ==>
      t'[x] == Unhooked(t, x, p, kids[p][i], Earlier(kids[p], i), Later(kids[p], i))
    ensures 0 <= kids[p][i] < |t|
    ensures Tree(t', parent[kids[p][i] := NULL], kids[p := Remove(kids[p], kids[p][i])])
    ensures SameButTree(t, t')
  {
    hide Linked, Siblings;
    var s := kids[p];
    var c := s[i];
    KidsApart(t, parent, kids, p);
    DetachLinked(parent, kids, c) by {
      ChildInTree(t, parent, kids, p, i);
    }
    RemoveAt(s, i);
    OtherSiblings(t, t', parent, kids, p, c);
    RemovedSibling(t, t', p, s, i);
  }

  lemma RemovedSibling(t: seq<Pcb>, t': seq<Pcb>, p: int, s: seq<int>, i: nat)
    requires |t'| == |t| && 0 <= p < |t| && i < |s| && Siblings(t, p, s) && Distinct(s)
    requires var before := if i > 0 then s[i - 1] else NULL; var after := if i + 1 < |s| then s[i + 1] else NULL;
      && t'[p].p_child == (if i == 0 then after else t[p].p_child)
      && forall j :: 0 <= j < |s| && j != i ==>
        && t'[s[j]].p_next_sib == (if s[j] == before then after else t[s[j]].p_next_sib)
        && t'[s[j]].p_prev_sib == (if s[j] == after then before else t[s[j]].p_prev_sib)
    ensures Siblings(t', p, s[..i] + s[i + 1..])
  {
    var s' := s[..i] + s[i + 1..];
    forall j, m | 0 <= j < |s'| && m == j + 1 < |s'|
      ensures t'[s'[j]].p_next_sib == s'[m] && t'[s'[m]].p_prev_sib == s'[j]
    {
      if m < i {
        assert s'[j] == s[j] && s'[m] == s[m];
      } else if m > i {
        assert s'[j] == s[m] && s'[m] == s[m + 1];
      } else {
        assert s'[j] == s[j] && s'[m] == s[m + 1];
      }
    }
    assert forall j :: 0 <= j < |s'| ==> s'[j] == if j < i then s[j] else s[j + 1];
  }

  lemma ChildIndex(t: seq<Pcb>, parent: seq<int>, kids: seq<seq<int>>, p: int) returns (i: nat)
    requires Tree(t, parent, kids) && 0 <= p < |t| && parent[p] != NULL
    ensures 0 <= parent[p] < |kids| && i < |kids[parent[p]]| && kids[parent[p]][i] == p
  {
    assert p in kids[parent[p]];
    i :| 0 <= i < |kids[parent[p]]| && kids[parent[p]][i] == p;
  }

  /** Fields that are not links do not matter to the lists and the tree. */
  lemma FieldFrame(t: seq<Pcb>, t': seq<Pcb>, h: int, q: Queues, parent: seq<int>, kids: seq<seq<int>>)
    requires Threaded(t, h, q) && Tree(t, parent, kids) && |t'| == |t|
    requires forall x :: 0 <= x < |t| ==>
      t'[x] == t[x].(p_semAdd := t'[x].p_semAdd, p_time := t'[x].p_time, reg_v0 := t'[x].reg_v0)
    ensures Threaded(t', h, q) && Tree(t', parent, kids)
  {
    hide Linked;
    forall pl | IsQueue(pl) ensures Circular(t', Get(q, pl)) {
      CircularFrame(t, t', Get(q, pl));
    }
    forall p | 0 <= p < |t| ensures Siblings(t', p, kids[p]) {
      assert Siblings(t, p, kids[p]);
      SiblingsFrame(t, t', p, kids[p]);
    }
  }

  /** What the loop of initPcbs leaves is a free list of all PCBs and no family. */
  lemma FreshTable(t: seq<Pcb>, h: int, q: Queues, place: seq<Place>, parent: seq<int>, kids: seq<seq<int>>)
    requires |t| == MAXPROC && h == MAXPROC - 1 && forall p :: 0 <= p < MAXPROC ==> t[p] == BLANK.(p_next := p - 1)
    requires place == seq(MAXPROC, i => Free) && q == Put(map[], Free, seq(MAXPROC, i => MAXPROC - 1 - i))
    requires parent == Nulls() && kids == Kidless()
    ensures Placed(q, place) && Threaded(t, h, q) && Tree(t, parent, kids)
  {
    hide Placed, Put, Get;
    AllFree(q, place);
  }

  lemma AllFree(q: Queues, place: seq<Place>)
    requires place == seq(MAXPROC, i => Free) && q == Put(map[], Free, seq(MAXPROC, i => MAXPROC - 1 - i))
    ensures Placed(q, place) && Get(q, Free) == seq(MAXPROC, i => MAXPROC - 1 - i)
    ensures forall pl :: pl != Free ==> Get(q, pl) == []
  {
    var s := seq(MAXPROC, i => MAXPROC - 1 - i);
    assert Get(q, Free) == s;
    forall pl ensures Lists(Get(q, pl), place, pl) {
      if pl == Free {
        forall x | 0 <= x < MAXPROC ensures x in s {
          assert s[MAXPROC - 1 - x] == x;
        }
      }
    }
  }
}
