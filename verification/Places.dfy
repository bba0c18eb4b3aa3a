/**
  Where a PCB is. Every PCB is at exactly one place, and a place keeps its PCBs in a sequence
  (head first): the meaning of the free list and of the circular queues of phase1/pcb.c.
 */
module Places {
  import opened Seqs
  import opened Layout

  datatype Place =
    | Free                  // on the free list
    | Ready                 // on the ready queue
    | Blocked(address: int) // on the queue of the descriptor of this semaphore
    | Running               // current_proc
    | Doomed                // on the scratch queue of a termination in progress
    | Dying                 // taken off the scratch queue, its children being detached

  type Queues = map<Place, seq<int>>

  /** A place that is absent from the map is empty. */
  function Get(q: Queues, pl: Place): seq<int> {
    if pl in q then q[pl] else []
  }

  function Put(q: Queues, pl: Place, s: seq<int>): Queues {
    if s == [] then q - {pl} else q[pl := s]
  }

  /** The free list is a stack, every other place is a queue. */
  function Add(pl: Place, s: seq<int>, x: int): seq<int> {
    if pl.Free? then [x] + s else s + [x]
  }

  /** x leaves the place it is at and joins pl. */
  function Move(q: Queues, place: seq<Place>, x: int, pl: Place): Queues
    requires 0 <= x < |place|
  {
    var taken := Put(q, place[x], Remove(Get(q, place[x]), x));
    Put(taken, pl, Add(pl, Get(taken, pl), x))
  }

  /** s lists, once each, exactly the PCBs that are at pl. */
  ghost predicate Lists(s: seq<int>, place: seq<Place>, pl: Place) {
    Distinct(s) && forall x :: x in s <==> 0 <= x < |place| && place[x] == pl
  }

  /** The queues and the places tell the same story, and no empty queue is kept. */
  ghost predicate Placed(q: Queues, place: seq<Place>) {
    && (forall pl :: Lists(Get(q, pl), place, pl))
    && (forall pl :: pl in q ==> q[pl] != [])
  }

  lemma GetAfterMove(q: Queues, place: seq<Place>, x: int, pl: Place, other: Place)
    requires 0 <= x < |place| && place[x] != pl
    ensures Get(Move(q, place, x, pl), other) ==
      if other == pl then Add(pl, Get(q, pl), x)
      else if other == place[x] then Remove(Get(q, other), x)
      else Get(q, other)
  {}

  lemma MovePlaced(q: Queues, place: seq<Place>, x: int, pl: Place)
    requires Placed(q, place) && 0 <= x < |place| && place[x] != pl
    ensures Placed(Move(q, place, x, pl), place[x := pl])
  {
    var q', place' := Move(q, place, x, pl), place[x := pl];
    forall other ensures Lists(Get(q', other), place', other) {
      GetAfterMove(q, place, x, pl, other);
      assert Lists(Get(q, other), place, other);
      assert x in Get(q, other) <==> place[x] == other;
      if other == place[x] {
        RemoveIsDelete(Get(q, other), x);
      }
    }
  }

  /** How many PCBs are at a place that satisfies p. */
  function Count(place: seq<Place>, p: Place -> bool): nat {
    if place == [] then 0 else (if p(place[0]) then 1 else 0) + Count(place[1..], p)
  }

  lemma {:induction false} CountUpdate(place: seq<Place>, x: int, pl: Place, p: Place -> bool)
    requires 0 <= x < |place|
    ensures Count(place[x := pl], p)
         == Count(place, p) - (if p(place[x]) then 1 else 0) + (if p(pl) then 1 else 0)
  {
    if x > 0 {
      CountUpdate(place[1..], x - 1, pl, p);
      assert place[x := pl][1..] == place[1..][x - 1 := pl];
    } else {
      assert place[x := pl][1..] == place[1..];
    }
  }

  lemma {:induction false} CountZero(place: seq<Place>, p: Place -> bool)
    ensures Count(place, p) == 0 <==> forall x :: 0 <= x < |place| ==> !p(place[x])
  {
    if place != [] {
      CountZero(place[1..], p);
      assert forall x :: 0 <= x < |place[1..]| ==> place[1..][x] == place[x + 1];
      assert forall x :: 0 < x < |place| ==> place[x] == place[1..][x - 1];
    }
  }

  // ---------------------------------------------------------------- lists in the PCB table

  /** Places whose PCBs are threaded on a circular queue. */
  predicate IsQueue(pl: Place) {
    pl.Ready? || pl.Blocked? || pl.Doomed?
  }

  /** Places whose PCBs are on no list at all. */
  predicate IsUnlinked(pl: Place) {
    pl.Running? || pl.Dying?
  }

  /** The tail pointer by which the kernel knows a queue. */
  function Tail(s: seq<int>): int {
    if s == [] then NULL else s[|s| - 1]
  }

  function Head(s: seq<int>): int {
    if s == [] then NULL else s[0]
  }

  lemma {:induction false} RemoveLast(s: seq<int>, x: int)
    requires x !in s
    ensures Remove(s + [x], x) == s
  {
    if |s| > 0 {
      assert s[0] in s;
      RemoveLast(s[1..], x);
      assert (s + [x])[1..] == s[1..] + [x];
      assert s == [s[0]] + s[1..];
    }
  }

  /** Going by way of a third place is the same as going straight. */
  lemma MoveVia(q: Queues, place: seq<Place>, x: int, via: Place, pl: Place)
    requires Placed(q, place) && 0 <= x < |place|
    requires place[x] != via && via != pl && place[x] != pl && !via.Free?
    ensures Move(Move(q, place, x, via), place[x := via], x, pl) == Move(q, place, x, pl)
    ensures place[x := via][x := pl] == place[x := pl]
  {
    hide Move, Lists;
    var q1, place1 := Move(q, place, x, via), place[x := via];
    MovePlaced(q, place, x, via);
    MovePlaced(q1, place1, x, pl);
    MovePlaced(q, place, x, pl);
    assert x !in Get(q, via) by {
      assert Lists(Get(q, via), place, via);
      ListsMember(Get(q, via), place, via, x);
    }
    forall other ensures Get(Move(q1, place1, x, pl), other) == Get(Move(q, place, x, pl), other) {
      GetAfterMove(q, place, x, via, other);
      GetAfterMove(q1, place1, x, pl, other);
      GetAfterMove(q, place, x, pl, other);
      RemoveLast(Get(q, via), x);
    }
    SameGets(Move(q1, place1, x, pl), Move(q, place, x, pl));
  }

  lemma ListsMember(s: seq<int>, place: seq<Place>, pl: Place, x: int)
    requires Lists(s, place, pl) && 0 <= x < |place|
    ensures x in s <==> place[x] == pl
  {}

  /** Without empty queues in it, the map is determined by the lists. */
  lemma SameGets(q: Queues, q': Queues)
    requires forall pl :: pl in q ==> q[pl] != []
    requires forall pl :: pl in q' ==> q'[pl] != []
    requires forall pl :: Get(q, pl) == Get(q', pl)
    ensures q == q'
  {
    forall pl ensures pl in q <==> pl in q' {
      assert Get(q, pl) == Get(q', pl);
    }
    forall pl | pl in q ensures q[pl] == q'[pl] {
      assert Get(q, pl) == Get(q', pl);
    }
  }
}
