/** The swap table: which page each frame holds, which frame is next, and what a termination frees. */
module SwapPool {
  import opened PageWords

  const NOPROC := -1

  /** sw_pte points into the private page table of the owner: it names the page. */
  datatype Swap = Swap(sw_asid: int, sw_pageNo: int, sw_pte: Pg)

  predicate Occupied(e: Swap) {
    e.sw_asid != NOPROC
  }

  /** The first free frame in [lo, hi), or hi. */
  function FirstFree(swap: seq<Swap>, lo: nat, hi: nat): (f: nat)
    requires lo <= hi <= |swap|
    ensures lo <= f <= hi
    ensures f < hi ==> !Occupied(swap[f])
    ensures forall i :: lo <= i < f ==> Occupied(swap[i])
    decreases hi - lo
  {
    if lo == hi || !Occupied(swap[lo]) then lo else FirstFree(swap, lo + 1, hi)
  }

  function Successor(index: int): int {
    (index + 1) % SWAPSIZE
  }

  /** The frame after the last one if it is free or none is, else the first free one further on. */
  function NextFrame(swap: seq<Swap>, index: int): (f: int)
    requires |swap| == SWAPSIZE
    ensures IsFrame(f)
  {
    var res := Successor(index);
    if !Occupied(swap[res]) then res
    else if FirstFree(swap, res + 1, SWAPSIZE) < SWAPSIZE then FirstFree(swap, res + 1, SWAPSIZE)
    else if FirstFree(swap, 0, res) < res then FirstFree(swap, 0, res)
    else res
  }

  /** An occupied frame is evicted only when no frame is free, and then it is the round robin one. */
  lemma EvictsOnlyWhenFull(swap: seq<Swap>, index: int)
    requires |swap| == SWAPSIZE
    ensures Occupied(swap[NextFrame(swap, index)]) <==> forall f :: 0 <= f < SWAPSIZE ==> Occupied(swap[f])
    ensures Occupied(swap[NextFrame(swap, index)]) ==> NextFrame(swap, index) == Successor(index)
  {
    var res := Successor(index);
    if Occupied(swap[NextFrame(swap, index)]) {
      forall f | 0 <= f < SWAPSIZE ensures Occupied(swap[f]) {
        assert f < res || f == res || f > res;
      }
    }
  }

  /** A free frame is the first one in cyclic order from the frame after the last one. */
  lemma FirstInRotation(swap: seq<Swap>, index: int, d: nat)
    requires |swap| == SWAPSIZE && !Occupied(swap[NextFrame(swap, index)])
    requires d < (NextFrame(swap, index) - Successor(index)) % SWAPSIZE
    ensures Occupied(swap[(Successor(index) + d) % SWAPSIZE])
  {
    var res, f := Successor(index), NextFrame(swap, index);
    var g := (res + d) % SWAPSIZE;
    if f > res {
      assert (f - res) % SWAPSIZE == f - res && g == res + d;
    } else if f < res {
      assert (f - res) % SWAPSIZE == f - res + SWAPSIZE;
      assert g == if res + d < SWAPSIZE then res + d else res + d - SWAPSIZE;
    }
  }

  /**
    The comment above get_next_swap_index promises the first free frame. The code returns the frame of lowest
    index exactly when no frame before the next one is free, or none from it on.
   */
  lemma LowestIffNoneBefore(swap: seq<Swap>, index: int)
    requires |swap| == SWAPSIZE && exists f :: 0 <= f < SWAPSIZE && !Occupied(swap[f])
    ensures NextFrame(swap, index) == FirstFree(swap, 0, SWAPSIZE) <==>
      || (forall f :: 0 <= f < Successor(index) ==> Occupied(swap[f]))
      || (forall f :: Successor(index) <= f < SWAPSIZE ==> Occupied(swap[f]))
  {
    var res, lowest := Successor(index), FirstFree(swap, 0, SWAPSIZE);
    var below, above := FirstFree(swap, 0, res), FirstFree(swap, res + 1, SWAPSIZE);
    assert below < res ==> lowest == below;
    if below == res && Occupied(swap[res]) && above < SWAPSIZE {
      assert lowest == above;
    }
  }

  /** What mark_all_unoccupied leaves. */
  function Marked(swap: seq<Swap>, asid: int): seq<Swap>
    requires |swap| == SWAPSIZE
  {
    if swap[0].sw_asid == asid then swap[0 := swap[0].(sw_asid := NOPROC)] else swap
  }

  /**
    The comment in pager.h promises that all frames of the process become free. The code keeps that
    promise exactly when no frame but frame 0 belongs to the process.
   */
  lemma MarksAllIffOnlyFrameZero(swap: seq<Swap>, asid: int)
    requires |swap| == SWAPSIZE && 1 <= asid <= UPROCMAX
    ensures (forall f :: 0 <= f < SWAPSIZE ==> Marked(swap, asid)[f].sw_asid != asid) <==>
            (forall f :: 1 <= f < SWAPSIZE ==> swap[f].sw_asid != asid)
  {
    var marked := Marked(swap, asid);
    assert forall f :: 1 <= f < SWAPSIZE ==> marked[f] == swap[f];
    if forall f :: 0 <= f < SWAPSIZE ==> marked[f].sw_asid != asid {
      forall f | 1 <= f < SWAPSIZE ensures swap[f].sw_asid != asid {
        assert marked[f].sw_asid != asid;
      }
    }
  }

  class Pool {
    const swap_pool_table: array<Swap>
    var swap_index: int

    ghost predicate Valid()
      reads `swap_index
    {
      swap_pool_table.Length == SWAPSIZE && 0 <= swap_index < SWAPSIZE
    }

    /** init_pager: every frame is free. */
    constructor ()
      ensures Valid() && fresh(swap_pool_table) && swap_index == 0
      ensures forall f :: 0 <= f < SWAPSIZE ==> !Occupied(swap_pool_table[f])
    {
      swap_pool_table := new Swap[SWAPSIZE](i => Swap(0, 0, Pg(0, 0)));
      swap_index := 0;
      new;
      for i := 0 to SWAPSIZE
        invariant Valid() && swap_index == 0
        invariant forall f :: 0 <= f < i ==> !Occupied(swap_pool_table[f])
      {
        swap_pool_table[i] := swap_pool_table[i].(sw_asid := NOPROC);
        swap_pool_table[i] := swap_pool_table[i].(sw_pageNo := -1);
        swap_pool_table[i] := swap_pool_table[i].(sw_pte := Pg(0, 0));
      }
    }

    /** get_next_swap_index. */
    method GetNextSwapIndex() returns (res: int)
      requires Valid()
      modifies `swap_index
      ensures Valid() && swap_index == Successor(old(swap_index))
      ensures res == NextFrame(swap_pool_table[..], old(swap_index))
    {
      ghost var swap := swap_pool_table[..];
      res := (swap_index + 1) % SWAPSIZE;
      swap_index := res;
      if swap_pool_table[res].sw_asid != NOPROC {
        var i := res + 1;
        while i < SWAPSIZE
          invariant res + 1 <= i <= SWAPSIZE
          invariant FirstFree(swap, res + 1, SWAPSIZE) == FirstFree(swap, i, SWAPSIZE)
        {
          if swap_pool_table[i].sw_asid == NOPROC {
            return i;
          }
          i := i + 1;
        }
        i := 0;
        while i < res
          invariant 0 <= i <= res
          invariant FirstFree(swap, 0, res) == FirstFree(swap, i, res)
        {
          if swap_pool_table[i].sw_asid == NOPROC {
            return i;
          }
          i := i + 1;
        }
      }
    }

    /** mark_all_unoccupied: every turn of the loop tests entry 0. */
    method MarkAllUnoccupied(asid: int)
      requires Valid() && 1 <= asid <= UPROCMAX
      modifies swap_pool_table
      ensures swap_pool_table[..] == Marked(old(swap_pool_table[..]), asid)
    {
      ghost var swap := swap_pool_table[..];
      for i := 0 to SWAPSIZE
        invariant i == 0 ==> swap_pool_table[..] == swap
        invariant i > 0 ==> swap_pool_table[..] == Marked(swap, asid)
      {
        if swap_pool_table[0].sw_asid == asid {
          swap_pool_table[i] := swap_pool_table[i].(sw_asid := NOPROC);
        }
      }
    }
  }
}
