/** Sequences without repetition: the abstract form of every linked list of the kernel. */
module Seqs {

  ghost predicate Distinct(s: seq<int>) {
    forall i, j :: 0 <= i < j < |s| ==> s[i] != s[j]
  }

  /** The sequence without the first occurrence of x. */
  function Remove(s: seq<int>, x: int): seq<int> {
    if s == [] then [] else if s[0] == x then s[1..] else [s[0]] + Remove(s[1..], x)
  }

  /** The subsequence, in the same order, of the elements outside `gone`. */
  function Keep(s: seq<int>, gone: set<int>): seq<int> {
    if s == [] then [] else if s[0] in gone then Keep(s[1..], gone) else [s[0]] + Keep(s[1..], gone)
  }

  function FirstOf(s: seq<int>): seq<int> {
    if s == [] then [] else [s[0]]
  }

  function RestOf(s: seq<int>): seq<int> {
    if s == [] then [] else s[1..]
  }

  lemma {:induction false} RemoveAt(s: seq<int>, i: nat)
    requires i < |s| && Distinct(s)
    ensures Remove(s, s[i]) == s[..i] + s[i + 1..]
  {
    if i > 0 {
      RemoveAt(s[1..], i - 1);
      assert s[1..][i - 1] == s[i] && s[0] != s[i];
      assert s[1..][i..] == s[i + 1..];
      assert s[..i] == [s[0]] + s[1..][..i - 1];
    }
  }

  lemma {:induction false} RemoveIsDelete(s: seq<int>, x: int)
    requires Distinct(s)
    ensures Distinct(Remove(s, x))
    ensures forall y :: y in Remove(s, x) <==> y in s && y != x
    ensures |Remove(s, x)| == if x in s then |s| - 1 else |s|
  {
    if s != [] {
      RemoveIsDelete(s[1..], x);
      assert s == [s[0]] + s[1..];
      assert s[0] !in s[1..];
      if s[0] != x {
        assert forall y :: y in Remove(s, x) <==> y == s[0] || y in Remove(s[1..], x);
      }
    }
  }

  /** Deleting one doomed element first does not change what is kept. */
  lemma {:induction false} KeepRemove(s: seq<int>, x: int, gone: set<int>)
    requires x in gone
    ensures Keep(Remove(s, x), gone) == Keep(s, gone)
  {
    if s != [] && s[0] != x {
      KeepRemove(s[1..], x, gone);
      assert Remove(s, x)[1..] == Remove(s[1..], x);
    }
  }

  lemma {:induction false} KeepAll(s: seq<int>, gone: set<int>)
    requires forall i :: 0 <= i < |s| ==> s[i] !in gone
    ensures Keep(s, gone) == s
  {
    if |s| > 0 {
      KeepAll(s[1..], gone);
      assert s == [s[0]] + s[1..];
    }
  }

  lemma {:induction false} KeepMembers(s: seq<int>, gone: set<int>)
    ensures forall x :: x in Keep(s, gone) <==> x in s && x !in gone
    ensures |Keep(s, gone)| <= |s|
  {
    if s != [] {
      KeepMembers(s[1..], gone);
      assert s == [s[0]] + s[1..];
    }
  }

  /** A repetition-free list of numbers below n has at most n members, and n only if it has them all. */
  lemma {:induction false} Pigeonhole(s: seq<int>, n: nat)
    requires Distinct(s) && forall i :: 0 <= i < |s| ==> 0 <= s[i] < n
    ensures |s| <= n
    ensures |s| == n <==> forall x :: 0 <= x < n ==> x in s
    decreases n
  {
    assert s != [] ==> 0 <= s[0] < n;
    if n > 0 {
      RemoveIsDelete(s, n - 1);
      var r := Remove(s, n - 1);
      forall i | 0 <= i < |r| ensures 0 <= r[i] < n - 1 {
        assert r[i] in r;
      }
      Pigeonhole(r, n - 1);
    }
  }
}
