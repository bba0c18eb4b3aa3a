/**
  CPU accounting (update_cpu_usage and the uses of tod_start): every span of time that is billed, or
  spent in WAIT, in the order in which it ended.
 */
module Billing {
  import opened Layout
  import opened Pcbs

  /** Billed to pid, or idle if pid is NULL. */
  datatype Span = Span(pid: int, from: int, to: int)

  /** The spans do not overlap; they lie between `start` and `now`. */
  ghost predicate Chronological(spans: seq<Span>, start: int, now: int) {
    && start <= now
    && (forall i :: 0 <= i < |spans| ==> start <= spans[i].from <= spans[i].to <= now)
    && (forall i, j :: 0 <= i < j < |spans| ==> spans[i].to <= spans[j].from)
  }

  function Length(s: Span): int {
    s.to - s.from
  }

  function Billed(spans: seq<Span>, pid: int): int {
    if spans == [] then 0
    else Billed(spans[..|spans| - 1], pid) + if spans[|spans| - 1].pid == pid then Length(spans[|spans| - 1]) else 0
  }

  /** What all processes together were billed. */
  function TotalBilled(spans: seq<Span>): int {
    if spans == [] then 0
    else TotalBilled(spans[..|spans| - 1]) + if spans[|spans| - 1].pid != NULL then Length(spans[|spans| - 1]) else 0
  }

  function Idle(spans: seq<Span>): int {
    Billed(spans, NULL)
  }

  /** p_time of every PCB is exactly what was billed to it since it was allocated. */
  ghost predicate Exact(t: seq<Pcb>, spans: seq<Span>, since: seq<nat>) {
    && |since| == |t|
    && forall x :: 0 <= x < |t| ==> since[x] <= |spans| && t[x].p_time == Billed(spans[since[x]..], x)
  }

  lemma Append(spans: seq<Span>, s: Span, from: nat, pid: int)
    requires from <= |spans|
    ensures Billed((spans + [s])[from..], pid) == Billed(spans[from..], pid) + if s.pid == pid then Length(s) else 0
  {
    var tail := (spans + [s])[from..];
    assert tail == spans[from..] + [s];
    assert tail[..|tail| - 1] == spans[from..];
  }

  /** Billing p for s, or noting an idle s (pid NULL), keeps the books exact. */
  lemma ExactAppend(t: seq<Pcb>, t': seq<Pcb>, spans: seq<Span>, since: seq<nat>, s: Span)
    requires Exact(t, spans, since) && |t'| == |t|
    requires forall x :: 0 <= x < |t| ==> t'[x].p_time == t[x].p_time + if x == s.pid then Length(s) else 0
    ensures Exact(t', spans + [s], since)
  {
    forall x | 0 <= x < |t| ensures t'[x].p_time == Billed((spans + [s])[since[x]..], x) {
      Append(spans, s, since[x], x);
    }
  }

  /** A PCB that is allocated anew starts from zero. */
  lemma ExactAlloc(t: seq<Pcb>, t': seq<Pcb>, spans: seq<Span>, since: seq<nat>, p: int)
    requires Exact(t, spans, since) && |t'| == |t| && 0 <= p < |t| && t'[p].p_time == 0
    requires forall x :: 0 <= x < |t| && x != p ==> t'[x].p_time == t[x].p_time
    ensures |since| == |t| && Exact(t', spans, since[p := |spans|])
  {}

  lemma ChronologicalAppend(spans: seq<Span>, start: int, now: int, s: Span, now': int)
    requires Chronological(spans, start, now) && now <= s.from <= s.to <= now'
    ensures Chronological(spans + [s], start, now')
  {}

  lemma Later(spans: seq<Span>, start: int, now: int, now': int)
    requires Chronological(spans, start, now) && now <= now'
    ensures Chronological(spans, start, now')
  {}

  /**
    Nobody is overcharged: what all processes were billed and what was spent waiting never exceed the
    time that has passed.
   */
  lemma {:induction false} NeverOvercharged(spans: seq<Span>, start: int, now: int)
    requires Chronological(spans, start, now)
    ensures TotalBilled(spans) + Idle(spans) <= now - start
    ensures TotalBilled(spans) >= 0 && Idle(spans) >= 0
  {
    if spans != [] {
      NeverOvercharged(spans[..|spans| - 1], start, spans[|spans| - 1].from);
    }
  }

  /** The processes' bills add up to the total. */
  lemma {:induction false} BillsAddUp(spans: seq<Span>, n: nat)
    requires forall i :: 0 <= i < |spans| ==> NULL <= spans[i].pid < n
    ensures SumBilled(spans, n) == TotalBilled(spans)
  {
    if spans == [] {
      NothingBilled(n);
    } else {
      BillsAddUp(spans[..|spans| - 1], n);
      OneMore(spans, n);
    }
  }

  function SumBilled(spans: seq<Span>, n: nat): int {
    if n == 0 then 0 else SumBilled(spans, n - 1) + Billed(spans, n - 1)
  }

  lemma {:induction false} NothingBilled(n: nat)
    ensures SumBilled([], n) == 0
  {
    if n > 0 {
      NothingBilled(n - 1);
    }
  }

  lemma {:induction false} OneMore(spans: seq<Span>, n: nat)
    requires spans != []
    ensures var last := spans[|spans| - 1];
      SumBilled(spans, n) == SumBilled(spans[..|spans| - 1], n) + if 0 <= last.pid < n then Length(last) else 0
  {
    if n > 0 {
      OneMore(spans, n - 1);
    }
  }
}
