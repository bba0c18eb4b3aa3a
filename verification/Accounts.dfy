/**
  The accounts of a run: who is billed at each event, that WAITs are billed to nobody, and from when on each
  process is billed.
 */
module Accounts {
  import opened Seqs
  import opened Layout
  import opened Places
  import opened KernelModel
  import opened KernelSteps
  import opened KernelTheorems
  import opened KernelEffects
  import opened Billing

  // ---------------------------------------------------------------- the bills of one event

  /** The spans from n on were billed to these, one each, and there are no more. */
  ghost predicate BilledTo(spans: seq<Span>, n: nat, pids: seq<int>) {
    |spans| == n + |pids| && forall i :: 0 <= i < |pids| ==> spans[n + i].pid == pids[i]
  }

  lemma NothingBilled(spans: seq<Span>)
    ensures BilledTo(spans, |spans|, [])
  {}

  lemma OneMoreBilled(spans: seq<Span>, spans': seq<Span>, n: nat, pids: seq<int>, i: nat)
    requires n <= |spans| && i < |pids| && BilledTo(spans, n, pids[..i])
    requires spans <= spans' && |spans'| == |spans| + 1 && spans'[|spans|].pid == pids[i]
    ensures BilledTo(spans', n, pids[..i + 1])
  {}

  lemma BilledMore(spans: seq<Span>, spans': seq<Span>, n: nat, pids: seq<int>, more: seq<int>)
    requires BilledTo(spans, n, pids) && spans <= spans' && BilledTo(spans', |spans|, more)
    ensures BilledTo(spans', n, pids + more)
  {
    forall i | 0 <= i < |pids + more| ensures spans'[n + i].pid == (pids + more)[i] {
      if i < |pids| {
        assert spans'[n + i] == spans[n + i];
      }
    }
  }

  /** Span n is nobody's, and lasts from the WAIT to some instant from lo on. */
  ghost predicate IdleAt(spans: seq<Span>, n: nat, from: int, lo: int) {
    n < |spans| && spans[n].pid == NULL && spans[n].from == from && lo <= spans[n].to
  }

  /** An interrupt that ends a WAIT first notes a span that is nobody's. */
  function Idler(was: Status): seq<int> {
    if was == Waiting then [NULL] else []
  }

  /** The bills of the handler: the caller for the handling, the woken for the waking. */
  function Handled(k: Kernel, e: Event): seq<int> {
    match e
    case SysCreate => [Cur(k)]
    case SysTerminate => []
    case SysP(a) => if a == 0 then [] else [Cur(k)]
    case SysV(a) => if a == 0 then [] else [Cur(k)]
    case SysIO(line, dev, a3) => if GoodDevice(line, dev, a3) then [Cur(k)] else []
    case SysClock => [Cur(k)]
    case SysOther => [Cur(k)]
    case Timeslice => []
    case ClockTick => Get(k.q, Blocked(SYS_TIMER))
    case DeviceInt(line, dev, tran) => FirstOf(Get(k.q, Blocked(IoAddress(line, dev, 1 - tran))))
  }

  /** Who is billed when an event comes, in order: whoever ran, or nobody after a WAIT, and then the handler's bills. */
  function Charges(k: Kernel, e: Event): seq<int> {
    [Cur(k)] + Handled(k, e)
  }

  /**
    The first bill is whoever ran, or nobody's; then a system call is billed to its caller unless it ends the caller,
    and an interrupt to those whom it made ready, in the order in which they joined the ready queue.
   */
  lemma BillsFollowEffects(k: Kernel, e: Event)
    requires Sound(k) && Enabled(k, e)
    ensures Charges(k, e)[0] == Cur(k)
    ensures e.ClockTick? || e.DeviceInt? ==> Resumed(k, Step(k, e), Get(k.q, Ready) + Charges(k, e)[1..])
    ensures !e.ClockTick? && !e.DeviceInt? ==>
      Charges(k, e)[1..] == if Ends(e) || e.Timeslice? then [] else [Cur(k)]
  {
    hide Core, Accounted, Decided, Step, Resumed;
    StepEffect(k, e);
    assert Charges(k, e)[1..] == Handled(k, e);
  }

  // ---------------------------------------------------------------- from when on a process is billed

  /** The event takes x from the free list. */
  predicate Creates(k: Kernel, e: Event, x: int) {
    e.SysCreate? && Get(k.q, Free) != [] && x == Get(k.q, Free)[0]
  }

  /** The process that the event creates is billed from span n on, and all others as before. */
  ghost predicate Dated(since: seq<nat>, since': seq<nat>, k: Kernel, e: Event, n: nat) {
    |since'| == |since| && forall x :: 0 <= x < |since| ==> since'[x] == if Creates(k, e, x) then n else since[x]
  }

  lemma DatedAnyhow(since: seq<nat>, since': seq<nat>, k: Kernel, e: Event, n: nat, m: nat)
    requires Dated(since, since', k, e, n) && (e.SysCreate? ==> n == m)
    ensures Dated(since, since', k, e, m)
  {}

  // ---------------------------------------------------------------- the journal of a run

  /** The state and the time when an event comes, and how many spans are booked by then. */
  datatype Moment = Moment(k: Kernel, clock: int, booked: nat)

  /**
    What happens from one moment to the next: a step of the machine, and the bills for it. The first is for the
    time up to the event: if the machine waited, it begins exactly when the WAIT began, and is nobody's.
   */
  ghost predicate Entry(m: Moment, e: Event, m': Moment, spans: seq<Span>) {
    && Sound(m.k) && Enabled(m.k, e) && m'.k == Step(m.k, e)
    && m.booked < m'.booked <= |spans| && BilledTo(spans[..m'.booked], m.booked, Charges(m.k, e))
    && var s := spans[m.booked];
       s.pid == Cur(m.k) && m.clock <= s.to <= m'.clock && (m.k.status == Waiting ==> s.from == m.clock)
  }

  ghost predicate Journal(log: seq<Moment>, es: seq<Event>, spans: seq<Span>) {
    && |log| == |es| + 1 && log[|es|].booked == |spans|
    && forall i, j :: 0 <= i < |es| && j == i + 1 ==> Entry(log[i], es[i], log[j], spans)
  }

  lemma NoEntries(m: Moment, spans: seq<Span>)
    requires m.booked == |spans|
    ensures Journal([m], [], spans)
  {}

  lemma EntryStays(m: Moment, e: Event, m': Moment, spans: seq<Span>, spans': seq<Span>)
    requires Entry(m, e, m', spans) && spans <= spans'
    ensures Entry(m, e, m', spans')
  {
    hide Sound, Enabled, Step, Charges, BilledTo;
    assert spans'[..m'.booked] == spans[..m'.booked];
  }

  lemma FirstCharge(spans: seq<Span>, n: nat, k: Kernel, e: Event)
    requires BilledTo(spans, n, Charges(k, e))
    ensures n < |spans| && spans[n].pid == Cur(k)
  {
    assert Charges(k, e)[0] == Cur(k);
  }

  lemma JournalGrows(log: seq<Moment>, es: seq<Event>, spans: seq<Span>, e: Event, m': Moment, spans': seq<Span>)
    requires Journal(log, es, spans) && spans < spans' && m'.booked == |spans'|
    requires var m := log[|es|];
      && Sound(m.k) && Enabled(m.k, e) && m'.k == Step(m.k, e)
      && BilledTo(spans', |spans|, Charges(m.k, e))
      && var s := spans'[|spans|];
         m.clock <= s.to <= m'.clock && (m.k.status == Waiting ==> s.from == m.clock)
    ensures Journal(log + [m'], es + [e], spans')
  {
    hide Sound, Enabled, Step, Charges, BilledTo;
    var log', es' := log + [m'], es + [e];
    assert spans'[..m'.booked] == spans';
    FirstCharge(spans', |spans|, log[|es|].k, e);
    forall i, j | 0 <= i < |es'| && j == i + 1 ensures Entry(log'[i], es'[i], log'[j], spans') {
      if i < |es| {
        EntryStays(log[i], es[i], log[j], spans, spans');
      }
    }
  }

  ghost predicate FromTo(log: seq<Moment>, first: Moment, last: Moment) {
    log != [] && log[0] == first && log[|log| - 1] == last
  }

  /** No bill, at whatever event it was made, overlaps a WAIT. */
  ghost predicate WaitsApart(log: seq<Moment>, es: seq<Event>, spans: seq<Span>) {
    |log| == |es| + 1 &&
    forall i, j :: 0 <= i < |es| && log[i].k.status == Waiting && 0 <= j < |spans| && spans[j].pid != NULL ==>
      log[i].booked < |spans| && (spans[j].to <= log[i].clock || spans[log[i].booked].to <= spans[j].from)
  }

  lemma WaitsAreNobodys(log: seq<Moment>, es: seq<Event>, spans: seq<Span>, start: int, now: int)
    requires Journal(log, es, spans) && Chronological(spans, start, now)
    ensures WaitsApart(log, es, spans)
  {
    hide Inv, Quiet, Enabled, Step, Charges, BilledTo;
    forall i, j | 0 <= i < |es| && log[i].k.status == Waiting && 0 <= j < |spans| && spans[j].pid != NULL
      ensures log[i].booked < |spans| && (spans[j].to <= log[i].clock || spans[log[i].booked].to <= spans[j].from)
    {
      assert Entry(log[i], es[i], log[i + 1], spans);
      assert Decided(log[i].k);
      assert j < log[i].booked || j > log[i].booked;
    }
  }

  /** made[x] is the last of the events that created x, or NULL; x is billed from its last creation on. */
  ghost predicate Births(log: seq<Moment>, es: seq<Event>, made: seq<int>, since0: seq<nat>, since: seq<nat>) {
    && |log| == |es| + 1 && |made| == |since0| == |since|
    && forall x :: 0 <= x < |made| ==> BornAt(log, es, x, made[x], since0[x], since[x])
  }

  ghost predicate BornAt(log: seq<Moment>, es: seq<Event>, x: int, m: int, was: nat, since: nat)
    requires |log| == |es| + 1
  {
    && NULL <= m < |es|
    && (forall j :: m < j < |es| ==> !Creates(log[j].k, es[j], x))
    && (if m == NULL then since == was else Creates(log[m].k, es[m], x) && since == log[m].booked + 1)
  }

  lemma NoBirths(log: seq<Moment>, since: seq<nat>)
    requires |log| == 1 && |since| == MAXPROC
    ensures Births(log, [], Nulls(), since, since)
  {}

  lemma BirthsGrow(log: seq<Moment>, es: seq<Event>, made: seq<int>, since0: seq<nat>, since: seq<nat>,
                   e: Event, m': Moment, since': seq<nat>) returns (made': seq<int>)
    requires Births(log, es, made, since0, since)
    requires Dated(since, since', log[|es|].k, e, log[|es|].booked + 1)
    ensures Births(log + [m'], es + [e], made', since0, since')
  {
    hide Creates;
    made' := seq(|made|, x requires 0 <= x < |made| => if Creates(log[|es|].k, e, x) then |es| else made[x]);
    forall x | 0 <= x < |made| ensures BornAt(log + [m'], es + [e], x, made'[x], since0[x], since'[x]) {
      assert BornAt(log, es, x, made[x], since0[x], since[x]);
    }
  }
}
