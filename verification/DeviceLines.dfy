/** Which interrupt it is: the loops over the cause register and the device words, as unsigned numbers. */
module DeviceLines {
  import opened KernelSteps

  const LOCALTIMERINT := 0x200
  const TIMERINTERRUPT := 0x400
  const CHARTRANSMITTED := 5

  /** Bit n of an unsigned word. */
  predicate Bit(word: nat, n: nat) {
    if n == 0 then word % 2 == 1 else Bit(word / 2, n - 1)
  }

  /** n is the lowest bit set. */
  ghost predicate Lowest(word: nat, n: nat) {
    Bit(word, n) && forall i: nat :: i < n ==> !Bit(word, i)
  }

  function Pow2(n: nat): nat {
    if n == 0 then 1 else 2 * Pow2(n - 1)
  }

  lemma {:induction false} NoBits(n: nat)
    ensures !Bit(0, n)
  {
    if n > 0 {
      NoBits(n - 1);
    }
  }

  /** A word below 2^n has no bit at n or above. */
  lemma {:induction false} BitBelow(word: nat, i: nat, n: nat)
    requires word < Pow2(n) && Bit(word, i)
    ensures i < n
  {
    if n == 0 {
      NoBits(i);
    } else if i > 0 {
      BitBelow(word / 2, i - 1, n - 1);
    }
  }

  /** Shifting a word right by k moves its bits down by k. */
  function Shifted(word: nat, k: nat): nat {
    if k == 0 then word else Shifted(word, k - 1) / 2
  }

  lemma {:induction false} ShiftedBit(word: nat, k: nat, n: nat)
    ensures Bit(Shifted(word, k), n) == Bit(word, k + n)
    decreases k
  {
    if k > 0 {
      ShiftedBit(word, k - 1, n + 1);
    }
  }

  /** The loop for the interrupt line and for the device: the lowest bit, or PANIC when there is none. */
  method LowestBit(word: nat) returns (n: nat, panic: bool)
    ensures panic <==> word == 0
    ensures !panic ==> Lowest(word, n)
    ensures panic <==> forall i: nat :: !Bit(word, i)
  {
    n, panic := 0, false;
    var tmp := word;
    while tmp % 2 == 0
      invariant tmp == Shifted(word, n) && (word == 0 <==> tmp == 0)
      invariant forall i: nat :: i < n ==> !Bit(word, i)
      decreases tmp
    {
      if tmp == 0 {
        forall i: nat ensures !Bit(word, i) {
          NoBits(i);
        }
        return n, true;
      }
      ShiftedBit(word, n, 0);
      tmp := tmp / 2;
      n := n + 1;
    }
    ShiftedBit(word, n, 0);
  }

  /** Terminal n has a transmitted character to report. */
  predicate Transmitted(word: nat, transm_status: seq<nat>, n: nat) {
    Bit(word, n) && n < |transm_status| && transm_status[n] % 256 == CHARTRANSMITTED
  }

  /** The loop for terminals: the lowest that transmitted, or else the lowest that interrupts, or else 100. */
  method LowestTerminal(word: nat, transm_status: seq<nat>) returns (devno: nat, tran: int)
    requires word < Pow2(8) && |transm_status| == 8
    ensures tran == 1 ==>
      Transmitted(word, transm_status, devno) && forall i: nat :: i < devno ==> !Transmitted(word, transm_status, i)
    ensures tran != 1 ==> tran == 0 && forall i: nat :: !Transmitted(word, transm_status, i)
    ensures tran == 0 ==> (if word == 0 then devno == 100 else Lowest(word, devno))
  {
    devno, tran := 0, 0;
    var tmp := word;
    var devno_recv := 100;
    while tmp != 0
      invariant tmp == Shifted(word, devno) && tran == 0
      invariant forall i: nat :: i < devno ==> !Transmitted(word, transm_status, i)
      invariant if devno_recv == 100 then forall i: nat :: i < devno ==> !Bit(word, i) else Lowest(word, devno_recv)
      invariant word == 0 ==> tmp == 0 && devno_recv == 100
      decreases tmp
    {
      ShiftedBit(word, devno, 0);
      if tmp % 2 == 1 {
        BitBelow(word, devno, 8);
        var reg_status_tran := transm_status[devno];
        if reg_status_tran % 256 == 5 {
          tran := 1;
          return;
        } else if devno_recv == 100 {
          devno_recv := devno;
        }
      }
      tmp := tmp / 2;
      devno := devno + 1;
    }
    forall i: nat ensures i >= devno ==> !Bit(word, i) {
      if i >= devno {
        ShiftedBit(word, devno, i - devno);
        NoBits(i - devno);
      }
    }
    if word != 0 {
      var _ := SomeBit(word);
    }
    devno := devno_recv;
  }

  lemma {:induction false} SomeBit(word: nat) returns (n: nat)
    requires word != 0
    ensures Bit(word, n)
  {
    if word % 2 == 1 {
      n := 0;
    } else {
      n := SomeBit(word / 2);
      n := n + 1;
    }
  }

  datatype Decision = Panic | Handle(event: Event)

  /** What is decided for a line whose devices have these bits set. */
  ghost predicate Selected(line: nat, word: nat, transm_status: seq<nat>, d: Decision) {
    if line != 7 then
      if word == 0 then d == Panic
      else exists dev: nat :: Lowest(word, dev) && d == Handle(DeviceInt(line, dev, 0))
    else
      exists dev: nat, tran: int ::
        && d == Handle(DeviceInt(line, dev, tran))
        && if tran == 1 then
             Transmitted(word, transm_status, dev) && forall i: nat :: i < dev ==> !Transmitted(word, transm_status, i)
           else
             && tran == 0 && (forall i: nat :: !Transmitted(word, transm_status, i))
             && if word == 0 then dev == 100 else Lowest(word, dev)
  }

  /**
    What an interrupt is taken for: the timers come first, and then the lowest line and on it the lowest device;
    an empty word stops the machine, except that an empty terminal word yields terminal 100.
   */
  ghost predicate Verdict(ip: nat, devword: seq<nat>, transm_status: seq<nat>, d: Decision)
    requires |devword| == 8
  {
    if Bit(ip, 1) then d == Handle(Timeslice)
    else if Bit(ip, 2) then d == Handle(ClockTick)
    else if ip == 0 then d == Panic
    else exists line: nat :: Lowest(ip, line) && line < 8 && Selected(line, devword[line], transm_status, d)
  }

  /** interrupt_handler up to the V operation. */
  method Decide(cause: nat, devword: seq<nat>, transm_status: seq<nat>) returns (d: Decision)
    requires |devword| == 8 && devword[7] < Pow2(8) && |transm_status| == 8
    ensures Verdict(cause / 256 % 256, devword, transm_status, d)
  {
    var ip := cause / 256 % 256;
    TimerBits(cause);
    if cause / LOCALTIMERINT % 2 == 1 {
      return Handle(Timeslice);
    }
    if cause / TIMERINTERRUPT % 2 == 1 {
      return Handle(ClockTick);
    }
    var intln, none := LowestBit(ip);
    if none {
      return Panic;
    }
    assert ip < Pow2(8);
    BitBelow(ip, intln, 8);
    var devno: nat, tran := 0, 0;
    if intln != 7 {
      devno, none := LowestBit(devword[intln]);
      if none {
        assert Selected(intln, devword[intln], transm_status, Panic);
        return Panic;
      }
    } else {
      devno, tran := LowestTerminal(devword[intln], transm_status);
    }
    d := Handle(DeviceInt(intln, devno, tran));
    assert Selected(intln, devword[intln], transm_status, d);
  }

  lemma Halved(x: nat)
    ensures x / 256 / 2 == x / 512 && x / 512 / 2 == x / 1024
  {}

  /** An even number added leaves the parity. */
  lemma Parity(h: nat, y: nat)
    ensures (2 * h + y) / 2 == h + y / 2 && (2 * h + y) % 2 == y % 2
  {}

  /** The two masks test the bits of lines 1 and 2. */
  lemma TimerBits(cause: nat)
    ensures Bit(cause / 256 % 256, 1) <==> cause / LOCALTIMERINT % 2 == 1
    ensures Bit(cause / 256 % 256, 2) <==> cause / TIMERINTERRUPT % 2 == 1
  {
    var y := cause / 256;
    var h, ip := y / 256, y % 256;
    Halved(cause);
    Parity(128 * h, ip);
    Parity(64 * h, ip / 2);
    Parity(32 * h, ip / 2 / 2);
    BitTwo(ip);
  }

  lemma BitTwo(word: nat)
    ensures Bit(word, 1) == (word / 2 % 2 == 1) && Bit(word, 2) == (word / 2 / 2 % 2 == 1)
  {
    assert Bit(word, 1) == Bit(word / 2, 0);
    assert Bit(word, 2) == Bit(word / 2, 1) == Bit(word / 2 / 2, 0);
  }

  /** A pending line with a device behind it yields an event that exists in the kernel. */
  lemma SelectedExists(line: nat, word: nat, transm_status: seq<nat>, d: Decision)
    requires 3 <= line <= 7 && 0 < word < Pow2(8) && |transm_status| == 8
    requires Selected(line, word, transm_status, d)
    ensures d.Handle? && d.event.DeviceInt? && d.event.line == line
    ensures GoodDevice(line, d.event.dev, d.event.tran) && Bit(word, d.event.dev)
  {
    var dev := d.event.dev;
    BitBelow(word, dev, 8);
  }

  /** Unless line 0 or an empty terminal word is what remains, the event is a timer's or that of an existing device. */
  lemma TakenFor(ip: nat, devword: seq<nat>, transm_status: seq<nat>, d: Decision)
    requires |devword| == 8 && (forall l :: 3 <= l < 8 ==> devword[l] < Pow2(8)) && |transm_status| == 8
    requires Verdict(ip, devword, transm_status, d) && d.Handle?
    requires Bit(ip, 1) || Bit(ip, 2) || (!Bit(ip, 0) && (Lowest(ip, 7) ==> devword[7] > 0))
    ensures if Bit(ip, 1) then d.event == Timeslice
            else if Bit(ip, 2) then d.event == ClockTick
            else d.event.DeviceInt? && GoodDevice(d.event.line, d.event.dev, d.event.tran)
  {
    if !Bit(ip, 1) && !Bit(ip, 2) {
      var line: nat :| Lowest(ip, line) && line < 8 && Selected(line, devword[line], transm_status, d);
      SelectedExists(line, devword[line], transm_status, d);
    }
  }
}
