/**
 * The simulated CADR I/O board as the processor sees it: the unibus register file at
 * offsets 0100-0124, the TV control register on the xbus, the microsecond clock and the
 * 60 Hz interrupt sources. The source keeps the board's state in process-wide variables;
 * here they are the fields of one `Board`.
 */
module IoBoard {
  import opened Wrappers
  import opened Registers
  import opened UsClock

  /** The board's registers, as one value, for stating what an operation leaves alone. */
  datatype Snapshot = Snapshot(keyScan: bv32, kbdCsr: bv32, tvCsr: bv32, cv: bv64, clock: ClockState)

  class Board {
    /** The microsecond clock posts the 60 Hz interrupt (USE_US_CLOCK_FOR_60HZ). */
    const usClockTicks: bool
    /** A host interval timer posts the 60 Hz interrupt, so polling does not (USE_SIGVTARLM_FOR_60HZ). */
    const timerTicks: bool

    /** Keyboard scan word; the keyboard code outside this board writes it. */
    var keyScan: bv32
    /** Keyboard/mouse control-status register. */
    var kbdCsr: bv32
    /** TV control register. */
    var tvCsr: bv32
    /** The clock sample cached by the last low-half read (an `unsigned long`). */
    var cv: bv64
    /** Host time of the first clock sample; zero seconds until then. */
    var origin: TimeVal
    /** The last 60 Hz window of the microsecond clock a pulse was posted for. */
    var lastHz60: nat

    /** Whether the xbus interrupt line is asserted. */
    ghost var xbusAsserted: bool
    /** The vector last asserted on the unibus interrupt line, if any. */
    ghost var unibusVector: Option<int>

    /** The origin is a host time, and the xbus line is asserted exactly while a 60 Hz
        interrupt is pending in the TV register (the idle/pending state machine). */
    ghost predicate Valid()
      reads this
    {
      IsTimeVal(origin) && (tvCsr & TV_INTERRUPT != 0 <==> xbusAsserted)
    }

    function Clock(): ClockState
      reads this
    {
      ClockState(origin, lastHz60)
    }

    function Regs(): Snapshot
      reads this
    {
      Snapshot(keyScan, kbdCsr, tvCsr, cv, Clock())
    }

    /** The board at process start: every register zero, no line asserted. */
    constructor (usClockTicks: bool, timerTicks: bool)
      ensures Valid()
      ensures this.usClockTicks == usClockTicks && this.timerTicks == timerTicks
      ensures Regs() == Snapshot(0, 0, 0, 0, ClockState(TimeVal(0, 0), 0))
      ensures !xbusAsserted && unibusVector == None
    {
      this.usClockTicks := usClockTicks;
      this.timerTicks := timerTicks;
      keyScan, kbdCsr, tvCsr, cv := 0, 0, 0, 0;
      origin, lastHz60 := TimeVal(0, 0), 0;
      xbusAsserted, unibusVector := false, None;
    }

    /** Sets the pending flag of the TV register and asserts the xbus interrupt. */
    method TvPost60HzInterrupt()
      requires Valid()
      modifies this
      ensures Valid()
      ensures Regs() == old(Regs()).(tvCsr := TvCsrPosted(old(tvCsr)))
      ensures xbusAsserted && unibusVector == old(unibusVector)
    {
      tvCsr := tvCsr | TV_INTERRUPT;
      xbusAsserted := true;
    }

    /** Microseconds since the first call, read from the host time `now`; the first call
        records `now` as the origin and returns 0. When the microsecond clock drives the
        60 Hz interrupt, a sample in a later window than the last one posts it once. */
    method GetUsClock(now: TimeVal) returns (v: nat)
      requires Valid() && IsTimeVal(now)
      modifies this
      ensures Valid()
      ensures var s := TakeSample(old(Clock()), now, usClockTicks);
        && v == s.v
        && Regs() == old(Regs()).(clock := s.next, tvCsr := if s.pulse then TvCsrPosted(old(tvCsr)) else old(tvCsr))
        && xbusAsserted == (old(xbusAsserted) || s.pulse)
      ensures unibusVector == old(unibusVector)
    {
      if origin.sec == 0 {
        origin := now;
        v := 0;
        lastHz60 := 0;
      } else {
        var sec, usec := now.sec, now.usec;
        if usec < origin.usec {
          sec := sec - 1;
          usec := usec + USEC_PER_SEC;
        }
        var ds, du := sec - origin.sec, usec - origin.usec;
        v := (ds * USEC_PER_SEC + du) % ULONG_MODULUS;
        if usClockTicks {
          var hz60 := v / USEC_PER_TICK;
          if hz60 > lastHz60 {
            lastHz60 := hz60;
            TvPost60HzInterrupt();
          }
        }
      }
    }

    /** Takes a fresh clock sample, caches it and returns its low 16 bits. */
    method GetUsClockLow(now: TimeVal) returns (r: bv32)
      requires Valid() && IsTimeVal(now)
      modifies this
      ensures Valid()
      ensures var s := TakeSample(old(Clock()), now, usClockTicks);
        && r == UsClockLow(Ulong(s.v))
        && Regs() == old(Regs()).(cv := Ulong(s.v), clock := s.next,
                                  tvCsr := if s.pulse then TvCsrPosted(old(tvCsr)) else old(tvCsr))
        && xbusAsserted == (old(xbusAsserted) || s.pulse)
      ensures unibusVector == old(unibusVector)
    {
      var v := GetUsClock(now);
      cv := Ulong(v);
      r := UsClockLow(cv);
    }

    /** The high bits of the cached sample, without sampling again. */
    method GetUsClockHigh() returns (r: bv32)
      requires Valid()
      ensures r == UsClockHigh(cv)
    {
      r := UsClockHigh(cv);
    }

    /** A unibus read of the board at `offset`; `now` is the host time, used by the clock. */
    method UnibusRead(offset: int, now: TimeVal) returns (v: bv32)
      requires Valid() && IsTimeVal(now)
      modifies this
      ensures Valid()
      ensures offset == KBD_LOW ==>
        v == KeyScanLow(old(keyScan)) && Regs() == old(Regs()).(kbdCsr := ClearKbdReady(old(kbdCsr)))
      ensures offset == KBD_HIGH ==>
        v == KeyScanHigh(old(keyScan)) && Regs() == old(Regs()).(kbdCsr := ClearKbdReady(old(kbdCsr)))
      ensures offset == KBD_CSR ==> v == old(kbdCsr) && Regs() == old(Regs())
      ensures offset == US_CLOCK_LOW ==>
        var s := TakeSample(old(Clock()), now, usClockTicks);
        && v == UsClockLow(Ulong(s.v))
        && Regs() == old(Regs()).(cv := Ulong(s.v), clock := s.next,
                                  tvCsr := if s.pulse then TvCsrPosted(old(tvCsr)) else old(tvCsr))
        && xbusAsserted == (old(xbusAsserted) || s.pulse)
      ensures offset == US_CLOCK_HIGH ==> v == UsClockHigh(old(cv)) && Regs() == old(Regs())
      ensures offset in {BEEP, HZ60_CLOCK} || !IsMappedOffset(offset) ==> v == 0 && Regs() == old(Regs())
      ensures offset != US_CLOCK_LOW ==> xbusAsserted == old(xbusAsserted)
      ensures unibusVector == old(unibusVector)
    {
      v := 0;
      if offset == KBD_LOW {
        v := KeyScanLow(keyScan);
        kbdCsr := ClearKbdReady(kbdCsr);
      } else if offset == KBD_HIGH {
        v := KeyScanHigh(keyScan);
        kbdCsr := ClearKbdReady(kbdCsr);
      } else if offset == BEEP {
        // the host beep has no effect on the board
      } else if offset == KBD_CSR {
        v := kbdCsr;
      } else if offset == US_CLOCK_LOW {
        v := GetUsClockLow(now);
      } else if offset == US_CLOCK_HIGH {
        v := GetUsClockHigh();
      } else if offset == HZ60_CLOCK {
        v := Get60HzClock();
      }
    }

    /** A unibus write of `v` to the board at `offset`: only the CSR is writable. */
    method UnibusWrite(offset: int, v: bv32)
      requires Valid()
      modifies this
      ensures Valid()
      ensures Regs() == if offset == KBD_CSR then old(Regs()).(kbdCsr := WriteKbdCsr(old(kbdCsr), v))
                        else old(Regs())
      ensures xbusAsserted == old(xbusAsserted) && unibusVector == old(unibusVector)
    {
      if offset == KBD_CSR {
        kbdCsr := WriteKbdCsr(kbdCsr, v);
      }
    }

    /** An xbus read of the TV control register; the status is always 0. */
    method TvXbusRead(offset: int) returns (status: int, v: bv32)
      ensures status == 0 && v == tvCsr
    {
      status, v := 0, tvCsr;
    }

    /** An xbus write of the TV control register. It acknowledges the 60 Hz interrupt and
        returns the black-on-white mode change requested from the display, if any. */
    method TvXbusWrite(offset: int, v: bv32) returns (status: int, bow: Option<bv32>)
      requires Valid()
      modifies this
      ensures Valid()
      ensures status == 0 && bow == BowRequest(old(tvCsr), v)
      ensures Regs() == old(Regs()).(tvCsr := TvCsrWritten(v))
      ensures !xbusAsserted && unibusVector == old(unibusVector)
    {
      bow := BowRequest(tvCsr, v);
      tvCsr := TvCsrWritten(v);
      xbusAsserted := false;
      status := 0;
    }

    /** The host clock event: sets clock-ready in the CSR and raises the clock vector. */
    method IobSdlClockEvent()
      requires Valid()
      modifies this
      ensures Valid()
      ensures Regs() == old(Regs()).(kbdCsr := SetClockReady(old(kbdCsr)))
      ensures unibusVector == Some(CLOCK_VECTOR) && xbusAsserted == old(xbusAsserted)
    {
      kbdCsr := SetClockReady(kbdCsr);
      unibusVector := Some(CLOCK_VECTOR);
    }

    /** The per-cycle hook: unless a host timer drives the 60 Hz interrupt, posts it on
        every multiple of the tick length. */
    method IobPoll(cycles: nat)
      requires Valid()
      modifies this
      ensures Valid()
      ensures var fires := !timerTicks && PollFires(cycles);
        && Regs() == old(Regs()).(tvCsr := if fires then TvCsrPosted(old(tvCsr)) else old(tvCsr))
        && xbusAsserted == (old(xbusAsserted) || fires)
      ensures unibusVector == old(unibusVector)
    {
      if !timerTicks && PollFires(cycles) {
        TvPost60HzInterrupt();
      }
    }
  }

  /** A clock value as the C `unsigned long` holding it. */
  function Ulong(v: nat): bv64
    requires v < ULONG_MODULUS
  {
    v as bv64
  }

  /** The 60 Hz clock register reads as 0. */
  function Get60HzClock(): (r: bv32)
    ensures r == 0
  {
    0
  }

  /** Low 16 bits of a clock sample, as read at offset 0120. */
  function UsClockLow(cv: bv64): (r: bv32)
    ensures r <= 0xFFFF
    ensures r as bv64 == cv % 0x10000
  {
    (cv & 0xFFFF) as bv32
  }

  /** The bits of a clock sample above the low 16, as read at offset 0122. The result is an
      `unsigned int`, so of a sample of 2^48 or more the top bits are lost; below that, the
      two halves put back together give the sample. */
  function UsClockHigh(cv: bv64): (r: bv32)
    ensures r as bv64 == (cv >> 16) % 0x1_0000_0000
    ensures cv < 0x1_0000_0000_0000 ==> ((r as bv64) << 16) | (UsClockLow(cv) as bv64) == cv
  {
    ((cv >> 16) & 0xFFFF_FFFF) as bv32
  }

  /** Below 2^32 the two halves also fit back together in one `unsigned int`. */
  lemma UsClockHalves32(cv: bv64)
    requires cv < 0x1_0000_0000
    ensures (UsClockHigh(cv) << 16) | UsClockLow(cv) == cv as bv32
  {
  }

  /** Reading the clock's low half and then its high half returns the two halves of one
      sample, the one now cached. */
  method ReadUsClockPair(b: Board, now: TimeVal) returns (low: bv32, high: bv32)
    requires b.Valid() && IsTimeVal(now)
    modifies b
    ensures b.Valid()
    ensures b.cv == Ulong(TakeSample(old(b.Clock()), now, b.usClockTicks).v)
    ensures low == UsClockLow(b.cv) && high == UsClockHigh(b.cv)
    ensures b.cv < 0x1_0000_0000_0000 ==> ((high as bv64) << 16) | (low as bv64) == b.cv
  {
    low := b.UnibusRead(US_CLOCK_LOW, now);
    high := b.UnibusRead(US_CLOCK_HIGH, now);
  }

  /** Writing the CSR and reading it back returns the new enable bits over the old status bits,
      and the read changes nothing. */
  method WriteThenReadKbdCsr(b: Board, v: bv32, now: TimeVal) returns (r: bv32)
    requires b.Valid() && IsTimeVal(now)
    modifies b
    ensures b.Valid()
    ensures r == WriteKbdCsr(old(b.kbdCsr), v) && b.kbdCsr == r
    ensures b.Regs() == old(b.Regs()).(kbdCsr := r)
  {
    b.UnibusWrite(KBD_CSR, v);
    r := b.UnibusRead(KBD_CSR, now);
  }

  /** From a clear TV register: a 60 Hz post raises the flag and the line; writing 4 then leaves
      exactly 4, drops the line and asks the display for black-on-white mode. */
  method PostThenAcknowledge(b: Board) returns (bow: Option<bv32>)
    requires b.Valid() && b.tvCsr == 0
    modifies b
    ensures b.tvCsr == 4 && !b.xbusAsserted && bow == Some(1)
  {
    b.TvPost60HzInterrupt();
    assert b.tvCsr == TV_INTERRUPT && b.xbusAsserted;
    var status;
    status, bow := b.TvXbusWrite(0, 4);
  }
}
