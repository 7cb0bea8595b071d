/**
 * Bit-level behaviour of the CADR I/O board's registers: the keyboard scan word, the
 * keyboard/mouse control-status register (CSR) and the TV control register.
 * All three are 32-bit C words; `bv32` has the same bit patterns for the `int` and
 * `unsigned int` variables of the source.
 */
module Registers {
  import opened Wrappers

  // Unibus offsets decoded by the board (octal in the source).
  const KBD_LOW: int := 64        // 0100
  const KBD_HIGH: int := 66       // 0102
  const BEEP: int := 72           // 0110
  const KBD_CSR: int := 74        // 0112
  const US_CLOCK_LOW: int := 80   // 0120
  const US_CLOCK_HIGH: int := 82  // 0122
  const HZ60_CLOCK: int := 84     // 0124

  predicate IsMappedOffset(offset: int) {
    offset in {KBD_LOW, KBD_HIGH, BEEP, KBD_CSR, US_CLOCK_LOW, US_CLOCK_HIGH, HZ60_CLOCK}
  }

  /** Unibus interrupt vector of the clock (0274). */
  const CLOCK_VECTOR: int := 188

  const HALF_MASK: bv32 := 0xFFFF     // 0177777
  const CSR_WRITABLE: bv32 := 0xF     // 017: remote mouse, mouse int, kbd int, clock int enables
  const KBD_READY: bv32 := 0x20       // CSR bit 5
  const CLOCK_READY: bv32 := 0x40     // CSR bit 6
  const TV_BOW: bv32 := 0x4           // TV CSR bit 2: black-on-white mode
  const TV_INTERRUPT: bv32 := 0x10    // TV CSR bit 4: 60 Hz interrupt pending

  /** Low half of the keyboard scan word, as read at offset 0100. */
  function KeyScanLow(scan: bv32): (r: bv32)
    ensures r <= HALF_MASK
    ensures r == scan % 0x10000
  {
    scan & HALF_MASK
  }

  /** High half of the keyboard scan word, as read at offset 0102: together with the
      low half it gives back the whole word. */
  function KeyScanHigh(scan: bv32): (r: bv32)
    ensures r <= HALF_MASK
    ensures (r << 16) | KeyScanLow(scan) == scan
  {
    (scan >> 16) & HALF_MASK
  }

  /** The CSR after a read of a keyboard data register: kbd-ready is clear, every other bit kept. */
  function ClearKbdReady(csr: bv32): (r: bv32)
    ensures r & KBD_READY == 0
    ensures r | KBD_READY == csr | KBD_READY
  {
    csr & !KBD_READY
  }

  /** The CSR after a unibus write of `v`: the four enable bits come from `v`,
      the status bits 4 and up are kept. */
  function WriteKbdCsr(csr: bv32, v: bv32): (r: bv32)
    ensures r & CSR_WRITABLE == v & CSR_WRITABLE
    ensures r & !CSR_WRITABLE == csr & !CSR_WRITABLE
  {
    (csr & !CSR_WRITABLE) | (v & CSR_WRITABLE)
  }

  /** The CSR after a clock event: clock-ready is set, every other bit kept. */
  function SetClockReady(csr: bv32): (r: bv32)
    ensures r & CLOCK_READY != 0
    ensures r & !CLOCK_READY == csr & !CLOCK_READY
  {
    csr | CLOCK_READY
  }

  /** The TV CSR after an xbus write of `v`: the written value with the interrupt flag cleared. */
  function TvCsrWritten(v: bv32): (r: bv32)
    ensures r & TV_INTERRUPT == 0
    ensures r | TV_INTERRUPT == v | TV_INTERRUPT
  {
    v & !TV_INTERRUPT
  }

  /** The TV CSR after a 60 Hz interrupt is posted: the flag is set, every other bit kept. */
  function TvCsrPosted(csr: bv32): (r: bv32)
    ensures r & TV_INTERRUPT != 0
    ensures r & !TV_INTERRUPT == csr & !TV_INTERRUPT
  {
    csr | TV_INTERRUPT
  }

  /** The black-on-white mode change an xbus write of `v` requests from the display,
      if any: one exactly when bit 2 changes, carrying the new bit as 0 or 1. */
  function BowRequest(tvCsr: bv32, v: bv32): (r: Option<bv32>)
    ensures r.Some? <==> tvCsr & TV_BOW != v & TV_BOW
    ensures r.Some? ==> r.value <= 1 && (r.value == 1 <==> v & TV_BOW != 0)
  {
    if tvCsr & TV_BOW != v & TV_BOW then Some((v & TV_BOW) >> 2) else None
  }

  /** Posting the 60 Hz interrupt twice leaves the TV CSR as posting it once. */
  lemma TvCsrPostedIdempotent(csr: bv32)
    ensures TvCsrPosted(TvCsrPosted(csr)) == TvCsrPosted(csr)
  {
  }

  /** A later CSR write replaces the enable bits of an earlier one entirely. */
  lemma WriteKbdCsrOverwrites(csr: bv32, v: bv32, w: bv32)
    ensures WriteKbdCsr(WriteKbdCsr(csr, v), w) == WriteKbdCsr(csr, w)
  {
  }

  /** Writing back what the TV CSR holds after a post acknowledges the interrupt,
      leaves every other bit as it was before the post and requests no mode change. */
  lemma WriteAcknowledgesPost(csr: bv32)
    ensures TvCsrWritten(TvCsrPosted(csr)) == TvCsrWritten(csr)
    ensures BowRequest(TvCsrPosted(csr), TvCsrPosted(csr)).None?
  {
    var p := csr | TV_INTERRUPT;
    assert (p & !TV_INTERRUPT) == (csr & !TV_INTERRUPT);
  }

  /** When no interrupt was pending, a post followed by writing back the posted register
      restores the register exactly. */
  lemma WriteBackRestoresIdle(csr: bv32)
    requires csr & TV_INTERRUPT == 0
    ensures TvCsrWritten(TvCsrPosted(csr)) == csr
  {
    WriteAcknowledgesPost(csr);
    assert csr & !TV_INTERRUPT == csr;
  }
}
