# CADR I/O board registers, in Dafny

This project models the register-level behaviour of the simulated CADR I/O board of the
`usim` emulator (`usim/iob.c`): the unibus register file the processor reads and writes at
offsets 0100-0124 (keyboard scan word, keyboard/mouse CSR, microsecond clock, 60 Hz clock
stub), the TV control register on the xbus with its 60 Hz interrupt flag, and the two
60 Hz pulse sources (the wall-clock microsecond counter and the polled cycle counter).

Layout:

- `wrappers.dfy` — module `Wrappers`: `Option`.
- `registers.dfy` — module `Registers`: the unibus offsets (given in decimal; the source
  writes them in octal: 0100 = 64, 0102 = 66, 0110 = 72, 0112 = 74, 0120 = 80, 0122 = 82,
  0124 = 84, vector 0274 = 188) and the bit-level functions for each register update,
  on `bv32` words as in the C source.
- `us_clock.dfy` — module `UsClock`: the elapsed-time computation with its one-second
  borrow and its `unsigned long` wrap-around, one clock sample with its 60 Hz pulse
  decision (`TakeSample`), runs of samples (`Run`) and the polled tick (`PollFires`).
- `io_board.dfy` — module `IoBoard`: class `Board`, whose fields are the file's
  process-wide registers (`iob_key_scan`, `iob_kbd_csr`, `tv_csr`, the cached sample `cv`,
  the clock origin and `last_hz60`) plus two ghost fields for the xbus interrupt line and
  the last vector asserted on the unibus; one method per C function, each stating the whole
  new state in terms of the functions above. Three client methods at the end compose them.

The compile-time choice of the 60 Hz source is given to the `Board` constructor as two
flags: `usClockTicks` (the `USE_US_CLOCK_FOR_60HZ` macro: the microsecond clock posts
pulses) and `timerTicks` (the `USE_SIGVTARLM_FOR_60HZ` macro: a host timer posts them and
polling does not). The host time is a `TimeVal` parameter of every operation that samples
the clock.

Facts about the code that a reader might expect otherwise, each stated in the model or under "## Left out":

- A unibus write to offset 0110 only traces; it does not beep (only a read beeps). The beep itself is a host effect and is not modelled (see "## Left out"), so in the model both accesses leave the board unchanged.
- The 60 Hz period is 16000 microseconds (and 80000 cycles of 200 ns), i.e. 62.5 pulses per
  second, not 60: `UsClock.OneSecondOfMillisecondSamples` proves that sampling every
  millisecond for one second posts 62 pulses.
- The microsecond clock does not keep a steady 60 Hz pulse rate when it is sampled rarely:
  a sample jumps `last_hz60` straight to its own window (usim/iob.c:149-151), so the windows
  in between are dropped rather than caught up later, and the pulse rate follows the
  sampling rate. `UsClock.UndersampledRunDropsWindows` proves that samples two or more
  windows apart post exactly one pulse each, and `UsClock.ThreeSamples32msApart` that three
  samples 32 ms apart post 3 pulses while 6 windows pass.
- A read of 0122 without a preceding read of 0120 returns the high bits of whatever sample
  was cached last (zero before the first one); nothing forbids it.

## Model

| member | source | states |
|---|---|---|
| `Registers.KeyScanLow` | usim/iob.c:192-196 | offset 0100 reads the low 16 bits of the scan word |
| `Registers.KeyScanHigh` | usim/iob.c:197-201 | offset 0102 reads a 16-bit value that, shifted up and joined with the low half, gives back the whole scan word |
| `Registers.ClearKbdReady` | usim/iob.c:195 | a keyboard data read clears CSR bit 5 whatever its prior value and keeps every other bit |
| `Registers.WriteKbdCsr` | usim/iob.c:246-250 | a CSR write takes bits 0-3 from the written value and keeps bits 4 and up |
| `Registers.WriteKbdCsrOverwrites` | usim/iob.c:248-249 | a second CSR write wholly replaces the enable bits of the first |
| `Registers.SetClockReady` | usim/iob.c:310 | the clock event sets CSR bit 6 and keeps every other bit |
| `Registers.TvCsrWritten` | usim/iob.c:289-290 | after an xbus write the TV CSR is the written value with bit 4 clear |
| `Registers.TvCsrPosted` | usim/iob.c:303 | a 60 Hz post sets bit 4 and keeps every other bit |
| `Registers.TvCsrPostedIdempotent` | usim/iob.c:300-305 | posting twice leaves the TV CSR as posting once |
| `Registers.BowRequest` | usim/iob.c:284-288 | a mode change is requested exactly when bit 2 of the written value differs from the register's, and it carries 1 exactly when the new bit 2 is set |
| `Registers.WriteAcknowledgesPost` | usim/iob.c:280-305 | writing back the posted register clears the flag, gives the pre-post value with bit 4 clear and requests no mode change |
| `Registers.WriteBackRestoresIdle` | usim/iob.c:280-305 | when no interrupt was pending before the post, writing back the posted register restores the pre-post value exactly |
| `UsClock.Difference` | usim/iob.c:136-141 | the borrow-normalised difference has microseconds in [0, 1000000), equals `now - origin` in microseconds, and has non-negative seconds exactly when `now` is not earlier than the origin |
| `UsClock.Elapsed` | usim/iob.c:140-144 | the elapsed value is `now - origin` in microseconds modulo 2^64, and exactly `now - origin` when that lies in [0, 2^64) |
| `UsClock.ElapsedMonotone` | usim/iob.c:140-144 | while the host time does not go backwards and stays within 2^64 microseconds of the origin, the clock value never decreases |
| `UsClock.TakeSample` | usim/iob.c:119-162 | the first sample records the origin, resets the last window and reads 0; a later one reads the elapsed time and posts a pulse exactly when the microsecond clock drives the 60 Hz interrupt and the sample's window is past the last one, which then moves to it and never back |
| `UsClock.RunPostsNoBacklog` | usim/iob.c:147-152 | over any run of samples the origin stays, at most one pulse is posted per sample, and the last window advances by at least the number of pulses, so no backlog of pulses accumulates |
| `UsClock.OversampledRunPostsEveryWindow` | usim/iob.c:147-152 | sampled at least once per 16 ms window, the clock skips no window: the run posts exactly one pulse per window it enters |
| `UsClock.UndersampledRunDropsWindows` | usim/iob.c:147-152 | with samples at least two windows apart, every sample posts exactly one pulse while the last window advances to the sample's window, by at least two per sample |
| `UsClock.ThreeSamples32msApart` | usim/iob.c:147-152 | a first sample and three more 32 ms apart post 3 pulses and leave the last window at 6 |
| `UsClock.OneSecondOfMillisecondSamples` | usim/iob.c:147-152 | a first sample and then one per millisecond for one second post 62 pulses |
| `UsClock.FiresBelowCount` | usim/iob.c:326 | over the cycle counts 0 .. n-1 the poll fires once per started 80000-cycle tick |
| `IoBoard.Get60HzClock` | usim/iob.c:179-182 | the 60 Hz clock register reads 0 whatever the board's state |
| `IoBoard.Board.constructor` | usim/iob.c:30-31 | at start every register (`iob_key_scan`, `iob_kbd_csr` at lines 30-31, `tv_csr` at line 270, `cv` at line 164), the origin `tv` and the last window `last_hz60` (lines 124-125) are zero and no line is asserted; every method keeps the xbus line asserted exactly while TV CSR bit 4 is set (`Valid`) |
| `IoBoard.Board.TvPost60HzInterrupt` | usim/iob.c:300-305 | sets TV CSR bit 4, asserts the xbus interrupt, changes nothing else |
| `IoBoard.Board.GetUsClock` | usim/iob.c:119-162 | returns the sample `TakeSample` defines, stores its clock state, and posts the 60 Hz interrupt exactly when it says so |
| `IoBoard.Board.GetUsClockLow` | usim/iob.c:166-171 | takes a fresh sample, caches it in `cv` and returns its low 16 bits |
| `IoBoard.Board.GetUsClockHigh` | usim/iob.c:173-177 | returns the high bits of the cached sample without sampling again |
| `IoBoard.Board.UnibusRead` | usim/iob.c:185-225 | per offset: 0100/0102 return the scan halves and clear kbd-ready only; 0112 returns the CSR; 0120 samples and caches the clock; 0122 returns the cached high half; 0110, 0124 and every unmapped offset read 0; all of these except 0120 leave the interrupt lines alone, and no register changes beyond those named |
| `IoBoard.Board.UnibusWrite` | usim/iob.c:227-263 | a write to 0112 changes only the CSR's low four bits; a write to any other offset changes no register and no line |
| `IoBoard.Board.TvXbusRead` | usim/iob.c:272-278 | returns the TV CSR and status 0, changing nothing |
| `IoBoard.Board.TvXbusWrite` | usim/iob.c:280-293 | stores the written value with bit 4 clear, deasserts the xbus interrupt and returns the mode-change request `BowRequest` computes from the old register |
| `IoBoard.Board.IobSdlClockEvent` | usim/iob.c:307-312 | sets CSR bit 6 and asserts unibus vector 0274, nothing else |
| `IoBoard.Board.IobPoll` | usim/iob.c:321-330 | posts the 60 Hz interrupt exactly when no host timer does and the cycle count is a multiple of 80000 |
| `IoBoard.UsClockLow` | usim/iob.c:166-171 | the low half is below 0x10000 and is the sample modulo 0x10000 |
| `IoBoard.UsClockHigh` | usim/iob.c:173-177 | the high half is the sample shifted right 16 truncated to 32 bits; for a sample below 2^48 the two halves rebuild it |
| `IoBoard.UsClockHalves32` | usim/iob.c:164-177 | for a sample below 2^32, the high half shifted left 16 and or-ed with the low half in 32 bits is the sample |
| `IoBoard.ReadUsClockPair` | usim/iob.c:210-217 | reading 0120 then 0122 returns exactly the low and the high half of one and the same sample, the one now cached, and below 2^48 the pair rebuilds it |
| `IoBoard.WriteThenReadKbdCsr` | usim/iob.c:206-249 | a CSR write followed by a CSR read returns the new enable bits over the old status bits, and the read changes nothing |
| `IoBoard.PostThenAcknowledge` | usim/iob.c:280-305 | from a clear TV CSR, a post then a write of 4 leaves 4, the line deasserted and a black-on-white request of 1 |

## Left out

- Host time: `gettimeofday` becomes the `now: TimeVal` parameter; a failing host clock is not modelled.
- Tracing (`traceio`, `printf`) and the host beep (`fprintf(stderr, "\a")`) have no effect on the board and are not modelled.
- IoBoard.Board.UnibusRead: the host beep on a read of offset 0110 is not represented, since it changes no register.
- The external collaborators `sdl_set_bow_mode`, `assert_xbus_interrupt`, `deassert_xbus_interrupt` and `assert_unibus_interrupt` are an out-parameter (`bow`) and two ghost fields; `kbd_init` is not part of this model.
- `sigalrm_handler` and the interval-timer setup in `iob_init` deliver `TvPost60HzInterrupt` asynchronously from a host signal; only the effect of the post itself is modelled, not the signal delivery or its concurrency with the main loop.
- The cycle-derived microsecond clock (usim/iob.c:155-159) is not modelled: `US_CLOCK_IS_WALL_CLOCK` is always defined (line 110), so that branch is never compiled.
- Conditional compilation is replaced by the two constructor flags; the `DISPLAY_SDL` guard around the mode-change call is taken as set, so `TvXbusWrite` always returns the request.
- `hz60` is declared outside this file; it is treated as a local of `GetUsClock`.
- `unsigned long` is taken as 64 bits, as on Linux and macOS, where the microsecond clock does not drive the 60 Hz interrupt. The 32-bit `unsigned long` of the `_WIN32` build (usim/iob.c:115-117), the only one where it does, is not modelled: there `v` wraps after 2^32 microseconds (about 71.6 minutes), after which the source posts at most 268435 − `last_hz60` more pulses (268435 being the largest window before the wrap): at most one if the clock was read in each of the last windows before the wrap, and more if it was read rarely. Also, seconds and microseconds of the host time are unbounded integers, so a `time_t` overflow is not modelled.
- The unibus read value (a C `int`) is the 32-bit pattern of the register; its signed reading is not modelled.
- The keyboard code that writes the scan word and sets the ready bits lives outside this file; those fields are public and may be assigned directly.
- The mouse registers at 0104/0106 are commented out in the source and are not modelled.
