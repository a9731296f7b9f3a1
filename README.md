# Platform measurement-and-control layer for an STM32F2 side-channel target

This project models, in Dafny, the part of the board-support layer that has
decisions in it:

- the **cycle counter**: the one-way enable routine over the ARMv7-M debug
  registers (DEMCR.TRCENA, the DWT presence check, DWT_CTRL.NOCYCCNT,
  DWT_CTRL.CYCCNTENA, DWT_CYCCNT), its reset and its 64-bit raw read;
- the **trigger pin** that measurement equipment synchronises on, and the
  **attribute dispatcher** that drives it from a batch of platform attributes,
  stopping at the first trigger tag;
- the **random fill**, which packs words drawn from a 32-bit generator into a
  byte buffer of any length, little-endian while more than four bytes remain
  and with its own order for the last word;
- the **start-up sequence** over those parts;
- the C-runtime **system-call stubs**: the `_sbrk` heap bump allocator and the
  file-descriptor calls that have no target on this board.

Files, one module each: `search.dfy` (first-match search shared by the polls
and the dispatcher), `cycle_counter.dfy`, `trigger.dfy`, `random_fill.dfy`,
`platform.dfy`, `newlib_stubs.dfy`.

Modelling choices:

- Registers and the pin are fields of classes (`CycleCounter.Dwt`,
  `Trigger.TriggerLine`); the two read-only hardware bits (DWT present,
  NOCYCCNT) are `const` fields.
- The two polling loops of the enable routine have no bound in the code. Here
  the values they read back are parameters (`enaReads`, `ticks`), and the
  hardware guarantee that each poll ends is the precondition
  `PollsSettle`, required only on the path that reaches the polls.
- `CycleCounter.Dwt` carries a ghost log, `accesses`, with one entry per read
  or write of a DWT register: which access it was (`DwtOp`) and whether TRCENA
  was set at that moment. Small accessor methods (`ReadNoCycCnt`, `SetCyccnt`,
  `SetCycCntEna`, `PollCycCntEna`, `PollCyccnt`) are the only code that touches
  a DWT register, and each appends its own entries, so the enable routine's
  contract can state the exact order of its accesses.
- The generator `xorshift32_u32` is declared in `src/platform.c` but defined
  elsewhere. It is the transition `step`, a function-valued field of
  `RandomFill.RandomSource`; each draw moves the state to `step(state)` and
  emits the new state. A ghost counter records how many draws were made.
- The union that overlays the drawn word with four bytes is byte extraction
  by shift and mask: `aschar[j]` is `ByteOf(w, j)`, byte `j` counted from the
  least significant, as on the little-endian Cortex-M3.
- Addresses (`end`, the stack pointer, the break) are integers; `errno` and
  `heap_end` are fields of `NewlibStubs.Runtime`; errno values and `S_IFCHR`
  are newlib's (ENOMEM 12, ENOSYS 88, S_IFCHR 0020000). The first `_sbrk` call
  records `end` before the bound check, so even a failed first call leaves the
  break initialised.

Behaviour of the code worth knowing, which the model keeps as written:

- The bulk loop runs while **more than** four bytes remain (`len > 4`), so a
  length that is a multiple of four sends its last word through the tail path.
  A four-byte request therefore writes its one word high-order byte first
  (`RandomFill.FillExamples`).
- The tail writes `aschar[r-1]` down to `aschar[0]`: it keeps the **low-order**
  `r` bytes of the last word, higher-order first, and discards the high-order
  bytes.
- The "already enabled" latch of `cyclecount_init` is the TRCENA bit itself. The
  `cycle_cnt_initialized` flag is declared and never read or written.
- Because of that latch, the routine returns true whenever TRCENA is already set,
  whether or not CYCCNTENA is. After a first call that failed on NOCYCCNT (it
  leaves TRCENA set), a second call returns true with the counter never started;
  so does a first call when a debugger has already set TRCENA. Its own comment
  (src/platform.c:115-116) promises true only when cycle counting was enabled.
  `CycleCounter.InitTwice` states the second-call outcome exactly as the code
  gives it.

## Model

| member | source | states |
|---|---|---|
| CycleCounter.Dwt.Init | src/platform.c:119-155 | TRCENA already set: returns true, no register changes. DWT absent: returns false, nothing changes. NOCYCCNT set: returns false with TRCENA now set, CYCCNT and CYCCNTENA untouched. Otherwise: returns true, CYCCNTENA is set and CYCCNT holds the first non-zero value the poll saw, and its DWT accesses are exactly, in order, the NOCYCCNT read of CTRL, CYCCNT written 0, the read and write-back of CTRL setting CYCCNTENA, then one CTRL read per CYCCNTENA poll and one CYCCNT read per start poll (`EnableAccesses`). The result is true iff TRCENA was set or the counter is present; TRCENA is never cleared and ends set iff it was set or DWT is present. Every DWT register access it makes happens with TRCENA set and earlier log entries are kept; the early returns make none and the NOCYCCNT path makes exactly the one CTRL read |
| CycleCounter.Dwt.ReadNoCycCnt | src/platform.c:135 | returns the NOCYCCNT bit and logs one CTRL read with the current TRCENA |
| CycleCounter.Dwt.SetCyccnt | src/platform.c:140 | CYCCNT becomes the value written and one CYCCNT write of that value is logged |
| CycleCounter.Dwt.SetCycCntEna | src/platform.c:145 | CYCCNTENA becomes set and a CTRL read then a CTRL write are logged (the read-modify-write of `\|=`) |
| CycleCounter.Dwt.PollCycCntEna | src/platform.c:148 | returns the read-back value and logs one CTRL read |
| CycleCounter.Dwt.PollCyccnt | src/platform.c:151 | returns the read-back count, CYCCNT holds it, and one CYCCNT read is logged |
| CycleCounter.Dwt.AwaitCycCntEna | src/platform.c:147-149 | the poll stops at the first read-back showing CYCCNTENA set; it logs exactly that many plus one CTRL reads and changes no register |
| CycleCounter.Dwt.AwaitTick | src/platform.c:150-152 | the poll stops at the first non-zero read-back, which CYCCNT then holds; it logs exactly that many plus one CYCCNT reads |
| CycleCounter.EnableTraced | src/platform.c:130-152 | the access sequence of a full enable, appended to any log, keeps the earlier entries and has TRCENA set at every new entry |
| CycleCounter.InitTwice | src/platform.c:119-137 | a second enable call succeeds exactly when the first got past the presence check, including after a NOCYCCNT failure; the first succeeds iff TRCENA was set or the counter is present, so after a NOCYCCNT failure the first returns false and the second true; a first success implies a second success; afterwards TRCENA, CYCCNTENA and CYCCNT are what a single call leaves: TRCENA set iff it was or DWT is present, and on the full-enable path CYCCNTENA set and CYCCNT the first non-zero tick, otherwise both unchanged |
| CycleCounter.Dwt.Reset | src/platform.c:88-91 | CYCCNT becomes its reset value 0, no other register changes, and the write is logged as one CYCCNT write of 0 with the TRCENA value at that moment |
| CycleCounter.Dwt.CpuCycleCount | src/platform.c:221-227 | the result equals CYCCNT and its upper 32 bits are zero, so it wraps at 2^32 |
| Search.First | src/platform.c:148-152 | when some element satisfies the test, the result indexes one that does and no earlier element does (the element a poll stops at) |
| Trigger.TriggerLine.Init | src/platform.c:160-171 | the pin ends Low |
| Trigger.TriggerLine.High | src/platform.c:174 | the pin ends High |
| Trigger.TriggerLine.Low | src/platform.c:177 | the pin ends Low |
| Trigger.Dispatch | src/platform.c:201-219 | a batch reports success iff it holds a trigger tag; on success the level is the one driven by the first trigger tag; on a miss the level is unchanged |
| Trigger.DispatchSkipsInert | src/platform.c:203-207 | clock tags and unknown tags in front of a batch do not change its outcome |
| Trigger.DispatchStopsAtTrigger | src/platform.c:208-213 | entries after the first trigger tag do not change the outcome |
| Trigger.DispatchExamples | src/platform.c:201-219 | [ClockUserspace, TriggerHigh, TriggerLow] leaves the pin High; [ClockUserspace, ClockMax] and the empty batch are misses that leave the level alone |
| Trigger.TriggerLine.SetAttr | src/platform.c:201-219 | result and new level are `Dispatch` of the first `n` entries; true iff one of `attr[0..n)` is a trigger tag; level unchanged when false |
| RandomFill.ByteOfShift | src/platform.c:233-236 | `ByteOf(w, j)`, the union's `aschar[j]`, is the word shifted right by `8j` bits and masked to its low 8 bits |
| RandomFill.UnionOverlay | src/platform.c:233-236 | the four bytes `ByteOf(w, 0..3)` that stand for `aschar[0..3]` overlay `asint`: placed at bits 0, 8, 16 and 24 they make up the word again |
| RandomFill.DrawCount | src/platform.c:240-252 | a request of `len` bytes draws ceil(len/4) words, and none iff `len` is 0 |
| RandomFill.TailBytes | src/platform.c:249-251 | the `r` tail bytes are `aschar[r-1]` down to `aschar[0]` of the last word |
| RandomFill.Fill | src/platform.c:240-252 | the bytes produced for a request number exactly `len` |
| RandomFill.FillBulkAt | src/platform.c:240-247 | byte `i` of the bulk part is byte `i % 4` of word `i / 4`, little-endian |
| RandomFill.FillTailAt | src/platform.c:248-252 | byte `i` of the last 1 to 4 bytes is byte `len - 1 - i` of the last word drawn |
| RandomFill.FillExamples | src/platform.c:240-252 | 0 bytes: nothing; 3 bytes: bytes 2, 1, 0 of the one word; 4 bytes: bytes 3, 2, 1, 0 of the one word; 7 bytes: the first word little-endian, then bytes 2, 1, 0 of the second |
| RandomFill.Stream | src/platform.c:241 | `k` draws emit `k` words |
| RandomFill.StreamAt | src/platform.c:241 | the `i`-th word drawn is the generator state after `i + 1` transitions |
| RandomFill.StreamSplit | src/platform.c:35-249 | drawing `a` words then `b` words is drawing `a + b` words from the same start: a later call continues where the previous one left the state |
| RandomFill.RandomSource.Draw | src/platform.c:35 | one generator call advances the state by one transition, returns the new state and counts one draw |
| RandomFill.PutWord | src/platform.c:242-245 | writes the word's bytes 0 to 3 at `pos..pos+4` and nothing else |
| RandomFill.PutTail | src/platform.c:249-251 | writes the word's bytes `r-1` down to 0 at `pos..pos+r` and nothing else |
| RandomFill.RandomSource.PutNextWord | src/platform.c:241-246 | one bulk pass: one draw, the next four bytes written little-endian from it, nothing else written |
| RandomFill.RandomSource.GetRandom | src/platform.c:232-255 | returns 0; makes exactly ceil(len/4) draws; the state advances by that many transitions; `out[0..len)` is `Fill` of the words drawn; bytes from `len` on are unchanged |
| RandomFill.GetRandomTwice | src/platform.c:232-255 | two fills of distinct buffers in a row draw one continuous stream: the first buffer holds `Fill` of the first words drawn, the second holds `Fill` of the words that follow them, and the state has advanced by both draw counts |
| Platform.PlatformInit | src/platform.c:185-199 | returns 0 whatever the cycle counter does; the pin ends Low; TRCENA ends set iff it was or DWT is present; on the full-enable path CYCCNTENA is set and CYCCNT holds the first non-zero tick, on every other path both are unchanged |
| NewlibStubs.Runtime.Sbrk | src/CMSIS/startup_gnu/newlib_stubs.c:21-38 | if the break plus `incr` stays at or below the stack pointer: returns the previous break, the break moves by exactly `incr` (down for a negative `incr`), ends at or below the stack pointer, errno untouched; otherwise returns -1, sets errno to ENOMEM and leaves the break at its current value |
| NewlibStubs.SbrkTwice | src/CMSIS/startup_gnu/newlib_stubs.c:29-37 | two requests that both fit: the first returns the break in force before it, the second returns that plus the first increment, and the break ends moved from the starting one by the sum |
| NewlibStubs.Runtime.Write | src/CMSIS/startup_gnu/newlib_stubs.c:40-46 | returns -1, errno becomes ENOSYS, nothing else changes |
| NewlibStubs.Runtime.Read | src/CMSIS/startup_gnu/newlib_stubs.c:48-54 | returns -1, errno becomes ENOSYS, nothing else changes |
| NewlibStubs.Runtime.Close | src/CMSIS/startup_gnu/newlib_stubs.c:56-60 | returns -1, errno becomes ENOSYS, nothing else changes |
| NewlibStubs.Runtime.Lseek | src/CMSIS/startup_gnu/newlib_stubs.c:61-67 | returns -1, errno becomes ENOSYS, nothing else changes |
| NewlibStubs.Runtime.Fstat | src/CMSIS/startup_gnu/newlib_stubs.c:69-73 | `st_mode` becomes S_IFCHR, returns 0, errno untouched |
| NewlibStubs.Runtime.Isatty | src/CMSIS/startup_gnu/newlib_stubs.c:74-77 | always returns 1 |

## Left out

- UART set-up and character I/O (`uart1_init`, `platform_getch`, `platform_putchar`, `_putchar`): transfers through vendor HAL calls whose bodies are not part of this model.
- Trigger.TriggerLine.Init: the GPIO clock enable and the `HAL_GPIO_Init` push-pull configuration of PA12 are vendor HAL calls whose bodies are not part of this model; only the level written to the pin is modelled.
- `SysTick_Handler` and the millisecond counter: interrupt context; nothing modelled here reads the counter.
- `hal_init` (src/stm32f2_hal.c) and `setup_rng`: external calls; `PlatformInit` marks where they run and models neither.
- The `platform_op_mode_t` argument of `platform_init`: the code never reads it.
- `platform_sync`: an empty function.
- The generator's internals: the transition is abstract, so no property of xorshift32 (no zero state, full period) is stated.
- CycleCounter.Dwt.Init: a poll that never ends (hardware that never sets CYCCNTENA or never ticks) is excluded by the precondition `PollsSettle` instead of modelled as a hang.
- CycleCounter.Dwt.CpuCycleCount: its read of DWT_CYCCNT is not recorded in the access log, and the counter does not tick between calls in the model; the field holds the last value written or seen by the enable routine, so monotonicity between two reads is not stated.
- Trigger.TriggerLine.SetAttr: the attribute header is not part of this model, so tag values are the datatype `Attr`, with every value outside the four named tags as `Unknown`; the caller's `n` not exceeding the array is a precondition.
- RandomFill.RandomSource.GetRandom: a buffer shorter than `len` is excluded by the precondition; `len` is unbounded rather than a 32-bit `unsigned`, which changes nothing since the code only decrements it.
- RandomFill.RandomSource.Draw: the ghost counter records how many words were drawn; which words they were follows from the state through `Stream`.
- Host byte order of the union: fixed to little-endian.
- NewlibStubs.Runtime.Sbrk: addresses are unbounded integers, so the 32-bit pointer wrap-around of `heap_end + incr` is not modelled, and `end` and the stack pointer are parameters rather than the linker symbol and the `sp` register.
- NewlibStubs.Runtime.Write and NewlibStubs.Runtime.Read: the unused `buf` argument is dropped.
