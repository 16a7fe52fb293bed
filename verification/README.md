# nsystem: models and proofs

Dafny models of the parts of nsystem (an embedded sensor, LED and motor application with its Linux kernel
drivers) whose behaviour is more than plumbing, with proofs about every input, every run or every interleaving.

| file | models |
|---|---|
| `CInt.dfy` | C words, arithmetic shifts, truncating division |
| `SwitchTable.dfy`, `GestureGrammar.dfy` | the push-switch transition table; the six gestures as a grammar |
| `LedBar.dfy` | the shifting register `cur_led` and the outputs it drives |
| `TimedSwitch.dfy`, `SimpleSwitch.dfy` | the switch thread with its clock: as a function of its observations, and as the object that updates `state`, `pre_jiffies`, `cur_led` and the GPIOs in place |
| `SwitchClock.dfy` | counter wrap-around, two-press gestures, the time budget |
| `HoldDecoding.dfy`, `DocumentedGuard.dfy` | decoding at a fixed sampling period, with the guard as coded and as documented |
| `LedPatterns.dfy`, `LedDelivery.dfy`, `LedUpdates.dfy` | the LED pattern thread, its wait queue and its writers as interleaved steps; what becomes of a stored flag, and how many LED updates it leads to |
| `LedPictures.dfy` | what each LED update shows, pin by pin, and when pattern 6 makes one |
| `Bmp280Trim.dfy`, `Bmp280Temperature.dfy`, `Bmp280Pressure.dfy`, `Bmp280Accuracy.dfy` | BMP280 register formats and compensation arithmetic |
| `Bmp280Steps.dfy`, `Bmp280Order.dfy` | the steps of the temperature's squared term, and when they keep its order |
| `Decimal.dfy`, `SensorText.dfy`, `Bmp280.dfy` | decimal text, the sensor text and its scanner, the driver's periodic work |
| `SensorHandoff.dfy` | shared cell, message queue and monitor as interleaved steps |
| `ParseArgs.dfy` | `strtok` and `parse_args`, in place |
| `Engine.dfy` | motor speed set, show and read-back |

## What comes out

* **Two-press gestures.** Line 297 of the switch driver raises TIMEOUT while less than 500 ms have passed since
  SHORT or LONG was entered; drivers/simple_switch/README.md:37-38 and 46-47 ask for it after 500 ms without input.
  The model follows the code. As coded, with samples less than 500 ms apart, no run ever recognises a
  two-press gesture, and that bound is exact (`TwoPressExactly`). A hold is decoded as repeated long presses
  (`HoldsDecodeExactly`). `DocumentedGuard.dfy` is a second instance with the documented guard; there a single long
  hold already counts as a two-press gesture (`DocumentedHold`), because LONG still sees the first press.
* **The bar.** After 32 net short presses `cur_led` is -1, which a double short press no longer shrinks. That is the
  one case in which a double short press does not take back a short press (`ReverseUndoesStraight`).
* **Clock.** For every tick length and word size the sampling gaps up to which wrap-around of `jiffies` is invisible are
  exact: below 500 ms with the coded guard (`WrapHiddenExactly`), where a waiting state that reaches 500 ms never ends
  on an ideal clock; up to 1000 ms short of 2^32 ms, in whole ticks, with the documented one
  (`DocumentedWrapHiddenExactly`).
* **LED thread.** KEY and NEXT are never missed by a blocked thread. Elsewhere a stored NEXT or EXIT can be seen if and
  only if the thread is not already past its last look at the flag and bound to store WAIT first
  (`StoreSeenExactly`): NEXT is lost at the entry of every pattern, at the store of WAIT before the loops of patterns 4
  to 6, and in patterns 1 to 3 from the end of the first operand of the flag test up to the store of WAIT after the next
  LED update. EXIT is lost at the same points but for the second operand of the test, and the EXIT of the write
  handler's default branch also when the thread is asleep and no other wake-up is owed. Module exit wakes the thread.
  A KEY is worth one more LED update if and only if it is stored while the thread is in the wait
  (`KeyUpdatesExactly`).
* **Temperature order.** With k = t2 / 2048, `fine` follows the raw code for all trims with this k and t3 if and only if
  |t3| is at most 1024 k, or (k, t3) is (3, -3073), (5, -5121), (9, -9217), (13, -13315) or (15, -15361)
  (`TemperatureOrderExactly`). The reading, which rounds `fine`, also keeps its order at the same five pairs with a
  positive t3, where `fine` falls at one step (`ReadingMonotone`); one unit of t3 past the bound it can fall on either
  side.
* **Pressure order.** In the calibration box the compensated value never rises with the raw code, below a dividend of
  zero as above it, and the reading is everywhere the exact formula's value cut to whole units, or that and 2^24 where
  it is negative (`PressureAccurate`). The reading does rise where the value turns negative and wraps in the u32 cast, and there are such
  trims in the box (`PressureMonotone`, `PressureCanRise`).
* **Sensor text.** `%d.%d` drops the leading zero of one to nine hundredths and prints a second minus sign for a
  negative fraction. What the sensor thread then reads is exact (`ScanReads`): such hundredths come back as tenths, and
  below zero a temperature with hundredths is cut to its whole part while its negated hundredths are taken for the
  pressure.
* **Staleness.** The monitor can read values up to `MSG_COUNT + 1` samples newer than the message in hand, and a
  temperature from one sample with the pressure of the one before. C leaves open which field of a pair is read first;
  the second can be up to `MSG_COUNT + 1` samples newer than the first.
* **Speed read-back.** Four characters of text are kept, so of the speeds an ioctl can set only 10000 reads back
  wrong, as 1000.

Conventions: `>>` is floor division; arithmetic that C performs in a 32- or 64-bit word is wrapped explicitly
(`S32`, `S64`, `U32`); `long` and `s64` have 64 bits; the literal `1 << 47` of the pressure code is taken as the
64-bit power it stands for. Jiffies advance by a whole number of milliseconds (any HZ dividing 1000) in an
unsigned long of 32 or 64 bits. GPIO inputs, sensor bytes and clock readings are arbitrary inputs.

## Model

| member | source | states |
|---|---|---|
| GestureGrammar.ReadingUnique | drivers/simple_switch/simple_switch.c:106-147 | every word over OFF, ON, TIMEOUT splits into idle samples, gestures and one unfinished gesture in exactly one way |
| GestureGrammar.TableReadsGestures | drivers/simple_switch/simple_switch.c:106-147 | on every word the table loop performs, in order, exactly the LED actions of the gestures the grammar reads, and stops in the phase of the unfinished one |
| GestureGrammar.LedActionsEndGestures | drivers/simple_switch/simple_switch.c:117-147 | whenever a LED action is performed a gesture has just completed and the state is ST_INIT |
| LedBar.Thermometer | drivers/simple_switch/simple_switch.c:234-274 | after any action sequence the 32-bit register is 2^h - 1 with h at most 31, or -1, following a saturating height counter, and the eight outputs are a left prefix of length min(h, 8) |
| LedBar.BarOutputs | drivers/simple_switch/simple_switch.c:212-219 | truncated to unsigned char and shifted bit by bit, a bar of height h lights exactly those of the eight outputs below h |
| LedBar.AllOnesAbsorbs | drivers/simple_switch/simple_switch.c:234-253 | once the register is -1, short and double short presses never change it |
| LedBar.ReverseUndoesStraight | drivers/simple_switch/simple_switch.c:234-253 | a double short press restores the register of before a short press if and only if that was not 2^31 - 1 |
| TimedSwitch.RunReadsGestures | drivers/simple_switch/simple_switch.c:287-308 | any timed run, with either guard and any clock, performs the gestures of its classified inputs, and its register shows their thermometer |
| TimedSwitch.EntryTime | drivers/simple_switch/simple_switch.c:229-232 | a step that enters a timed state stamps it with the clock reading of its action, in the counter's word; no other step changes the stamp |
| SimpleSwitch.SwitchDriver.SetBitLed | drivers/simple_switch/simple_switch.c:212-219 | the loop sets the eight outputs to the bits of its argument |
| SimpleSwitch.SwitchDriver.Act | drivers/simple_switch/simple_switch.c:226-285 | each action's effect on the time stamp, the register and the log; the outputs keep showing the register |
| SimpleSwitch.SwitchDriver.Iterate | drivers/simple_switch/simple_switch.c:295-301 | one pass of the loop body in place is one step of the specification |
| SimpleSwitch.SwitchDriver.WaitThread | drivers/simple_switch/simple_switch.c:287-308 | on any observations the loop runs up to the first that quits, then with all outputs off; otherwise the outputs are a left prefix of the thermometer's height |
| SwitchClock.WrappedClockIsIdeal | drivers/simple_switch/simple_switch.c:207-210 | with sampling gaps below 500 ms the wrapping counter gives the states, actions and register of an unbounded clock, across any number of wraps |
| SwitchClock.WrapHiddenExactly | drivers/simple_switch/simple_switch.c:207-210 | with the coded guard, for samples at most d ticks apart, any tick length and a 32- or 64-bit counter, every run equals the run on an unbounded clock if and only if d ticks stay below 500 ms |
| SwitchClock.DocumentedWrapHiddenExactly | drivers/simple_switch/simple_switch.c:207-210 | with the documented guard, if and only if d ticks added to the most that is still short of 1000 ms stay below 2^32 ms |
| SwitchClock.CodedGuardNeverPairs | drivers/simple_switch/simple_switch.c:294-302 | as coded, with gaps below 500 ms, only short and long actions ever happen and no two-press state is entered |
| SwitchClock.TwoPressExactly | drivers/simple_switch/simple_switch.c:294-302 | for samples at most d ticks apart, some run recognises a two-press gesture if and only if d ticks reach 500 ms |
| SwitchClock.TimePotential | drivers/simple_switch/simple_switch.c:229-232 | for any guard and any non-decreasing clock, 1000 ms per long, long-short and short-long action and 2000 ms per long-long never exceed the elapsed time; unfinished credit lies before the entry time of the timed state |
| SwitchClock.WrappedTimePotential | drivers/simple_switch/simple_switch.c:207-232 | the same budget for the wrapping counter with gaps below 500 ms |
| HoldDecoding.HoldsDecodeExactly | drivers/simple_switch/simple_switch.c:294-302 | as coded, on the wrapping counter, any series of holds of n samples with at least two OFF samples after each gives (n+2)/(m+2) long actions, then one short iff n exceeds (m+2) times that number, and ends in ST_INIT, where m = ceil(1000 / period) |
| HoldDecoding.RunHolding | drivers/simple_switch/simple_switch.c:294-302 | after n ON samples: which state, which entry time and how many long actions, by n modulo m + 2 |
| DocumentedGuard.DocumentedHold | drivers/simple_switch/README.md:32-59 | with the documented guard a released hold of n samples performs exactly one action: short, long, long-short or long-long by n against m |
| DocumentedGuard.RunWaiting | drivers/simple_switch/README.md:32-59 | SHORT and LONG do nothing for 500 ms of OFF samples and then perform their action |
| DocumentedGuard.DocumentedPair | drivers/simple_switch/README.md:32-59 | with the documented guard a press, a gap below 500 ms and a press perform exactly one action: short-short, short-long, long-short or long-long by which of them reached 1000 ms |
| LedPatterns.LedSafety | drivers/simple_io/simple_io.c:157-382 | over every interleaving: all LEDs off at each pattern entry and at thread exit, groups uniform between group writes, one group only in patterns 1 and 2, exactly one group lit after each update of patterns 3 to 6, and nothing or one group lit before pattern 6 sees its first falling edge |
| LedPatterns.RunKeepsLeds | drivers/simple_io/simple_io.c:38-68 | the pin-by-pin invariant: during group writes the outputs are on the way to an allowed picture |
| LedPatterns.NoMissedWakeup | drivers/simple_io/simple_io.c:123-141 | whenever the thread is blocked and no writer is between its store and its wake-up, the flag is WAIT or EXIT |
| LedPictures.BlinkPicture | drivers/simple_io/simple_io.c:157-214 | from every reachable update of patterns 1 and 2, the four pin writes invert the pattern's own group and leave the other one dark |
| LedPictures.SwapPicture | drivers/simple_io/simple_io.c:219-361 | from every reachable update of patterns 3, 4 and 6, the eight pin writes, left group first, light exactly one group: the other one than before, so the groups alternate; the first update lights the left group in patterns 3 and 4 |
| LedPictures.InputPicture | drivers/simple_io/simple_io.c:295-307 | from every reachable update of pattern 5, the left group ends as the input read and the right one as its inverse, left written first |
| LedPictures.FallingEdge | drivers/simple_io/simple_io.c:333-340 | over every interleaving pattern 6 comes to an update only when its last two readings were ON and then OFF, and after a second reading whenever they were |
| LedDelivery.StoreSeenExactly | drivers/simple_io/simple_io.c:123-141 | from any reachable state before the end, a NEXT, default-branch EXIT or module exit that no other store disturbs can be seen by a test or the return if and only if the thread is not bound to store WAIT first and not asleep without a wake-up, and can be erased by the thread's own WAIT if and only if it is bound to |
| LedDelivery.KeptRun | drivers/simple_io/simple_io.c:173-182 | a store the thread is not bound to erase stands through every undisturbed run until it is seen |
| LedDelivery.DoomedRun | drivers/simple_io/simple_io.c:173-182 | one it is bound to erase is never seen: through every undisturbed run the thread tests nothing as NEXT or EXIT and stays in its pattern |
| LedDelivery.ExitCanStrand | drivers/simple_io/simple_io.c:138-140 | such a sleeping thread is reachable: some run leaves it blocked for good with the flag at EXIT |
| LedDelivery.NextCanBeLost | drivers/simple_io/simple_io.c:173-174 | so is a thread bound to erase: a run in which the only writer stores NEXT and wakes, and the thread still ends blocked in pattern 1 with the flag at WAIT |
| LedDelivery.NextDelivers | drivers/simple_io/simple_io.c:133-136 | from any reachable blocked state an undisturbed NEXT takes the thread by its own steps into the next pattern with all LEDs off |
| LedDelivery.KeyDelivers | drivers/simple_io/simple_io.c:129-132 | from any reachable blocked state an undisturbed KEY takes it through exactly one more LED update: the groups of its pattern inverted, the other one, the pattern and the log unchanged |
| LedUpdates.KeyUpdatesExactly | drivers/simple_io/simple_io.c:129-132 | from any reachable state of patterns 1 to 3 that is not leaving, an undisturbed KEY leads to one more LED update than an undisturbed WAIT if and only if the thread is in the wait; the numbers are upper bounds for every run and attained by some run that then sleeps with the flag at WAIT |
| LedUpdates.RunGoing | drivers/simple_io/simple_io.c:165-182 | through every undisturbed run in such a state the updates made and the updates still due add up to the same number |
| LedDelivery.ExitDelivers | drivers/simple_io/simple_io.c:477-482 | from any reachable blocked state an undisturbed module exit ends the thread with all LEDs off |
| LedPatterns.PatternOrder | drivers/simple_io/simple_io.c:364-380 | over every interleaving patterns are entered in the order 1 to 6 and round again, each left after a test that read NEXT or EXIT, and the thread ends exactly when the read at the return gives EXIT |
| Bmp280Trim.Decode | drivers/bmp280/bmp280.c:281-298 | the ranges of all twelve trims, of which only t3, p2, p7 and p8 are signed, and every trim's low 16 bits are its register word |
| Bmp280Trim.SampleBits | drivers/bmp280/bmp280.c:138-142 | the 20-bit sample is all of the first byte, all of the second and the upper half of the third, in order |
| Bmp280.RawSample | drivers/bmp280/bmp280.c:138-142 | the sample of a measurement register is d1 * 4096 + d2 * 16 + d3 / 16, first byte most significant |
| Bmp280Temperature.TemperatureFits | drivers/bmp280/bmp280.c:142-148 | if \|(raw>>3) - 2 t1\| is at most 65535, t2 in 0..32767 and t3 16-bit signed, no 32-bit product overflows and the wrapped code equals the unlimited formula |
| Bmp280Temperature.TemperatureAccurate | drivers/bmp280/bmp280.c:142-148 | in that range the result is within 1.5 hundredths of a degree of the exact rational polynomial |
| Bmp280Order.TemperatureMonotone | drivers/bmp280/bmp280.c:142-148 | in that range `fine` and the result are non-decreasing in the raw code under the condition of the next row |
| Bmp280Order.TemperatureOrderExactly | drivers/bmp280/bmp280.c:142-148 | with k = floor(t2 / 2048), `fine` is non-decreasing in the raw code for all such trims over the whole range if and only if t3 is between -1024 k and 1024 k or (k, t3) is one of five named pairs |
| Bmp280Order.ReadingMonotone | drivers/bmp280/bmp280.c:142-148 | the result is non-decreasing in the raw code under that condition, and at the five pairs with the sign of t3 turned |
| Bmp280Order.ReadingCanFallAbove | drivers/bmp280/bmp280.c:142-148 | trims one unit of t3 above the bound for which a larger raw code reads lower |
| Bmp280Order.ReadingCanFallBelow | drivers/bmp280/bmp280.c:142-148 | trims one unit of t3 below the negative bound for which a larger raw code reads lower |
| Bmp280Steps.SteadyExactly | drivers/bmp280/bmp280.c:145 | the floored t3 term drops by more than k in some step of the raw code exactly outside that condition |
| Bmp280Steps.LuckyAbove | drivers/bmp280/bmp280.c:145 | at the five pairs with a positive t3 it does so at no step but the lowest of all |
| Bmp280Pressure.NothingOverflows | drivers/bmp280/bmp280.c:162-177 | in the calibration box every product, sum and shift of the function, one by one, lies in its signed 64-bit (or 32-bit) range, and the divisor is positive |
| Bmp280Pressure.PressureFits | drivers/bmp280/bmp280.c:162-177 | there the wrapped code equals the unlimited formula |
| Bmp280Pressure.DivisorFits | drivers/bmp280/bmp280.c:166-167 | the divisor's product fits 64 bits, and its value is bounded on both sides |
| Bmp280Pressure.RefineFits | drivers/bmp280/bmp280.c:173-175 | the p7, p8 and p9 products fit and the result fits 32 bits |
| Bmp280Pressure.ZeroGuard | drivers/bmp280/bmp280.c:169 | with p1 from 0 to 43000 the guard against division by zero fires if and only if p1 is 0, and then the reading is 0 |
| Bmp280Pressure.PressureMonotone | drivers/bmp280/bmp280.c:160-177 | in the whole box a larger raw code reads no higher exactly when the compensated value does not go from non-negative to negative, where the u32 cast wraps |
| Bmp280Pressure.RefineMonotone | drivers/bmp280/bmp280.c:172-175 | in the whole box the compensated value is non-increasing in the raw code, below a dividend of zero too, where the squared p9 term grows again |
| Bmp280Pressure.PressureCanRise | drivers/bmp280/bmp280.c:175-177 | trims in the box for which the value turns negative and a larger raw code reads higher |
| Bmp280Accuracy.PressureAccurate | drivers/bmp280/bmp280.c:162-177 | in the whole box the reading is less than 1.26 below the exact rational formula, whose constants are all written out, and at most 0.01 above it, 0.07 when the offset exceeds the sample; where that value is negative (or all but) the reading may be that and 2^24, from the u32 cast |
| Bmp280Accuracy.CompensatedAccurate | drivers/bmp280/bmp280.c:162-175 | the same for the value before the cast, of either sign |
| Bmp280Accuracy.QuotientGap | drivers/bmp280/bmp280.c:167-172 | in the whole box the truncated quotient lies at most 153 above and less than 37 below the exact one, less than 1 below where the exact one is not negative |
| Bmp280.Driver.ReadTemperature | drivers/bmp280/bmp280.c:133-149 | for an in-range sample the value left in `fine` is that of the unlimited formula and the reading is within 1.5 hundredths of a degree of the exact polynomial |
| Bmp280.Driver.ReadPressure | drivers/bmp280/bmp280.c:151-178 | the in-place code computes the staged formula from the stored `fine`; in the whole box the reading is as close to the exact formula as `PressureAccurate` says |
| Bmp280.Driver.Work | drivers/bmp280/bmp280.c:187-197 | temperature first, pressure with the new `fine`, both as accurate as the two reads promise, and the text of both published |
| Bmp280.PublishedScansBack | drivers/bmp280/bmp280.c:180-197 | for an in-range temperature sample the published text is never truncated, scans as `ReadAs` says, and scans back exactly when both readings are clean |
| SensorText.FieldText | drivers/bmp280/bmp280.c:182 | the text of a field: a minus sign if the value is at most -100, the whole part, a point, another minus sign for a negative value with hundredths, the hundredths without a leading zero |
| Decimal.DigitAt | drivers/bmp280/bmp280.c:182 | the k-th character from the right of a printed number is the name of its k-th decimal digit |
| SensorText.ScanReads | input/input_process.c:449 | what `%f %f` reads from every text that fits: whole part and hundredths for non-negative values, one to nine hundredths as tenths; a negative temperature with hundredths gives its whole part and, as pressure, its negated hundredths |
| SensorText.ScanPrinted | input/input_process.c:449 | hence scanning the printed text recovers (temp/100, press/100) if and only if each remainder is 0 or at least 10, and 0 for a negative temperature |
| SensorText.ScanNonNegative | drivers/bmp280/bmp280.c:182 | the scan of a non-negative field takes all of it and gives q + r/100, or q + r/10 when the remainder r is below 10 |
| SensorText.ScanNegative | drivers/bmp280/bmp280.c:182 | the scan of a negative field gives minus its whole part, and stops at the second minus sign exactly when it has hundredths |
| SensorText.TextFits | drivers/bmp280/bmp280.c:189-195 | readings below 1000 degrees and 1000000 hPa fit the 20-byte buffer |
| SensorText.PrintedKeeps | drivers/bmp280/bmp280.c:189-195 | the published text is the whole text or, when that is longer, its first 19 characters |
| SensorHandoff.FreshAndBounded | system/system_process.c:321-334 | over every interleaving each temp and press read for the r-th SENSOR_DATA is sample r or newer and at most MSG_COUNT + 1 samples newer |
| SensorHandoff.StalenessAttained | common/common_mq.h:7 | some run reads a temp exactly MSG_COUNT + 1 samples newer with a press one sample older, so neither bound can be improved |
| SensorHandoff.TempLeadsByOne | input/input_process.c:451-452 | at any instant the temp in the cell is the press's sample or the next |
| SensorHandoff.TornPairBound | system/system_process.c:329-330 | a printed or published pair is a temp and a press for one message, read in either order: a temp read first is at most one sample ahead of its press, a press read first never ahead of its temp, and the second read at most MSG_COUNT + 1 samples ahead of the first |
| SensorHandoff.TearAttained | system/system_process.c:329-330 | some run reads one field MSG_COUNT + 1 samples after the other of its pair, whichever field comes first |
| SensorHandoff.MessagesConserved | input/input_process.c:457 | every message sent, of either kind, is queued or received, in its place; the SENSOR_DATA sent are those received and those queued; the queue never exceeds ten messages |
| SensorHandoff.QueueIsFifo | input/input_process.c:100-104 | over every interleaving the messages the sensor and the dump command get into the queue, of both kinds and in order, are those the monitor received followed by those still queued; each counter counts its SENSOR_DATA |
| ParseArgs.TokensExactly | input/input_process.c:320-338 | a list of slices is the token list if and only if it is all maximal delimiter-free runs in order |
| ParseArgs.TokensByDelimiters | input/input_process.c:29 | no token holds a blank, tab, newline or carriage return, and every other character of the line lies in a token |
| ParseArgs.TokenizationUnique | input/input_process.c:320-338 | a line has only one such list |
| ParseArgs.TokensJoin | input/input_process.c:320-338 | the tokens joined are the line without its delimiters |
| ParseArgs.NoCommandExactly | input/input_process.c:488-491 | the command pointer is NULL if and only if the line holds delimiters only |
| ParseArgs.Tokenizer.StrTok | input/input_process.c:320-337 | the next token's start or NULL, one NUL written behind it, everything else unchanged |
| ParseArgs.Tokenizer.Store | input/input_process.c:322-335 | the pointer is stored below the capacity, which grows by 16 as soon as it is full |
| ParseArgs.Tokenizer.ParseLine | input/input_process.c:315-342 | the buffer holds the starts of all tokens in order, then NULL, within a capacity that is the next multiple of 16, and each token is a terminated copy of its slice |
| Engine.CalibrateMs | drivers/engine/engine.c:141-145 | an argument in 1..10000 is kept, exactly then; any other gives the base speed 500 |
| Engine.SpeedSet | drivers/engine/engine.c:141-145 | of the unsigned 64-bit arguments, 1..10000 is kept and every other one, those negative as a long included, gives 500 |
| Engine.EngineDriver.Ioctl | drivers/engine/engine.c:171-186 | only the addressed motor's speed changes: to the argument if it lies in 1..10000, otherwise to 500 |
| Engine.EngineDriver.ReadMotor2 | system/system_process.c:212-225 | the buffer loop and atoi compute the read-back of the stored speed |
| Engine.ReadBackTruncates | drivers/engine/engine.c:188-193 | the read-back is the stored speed with all but its first four characters divided away, toward zero |
| Engine.ReadBackExact | system/system_process.c:219-225 | the stored speed reads back if and only if it lies in -999..9999 |
| Engine.SetThenRead | drivers/engine/engine.c:141-193 | for every ioctl argument the speed set reads back: the argument in 1..9999, 1000 for 10000, and 500 for any other |

## Left out

- ReadingMonotone: sufficient for the rounded reading; that it falls for some trims at every other (k, t3) is shown by two examples, not in general.
- LedPatterns: the byte of a write to the driver, of which only the flag it selects is modelled; copy_from_user failures, signals during the wait, debounce and the LED values other drivers might leave on the shared pins.
- SensorHandoff: failing sends and receives, and the values themselves (samples are numbered); the command thread is reduced to its DUMP_STATE sends.
- SwitchDriver: GPIO, sleep and log calls; the writes of the flag are observations of the thread loop, as nothing in this driver waits on it.
- Tick lengths that are not whole milliseconds (HZ 300, 1024) and their rounding in jiffies_to_msecs.
- ScanFloat: exponents, hexadecimal, infinities and IEEE rounding of `%f`; decimals are exact rationals.
- Motor 1 in get_engine_info: its buffer is not cleared before the read, so its content is unknown.
- notify.value and info: strings instead of 20-byte arrays; the terminator and the bytes behind it are not modelled.
- Realloc: never fails; the exit on failure is not modelled.
- Fork and exec, signals, mmap, MQTT, camera modules, procfs scraping, sysfs registration and module error paths: plumbing around libraries that are not part of this model.
- Command lookup, the engine blink callbacks and the IRQ stop: one-branch facts.
