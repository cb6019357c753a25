# Marlin usage statistics (`lifetime_stats.cpp`) in Dafny

This project models the firmware's usage-statistics engine. The engine keeps six 32-bit
counters:

- lifetime minutes, print minutes and printed centimetres of filament;
- the same three for the resettable "trip".

It also keeps a printing-session detector (`is_printing`, the last extruder position and a
fractional-length accumulator) and two deadlines on the millisecond clock: a minute deadline
and an hour deadline. The counters are persisted to EEPROM as a magic word followed by the six
counters, at byte offset 0x700.

Files:

- `words.dfy` (module `Words`): 32-bit `unsigned long` arithmetic. Every increment wraps modulo
  2^32.
- `stats_record.dfy` (module `StatsRecord`): the EEPROM and the persisted record.
  - The EEPROM is a map from byte address to 32-bit dword. An address never written reads as
    erased memory, `0xFFFFFFFF`.
  - The record layout, what a save writes (`WriteRecord`) and what a load adopts (`ReadRecord`).
  - Their round trip.
- `lifetime_spec.dfy` (module `LifetimeSpec`): a value-level specification of one call of
  `lifetime_stats_tick` (`TickStep`) and of a sequence of calls (`Run`). It has one function
  per branch: minute counting, print accounting with the carry loop (`Carry`), session
  re-evaluation, and the hourly save. The lemmas state what the tick promises.
- `lifetime_stats.dfy` (module `Lifetime`): class `LifetimeStats`.
  - Its fields are the source's module-level variables plus the EEPROM.
  - Its methods are `lifetime_stats_init`, `lifetime_stats_tick`, `load_lifetime_stats`,
    `save_lifetime_stats` and `reset_triptime`.
  - Each method changes only the fields it names. Each is proved to produce the state (and the
    saves) that the specification functions give.
  - The tick keeps the object invariant `Valid()`: while `is_printing` is set, the accumulator
    is empty.
  - The tick's two halves of the minute branch and the carry loop are separate methods
    (`CountElapsedMinute`, `AccountPrintMinute`, `ReevaluateSession`, `CarryCentimetres`).
    They run the same statements in the same order as the source's single function.
  - A ghost `saveLog` records every save, together with the value of `is_printing` at that
    moment. This makes "the session-end save happens before the flag is cleared" a checked
    statement.

External readings are parameters of the methods:

- the clock (`millis()`);
- the extruder position `current_position[E_AXIS]`;
- `volumetric_multiplier[active_extruder]`;
- the planner's `movesplanned()`;
- `IS_SD_PRINTING`.

Floating-point values are modelled as mathematical reals.

Behaviour of the code that the model keeps as written:

- **Accumulator reset.** The accumulator and the position reference are reset in every minute in
  which the machine is active, not only when a session starts
  (`Marlin/lifetime_stats.cpp:78-81`). A fraction of a centimetre is therefore never carried
  from one minute into the next (`ActiveMinuteDropsRemainder`, `TickKeepsAccumulatorClear`).
- **Strict carry test.** The carry test is strict (`> 10.0`, `Marlin/lifetime_stats.cpp:68`), so
  a remainder of exactly 10.0 can stay in the accumulator. Feeding 20.0 counts one centimetre,
  not two (`CarryExamples`).
- **Plain deadline comparisons.** Deadlines are compared with a plain unsigned `<`
  (`Marlin/lifetime_stats.cpp:53`, `:91`), and the deadline arithmetic wraps at 2^32. Near the
  wrap of the millisecond clock this has two consequences:
  - Once the hour branch fires in the last hour before the wrap, every tick until the clock
    wraps saves again (`HourDeadlineWrapRefires`, `HourWrapSavesEveryTick`). Each firing sets
    the deadline below one hour, behind the clock. With the tick polled from the main loop,
    that is up to an hour of back-to-back seven-word saves every 2^32 ms (about 49.7 days).
    This breaks the one-write-per-hour budget that the comment at
    `Marlin/lifetime_stats.cpp:11` counts on.
  - A minute counted in the last minute before the wrap moves the minute deadline below one
    minute, behind the clock, so the next tick counts another minute
    (`MinuteDeadlineWrapRefires`). The deadline then climbs by one minute per tick. As long as
    it stays below the clock, every tick counts a further minute: `n` ticks count `n` minutes
    whenever the deadline plus `n` minutes is below the clock (`OverdueMinutesCaughtUp`).

## Model

| member | source | states |
|---|---|---|
| Lifetime.LifetimeStats.PowerOn | Marlin/lifetime_stats.cpp:20-31 | Static storage starts at zero: deadlines, position, accumulator, counters and flag. The EEPROM keeps its contents and no save has happened. |
| Lifetime.LifetimeStats.Init | Marlin/lifetime_stats.cpp:36-46 | The hour and minute deadlines are the start-up clock plus one hour and plus one minute, 32-bit wrapped. `is_printing` is false and the position reference is the current E position. The counters are what a load of the EEPROM gives. The EEPROM is not written, and the object invariant holds. |
| Lifetime.LifetimeStats.Load | Marlin/lifetime_stats.cpp:98-117 | The six counters become `ReadRecord(eeprom)`. Only the counters may change: the EEPROM and the detector are outside its frame. |
| Lifetime.LifetimeStats.Save | Marlin/lifetime_stats.cpp:119-128 | The EEPROM becomes `WriteRecord` of the old EEPROM and the current counters. Counters and detector are outside its frame. The save is logged with the current `is_printing`. |
| Lifetime.LifetimeStats.Tick | Marlin/lifetime_stats.cpp:48-96 | The new state and the saves made, in order, are exactly those of `TickStep` for the same readings. The invariant "accumulator empty while printing" is preserved. |
| Lifetime.LifetimeStats.CountElapsedMinute | Marlin/lifetime_stats.cpp:55-76 | The minute deadline moves by one minute. Both elapsed-minute counters are incremented. If printing, the print accounting runs. The result equals `CountMinute`. |
| Lifetime.LifetimeStats.AccountPrintMinute | Marlin/lifetime_stats.cpp:61-75 | Print minutes are incremented. An accepted delta (0 < diff < 1800) is scaled, added to the accumulator and carried. The position reference always moves to the sample. The result equals `AccountPrinting`. |
| Lifetime.LifetimeStats.CarryCentimetres | Marlin/lifetime_stats.cpp:68-73 | The carry loop leaves `Carry(acc).rest` in the accumulator. Both centimetre counters rise by `Carry(acc).units`, wrapped; the loop invariant ties each iteration to `Carry`. |
| Lifetime.LifetimeStats.ReevaluateSession | Marlin/lifetime_stats.cpp:78-87 | When active: flag set, position re-anchored, accumulator zeroed, nothing saved. When idle: if the flag was set, a save is logged with the flag still true, then the flag is cleared. The result equals `Reevaluate`. |
| Lifetime.LifetimeStats.ResetTrip | Marlin/lifetime_stats.cpp:148-153 | The three trip counters become 0. Lifetime counters, deadlines, detector and EEPROM are unchanged. |
| StatsRecord.WriteRecord | Marlin/lifetime_stats.cpp:119-128 | After a save, the magic word `0x2624BA15` is at 0x700 and the six counters are at +4 … +24, in order. Every address outside 0x700–0x71B reads as before, and no new address outside that range appears. |
| StatsRecord.LoadAfterSave | Marlin/lifetime_stats.cpp:98-128 | Loading after a save restores exactly the saved counters, whatever the EEPROM held. |
| StatsRecord.LoadWithoutMagic | Marlin/lifetime_stats.cpp:100-116 | If the word at 0x700 is not the magic word, all six counters load as 0. |
| StatsRecord.LoadFromBlank | Marlin/lifetime_stats.cpp:100-116 | A never-written (erased) EEPROM loads as all zeros. |
| StatsRecord.SaveIdempotent | Marlin/lifetime_stats.cpp:119-128 | Saving the same counters twice leaves the EEPROM as one save does. |
| StatsRecord.LoadIgnoresOutsideWrites | Marlin/lifetime_stats.cpp:15-18 | A dword write by another subsystem that shares no byte with 0x700–0x71B does not change what a load returns. |
| StatsRecord.TornFirstSaveLoadsAllOnes | Marlin/lifetime_stats.cpp:119-122 | Consider a part whose six counter words are still erased. If a save is cut off after its first write (the magic word), a later load adopts six `0xFFFFFFFF` counters instead of treating the record as absent. |
| LifetimeSpec.Carry | Marlin/lifetime_stats.cpp:68-73 | The carry of an accumulator: `acc == rest + 10.0 * units`, with `rest <= 10.0`. The rest is positive when `acc > 10.0`, and `units == 0` when `acc <= 10.0`. |
| LifetimeSpec.CarryUnique | Marlin/lifetime_stats.cpp:68-73 | Any split `acc == rest + 10.0 * units` with `0 < rest <= 10.0` is the one the carry loop produces. |
| LifetimeSpec.CarryExamples | Marlin/lifetime_stats.cpp:68-73 | 25.0 carries 2 centimetres and leaves 5.0. 20.0 carries only 1 and leaves 10.0, because the test is strict. |
| LifetimeSpec.MinuteCadence | Marlin/lifetime_stats.cpp:53-58 | The minute branch fires only when the deadline is strictly before now. It advances the deadline by exactly one minute (not to now plus a minute) and counts exactly one minute on both counters. Otherwise counters and detector are untouched. |
| LifetimeSpec.TickMinuteCount | Marlin/lifetime_stats.cpp:53-58 | One tick advances the deadline and both elapsed-minute counters by the number of times the minute branch fired (0 or 1). |
| LifetimeSpec.PrintCountersOnlyWhilePrinting | Marlin/lifetime_stats.cpp:59-74 | Print minutes rise by one only in a minute entered while printing, and print centimetres only then, by the carry of the accepted feed. Each lifetime counter moves by the same amount as its trip counterpart. |
| LifetimeSpec.FilamentAccounting | Marlin/lifetime_stats.cpp:64-75 | For an accepted delta with `k` carried units: old accumulator plus scaled delta equals new accumulator plus `10*k`. Both centimetre counters rise by `k`, and the new accumulator is at most 10.0. A rejected delta changes neither the accumulator nor the counters. The position reference always becomes the sample. |
| LifetimeSpec.SessionReevaluation | Marlin/lifetime_stats.cpp:78-87 | After a minute branch, `is_printing` equals "moves planned or SD printing". When active, the position is re-anchored and the accumulator is 0. |
| LifetimeSpec.TickSaves | Marlin/lifetime_stats.cpp:78-95 | The saves of a tick are, in order: a session-end save exactly when the minute branch finds the machine idle after printing, made with `is_printing` still true; then an hourly save exactly when the hour deadline has passed. Without a save the EEPROM is untouched. After a save it holds the record of the resulting counters. |
| LifetimeSpec.HourlySave | Marlin/lifetime_stats.cpp:91-95 | The hour branch runs whatever the minute branch did. It re-anchors the deadline to now plus an hour and leaves the current counters loadable. |
| LifetimeSpec.TickKeepsAccumulatorClear | Marlin/lifetime_stats.cpp:78-81 | If the accumulator is empty while printing before a tick, the same holds after it. |
| LifetimeSpec.ActiveMinuteDropsRemainder | Marlin/lifetime_stats.cpp:64-81 | A printing minute that stays active counts, on both the lifetime and the trip centimetre counters, only the whole centimetres of that minute's own scaled feed. It then empties the accumulator, so a minute fed 10.0 or less counts none on either counter. |
| LifetimeSpec.AdvanceMinutesClosedForm | Marlin/lifetime_stats.cpp:53-55 | `n` one-minute advances of the deadline equal adding `n` minutes modulo 2^32. |
| LifetimeSpec.RunMinuteCount | Marlin/lifetime_stats.cpp:53-58 | Over any sequence of ticks, the deadline has advanced by exactly as many minutes as were counted, and both elapsed-minute counters by exactly that many. |
| LifetimeSpec.IdleRunCountsNoPrinting | Marlin/lifetime_stats.cpp:59-87 | Ticks that start idle and never see activity leave all four print counters unchanged, never set `is_printing` and make no session-end save. |
| LifetimeSpec.OverdueMinutesCaughtUp | Marlin/lifetime_stats.cpp:53-55 | With the clock `n` minutes past the deadline, `n` ticks count exactly `n` minutes: one per call, not all at once. |
| LifetimeSpec.HourDeadlineWrapRefires | Marlin/lifetime_stats.cpp:91-94 | An hourly save within the last hour before the clock wraps sets a deadline already behind the clock, so the next tick saves again. |
| LifetimeSpec.HourWrapSavesEveryTick | Marlin/lifetime_stats.cpp:91-95 | If the hour deadline has passed at the first tick, and every tick's clock is within an hour of 2^32, then each tick of the run saves at least once: at least as many saves as ticks. |
| LifetimeSpec.MinuteDeadlineWrapRefires | Marlin/lifetime_stats.cpp:53-58 | A minute counted in the last minute before the clock wraps leaves the minute deadline below one minute, behind the clock, so the next tick counts one more minute on both counters. |

## Left out

- `print_lifetime_stats` (`Marlin/lifetime_stats.cpp:130-146`) is left out. It only writes to the
  serial console.
- The millisecond clock, the planner's `movesplanned()`, `IS_SD_PRINTING`, `current_position`
  and `volumetric_multiplier` are not modelled. Their readings are method parameters. The tick
  reads the clock once, as the source does.
- Lifetime.LifetimeStats.Save: a save interrupted between its seven writes (power loss) is not
  a state of the model; `Save` performs all seven writes or none. Because the magic word is
  written first (`Marlin/lifetime_stats.cpp:121`), the magic word does not protect against a torn
  save. A save cut off after that write on a blank part loads as six `0xFFFFFFFF` counters
  (`TornFirstSaveLoadsAllOnes`). Saves cut off after a later write are not stated.
- IEEE single-precision rounding of `last_e_pos`, the delta and the accumulator is not modelled.
  They are exact reals, so sums and the carry subtraction are exact.
- The EEPROM is modelled as whole 32-bit words at the addresses the engine uses. Byte order,
  byte-level aliasing between overlapping dword addresses, write timing and wear are not
  modelled.
- The other EEPROM regions named at `Marlin/lifetime_stats.cpp:15-17` are not modelled. These
  are the configuration store at offset 100 and the material profiles at 0x800. The model only
  proves that a save stays inside 0x700–0x71B (`WriteRecord`) and that loads ignore writes
  outside it (`LoadIgnoresOutsideWrites`).
- Wrap-tolerant scheduling is not modelled, because the code does not have it. The deadline
  comparisons are modelled as the plain unsigned comparisons the code makes.
- Concurrency and interrupts are not modelled. The entry points run one at a time, from the
  main loop.
