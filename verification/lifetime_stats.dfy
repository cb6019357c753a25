/** The usage-statistics engine: the module-level state of the firmware's statistics unit
    as the fields of one object, and its entry points as methods on it. Clock, planner,
    SD-card and extruder readings are passed in as parameters. */
module Lifetime {
  import opened Words
  import opened StatsRecord
  import opened LifetimeSpec

  class LifetimeStats {
    var minuteCounterMillis: UInt32
    var hourSaveMillis: UInt32
    var lastEPos: real
    var accumulatedEDiff: real

    var lifetimeMinutes: UInt32
    var lifetimePrintMinutes: UInt32
    var lifetimePrintCentimeters: UInt32
    var tripMinutes: UInt32
    var tripPrintMinutes: UInt32
    var tripPrintCentimeters: UInt32
    var isPrinting: bool

    /** The EEPROM the record lives in (shared with the rest of the firmware). */
    var eeprom: Eeprom
    /** Every save so far, oldest first, with the session flag as it was at the save. */
    ghost var saveLog: seq<Saved>

    /** Object invariant: the accumulator is empty whenever `is_printing` is set. */
    ghost predicate Valid()
      reads this
    {
      AccumulatorClear(State())
    }

    /** The six counters as they would be persisted. */
    function Snapshot(): Counters
      reads this
    {
      Counters(lifetimeMinutes, lifetimePrintMinutes, lifetimePrintCentimeters,
               tripMinutes, tripPrintMinutes, tripPrintCentimeters)
    }

    /** The whole state, as the tick specification sees it. */
    function State(): Stats
      reads this
    {
      Stats(minuteCounterMillis, hourSaveMillis, lastEPos, accumulatedEDiff, isPrinting,
            Snapshot(), eeprom)
    }

    /** Power-on: static storage starts zeroed; the EEPROM keeps what it held. */
    constructor PowerOn(contents: Eeprom)
      ensures State() == Stats(0, 0, 0.0, 0.0, false, ZERO_COUNTERS, contents)
      ensures saveLog == []
      ensures Valid()
    {
      minuteCounterMillis, hourSaveMillis := 0, 0;
      lastEPos, accumulatedEDiff := 0.0, 0.0;
      lifetimeMinutes, lifetimePrintMinutes, lifetimePrintCentimeters := 0, 0, 0;
      tripMinutes, tripPrintMinutes, tripPrintCentimeters := 0, 0, 0;
      isPrinting := false;
      eeprom := contents;
      saveLog := [];
    }

    /** `lifetime_stats_init`: both deadlines one unit after the start-up reading of the clock,
        not printing, position reference at the current E position, counters loaded. The
        accumulator is left as it was and nothing is written. */
    method Init(now: UInt32, ePos: real)
      modifies this`minuteCounterMillis, this`hourSaveMillis, this`isPrinting, this`lastEPos
      modifies this`lifetimeMinutes, this`lifetimePrintMinutes, this`lifetimePrintCentimeters
      modifies this`tripMinutes, this`tripPrintMinutes, this`tripPrintCentimeters
      ensures hourSaveMillis == Wrap(now + MILLIS_HOUR)
      ensures minuteCounterMillis == Wrap(now + MILLIS_MINUTE)
      ensures !isPrinting && lastEPos == ePos
      ensures Snapshot() == ReadRecord(eeprom)
      ensures Valid()
    {
      var startupMillis := now;
      hourSaveMillis := Wrap(startupMillis + MILLIS_HOUR);
      minuteCounterMillis := Wrap(startupMillis + MILLIS_MINUTE);
      isPrinting := false;
      lastEPos := ePos;
      Load();
    }

    /** `load_lifetime_stats`: adopt the stored counters when the magic word is present,
        zero them otherwise. Only the six counters change. */
    method Load()
      modifies this`lifetimeMinutes, this`lifetimePrintMinutes, this`lifetimePrintCentimeters
      modifies this`tripMinutes, this`tripPrintMinutes, this`tripPrintCentimeters
      ensures Snapshot() == ReadRecord(eeprom)
    {
      var magic := ReadDword(eeprom, LIFETIME_EEPROM_OFFSET + 0);
      if magic == LIFETIME_MAGIC {
        lifetimeMinutes := ReadDword(eeprom, LIFETIME_EEPROM_OFFSET + 4);
        lifetimePrintMinutes := ReadDword(eeprom, LIFETIME_EEPROM_OFFSET + 8);
        lifetimePrintCentimeters := ReadDword(eeprom, LIFETIME_EEPROM_OFFSET + 12);
        tripMinutes := ReadDword(eeprom, LIFETIME_EEPROM_OFFSET + 16);
        tripPrintMinutes := ReadDword(eeprom, LIFETIME_EEPROM_OFFSET + 20);
        tripPrintCentimeters := ReadDword(eeprom, LIFETIME_EEPROM_OFFSET + 24);
      } else {
        lifetimeMinutes := 0;
        lifetimePrintMinutes := 0;
        lifetimePrintCentimeters := 0;
        tripMinutes := 0;
        tripPrintMinutes := 0;
        tripPrintCentimeters := 0;
      }
    }

    /** `save_lifetime_stats`: write the magic word and the six counters; only the EEPROM
        (and the record of saves) changes. */
    method Save()
      modifies this`eeprom, this`saveLog
      ensures eeprom == WriteRecord(old(eeprom), Snapshot())
      ensures saveLog == old(saveLog) + [Saved(Snapshot(), isPrinting)]
    {
      eeprom := eeprom[LIFETIME_EEPROM_OFFSET + 0 := LIFETIME_MAGIC];
      eeprom := eeprom[LIFETIME_EEPROM_OFFSET + 4 := lifetimeMinutes];
      eeprom := eeprom[LIFETIME_EEPROM_OFFSET + 8 := lifetimePrintMinutes];
      eeprom := eeprom[LIFETIME_EEPROM_OFFSET + 12 := lifetimePrintCentimeters];
      eeprom := eeprom[LIFETIME_EEPROM_OFFSET + 16 := tripMinutes];
      eeprom := eeprom[LIFETIME_EEPROM_OFFSET + 20 := tripPrintMinutes];
      eeprom := eeprom[LIFETIME_EEPROM_OFFSET + 24 := tripPrintCentimeters];
      saveLog := saveLog + [Saved(Snapshot(), isPrinting)];
    }

    /** `lifetime_stats_tick`, polled from the main loop: the new state and the saves made are
        those of the tick specification, and the accumulator stays empty while printing. */
    method Tick(now: UInt32, ePos: real, volumetricMultiplier: real, movesPlanned: nat, sdPrinting: bool)
      requires Valid()
      modifies this
      ensures Valid()
      ensures var t := TickStep(old(State()), Signals(now, ePos, volumetricMultiplier, movesPlanned, sdPrinting));
        State() == t.after && saveLog == old(saveLog) + t.saves
    {
      ghost var sig := Signals(now, ePos, volumetricMultiplier, movesPlanned, sdPrinting);
      ghost var s0 := State();
      ghost var minute := if s0.minuteCounterMillis < now then MinuteBranch(s0, sig) else Step(s0, []);
      var m := now;

      // Minute branch: the deadline has strictly passed.
      if minuteCounterMillis < m {
        CountElapsedMinute(ePos, volumetricMultiplier);
        ReevaluateSession(ePos, movesPlanned > 0 || sdPrinting);
      }
      assert State() == minute.after && saveLog == old(saveLog) + minute.saves;
      ghost var hour := if minute.after.hourSaveMillis < now then HourBranch(minute.after, now)
                        else Step(minute.after, []);

      // Hour heartbeat: re-anchor the deadline and persist the record.
      if hourSaveMillis < m {
        hourSaveMillis := Wrap(m + MILLIS_HOUR);
        assert State() == minute.after.(hourSaveMillis := Wrap(now + MILLIS_HOUR));
        Save();
      }
      assert State() == hour.after && saveLog == old(saveLog) + minute.saves + hour.saves;
      assert TickStep(s0, sig) == Step(hour.after, minute.saves + hour.saves);
      AppendSaves(old(saveLog), minute.saves, hour.saves);
      TickKeepsAccumulatorClear(s0, sig);
    }

    /** The counting half of the minute branch: advance the deadline by one minute, count the
        minute, and while printing do the print accounting. */
    method CountElapsedMinute(ePos: real, volumetricMultiplier: real)
      modifies this`minuteCounterMillis, this`lifetimeMinutes, this`tripMinutes
      modifies this`lifetimePrintMinutes, this`tripPrintMinutes
      modifies this`lifetimePrintCentimeters, this`tripPrintCentimeters
      modifies this`accumulatedEDiff, this`lastEPos
      ensures State() == CountMinute(old(State()), ePos, volumetricMultiplier)
    {
      minuteCounterMillis := Wrap(minuteCounterMillis + MILLIS_MINUTE);
      lifetimeMinutes := Inc(lifetimeMinutes);
      tripMinutes := Inc(tripMinutes);
      if isPrinting {
        AccountPrintMinute(ePos, volumetricMultiplier);
      }
    }

    /** Print accounting of a minute spent printing: count a print minute, carry an accepted
        feed delta into centimetres, and move the position reference to the current position. */
    method AccountPrintMinute(ePos: real, volumetricMultiplier: real)
      modifies this`lifetimePrintMinutes, this`tripPrintMinutes
      modifies this`lifetimePrintCentimeters, this`tripPrintCentimeters
      modifies this`accumulatedEDiff, this`lastEPos
      ensures State() == AccountPrinting(old(State()), ePos, volumetricMultiplier)
    {
      lifetimePrintMinutes := Inc(lifetimePrintMinutes);
      tripPrintMinutes := Inc(tripPrintMinutes);
      var diff := ePos - lastEPos;
      if diff > 0.0 && diff < MAX_E_DELTA {
        accumulatedEDiff := accumulatedEDiff + ScaledFeed(diff, volumetricMultiplier);
        CarryCentimetres();
      }
      lastEPos := ePos;
    }

    /** The session half of the minute branch: active keeps (or starts) the session and
        re-anchors the detector; idle after printing saves first and only then clears the flag. */
    method ReevaluateSession(ePos: real, active: bool)
      modifies this`isPrinting, this`lastEPos, this`accumulatedEDiff, this`eeprom, this`saveLog
      ensures var t := Reevaluate(old(State()), ePos, active);
        State() == t.after && saveLog == old(saveLog) + t.saves
    {
      if active {
        isPrinting := true;
        lastEPos := ePos;
        accumulatedEDiff := 0.0;
      } else {
        if isPrinting == true {
          Save();
        }
        isPrinting := false;
      }
    }

    /** The carry loop of the tick: while the accumulator is strictly above 10.0, move 10.0 out
        of it into one more centimetre on both print-length counters. */
    method CarryCentimetres()
      modifies this`accumulatedEDiff, this`lifetimePrintCentimeters, this`tripPrintCentimeters
      ensures var c := Carry(old(accumulatedEDiff));
        accumulatedEDiff == c.rest
        && lifetimePrintCentimeters == AddWrap(old(lifetimePrintCentimeters), c.units)
        && tripPrintCentimeters == AddWrap(old(tripPrintCentimeters), c.units)
    {
      ghost var k: nat := 0;
      while accumulatedEDiff > CARRY_THRESHOLD
        invariant Carry(accumulatedEDiff).rest == Carry(old(accumulatedEDiff)).rest
        invariant Carry(accumulatedEDiff).units + k == Carry(old(accumulatedEDiff)).units
        invariant lifetimePrintCentimeters == AddWrap(old(lifetimePrintCentimeters), k)
        invariant tripPrintCentimeters == AddWrap(old(tripPrintCentimeters), k)
        decreases Carry(old(accumulatedEDiff)).units - k
      {
        IncAfterAdd(old(lifetimePrintCentimeters), k);
        IncAfterAdd(old(tripPrintCentimeters), k);
        lifetimePrintCentimeters := Inc(lifetimePrintCentimeters);
        tripPrintCentimeters := Inc(tripPrintCentimeters);
        accumulatedEDiff := accumulatedEDiff - CARRY_THRESHOLD;
        k := k + 1;
      }
    }

    /** `reset_triptime`: the three trip counters become zero; nothing else changes. */
    method ResetTrip()
      modifies this`tripMinutes, this`tripPrintMinutes, this`tripPrintCentimeters
      ensures Snapshot() == old(Snapshot()).(tripMinutes := 0, tripPrintMinutes := 0, tripPrintCentimeters := 0)
      ensures State() == old(State()).(counters := Snapshot())
    {
      tripMinutes := 0;
      tripPrintMinutes := 0;
      tripPrintCentimeters := 0;
    }
  }
}
