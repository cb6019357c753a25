/** The persisted statistics record: one magic word followed by the six counters,
    stored as 32-bit words at fixed byte offsets from 0x700 in the EEPROM. */
module StatsRecord {
  import opened Words

  /** Marks a region that holds a record written by a save. */
  const LIFETIME_MAGIC: UInt32 := 0x2624BA15
  /** Base byte address of the record. */
  const LIFETIME_EEPROM_OFFSET: int := 0x700
  /** Seven dwords: the magic word and six counters. */
  const RECORD_BYTES: int := 28
  /** What a dword of erased (never written) EEPROM reads as. */
  const ERASED_WORD: UInt32 := 0xFFFF_FFFF

  /** The EEPROM, as the dwords written to it, keyed by byte address. */
  type Eeprom = map<int, UInt32>

  /** The six usage counters, in the order they are persisted. */
  datatype Counters = Counters(
    lifetimeMinutes: UInt32,
    lifetimePrintMinutes: UInt32,
    lifetimePrintCentimeters: UInt32,
    tripMinutes: UInt32,
    tripPrintMinutes: UInt32,
    tripPrintCentimeters: UInt32)

  const ZERO_COUNTERS: Counters := Counters(0, 0, 0, 0, 0, 0)

  /** `eeprom_read_dword`: an address never written reads as erased memory. */
  function ReadDword(e: Eeprom, address: int): UInt32
  {
    if address in e then e[address] else ERASED_WORD
  }

  /** Byte addresses covered by the record, 0x700 to 0x71B. */
  predicate InRecord(address: int)
  {
    LIFETIME_EEPROM_OFFSET <= address < LIFETIME_EEPROM_OFFSET + RECORD_BYTES
  }

  /** The EEPROM after a save of `c`: the magic word at +0, the counters at +4 .. +24. */
  function WriteRecord(e: Eeprom, c: Counters): (r: Eeprom)
    ensures ReadDword(r, LIFETIME_EEPROM_OFFSET) == LIFETIME_MAGIC
    ensures ReadDword(r, LIFETIME_EEPROM_OFFSET + 4) == c.lifetimeMinutes
    ensures ReadDword(r, LIFETIME_EEPROM_OFFSET + 8) == c.lifetimePrintMinutes
    ensures ReadDword(r, LIFETIME_EEPROM_OFFSET + 12) == c.lifetimePrintCentimeters
    ensures ReadDword(r, LIFETIME_EEPROM_OFFSET + 16) == c.tripMinutes
    ensures ReadDword(r, LIFETIME_EEPROM_OFFSET + 20) == c.tripPrintMinutes
    ensures ReadDword(r, LIFETIME_EEPROM_OFFSET + 24) == c.tripPrintCentimeters
    ensures forall a :: !InRecord(a) ==> ReadDword(r, a) == ReadDword(e, a)
    ensures forall a :: a in r.Keys - e.Keys ==> InRecord(a)
  {
    e[LIFETIME_EEPROM_OFFSET := LIFETIME_MAGIC]
     [LIFETIME_EEPROM_OFFSET + 4 := c.lifetimeMinutes]
     [LIFETIME_EEPROM_OFFSET + 8 := c.lifetimePrintMinutes]
     [LIFETIME_EEPROM_OFFSET + 12 := c.lifetimePrintCentimeters]
     [LIFETIME_EEPROM_OFFSET + 16 := c.tripMinutes]
     [LIFETIME_EEPROM_OFFSET + 20 := c.tripPrintMinutes]
     [LIFETIME_EEPROM_OFFSET + 24 := c.tripPrintCentimeters]
  }

  /** The counters a load adopts: verbatim when the magic word matches, all zero otherwise. */
  function ReadRecord(e: Eeprom): Counters
  {
    if ReadDword(e, LIFETIME_EEPROM_OFFSET) == LIFETIME_MAGIC then
      Counters(
        ReadDword(e, LIFETIME_EEPROM_OFFSET + 4),
        ReadDword(e, LIFETIME_EEPROM_OFFSET + 8),
        ReadDword(e, LIFETIME_EEPROM_OFFSET + 12),
        ReadDword(e, LIFETIME_EEPROM_OFFSET + 16),
        ReadDword(e, LIFETIME_EEPROM_OFFSET + 20),
        ReadDword(e, LIFETIME_EEPROM_OFFSET + 24))
    else
      ZERO_COUNTERS
  }

  /** A load after a save restores exactly the saved counters, whatever the EEPROM held before. */
  lemma LoadAfterSave(e: Eeprom, c: Counters)
    ensures ReadRecord(WriteRecord(e, c)) == c
  {
  }

  /** Erased or foreign contents (no magic word at 0x700) load as six zero counters. */
  lemma LoadWithoutMagic(e: Eeprom)
    requires ReadDword(e, LIFETIME_EEPROM_OFFSET) != LIFETIME_MAGIC
    ensures ReadRecord(e) == ZERO_COUNTERS
  {
  }

  /** A fresh part, never written, loads as zero: the erased word is not the magic word. */
  lemma LoadFromBlank()
    ensures ReadRecord(map[]) == ZERO_COUNTERS
  {
  }

  /** Saving twice in a row leaves the EEPROM as one save does. */
  lemma SaveIdempotent(e: Eeprom, c: Counters)
    ensures WriteRecord(WriteRecord(e, c), c) == WriteRecord(e, c)
  {
  }

  /** A dword at `address` (four bytes) shares no byte with the record. */
  predicate DwordClearOfRecord(address: int)
  {
    address + 4 <= LIFETIME_EEPROM_OFFSET || LIFETIME_EEPROM_OFFSET + RECORD_BYTES <= address
  }

  /** Dword writes by other subsystems that share no byte with 0x700 .. 0x71B do not disturb
      what a load reads. */
  lemma LoadIgnoresOutsideWrites(e: Eeprom, address: int, w: UInt32)
    requires DwordClearOfRecord(address)
    ensures ReadRecord(e[address := w]) == ReadRecord(e)
  {
  }

  /** The magic word is written first: a save cut off right after that write, on a part whose
      counter words are still erased, leaves a record that loads as six all-ones counters
      rather than as absent. */
  lemma TornFirstSaveLoadsAllOnes(e: Eeprom)
    requires forall i :: 1 <= i <= 6 ==> LIFETIME_EEPROM_OFFSET + 4 * i !in e
    ensures ReadRecord(e[LIFETIME_EEPROM_OFFSET := LIFETIME_MAGIC])
      == Counters(ERASED_WORD, ERASED_WORD, ERASED_WORD, ERASED_WORD, ERASED_WORD, ERASED_WORD)
  {
    assert LIFETIME_EEPROM_OFFSET + 4 * 1 !in e;
    assert LIFETIME_EEPROM_OFFSET + 4 * 2 !in e;
    assert LIFETIME_EEPROM_OFFSET + 4 * 3 !in e;
    assert LIFETIME_EEPROM_OFFSET + 4 * 4 !in e;
    assert LIFETIME_EEPROM_OFFSET + 4 * 5 !in e;
    assert LIFETIME_EEPROM_OFFSET + 4 * 6 !in e;
  }
}
