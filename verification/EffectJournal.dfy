/**
 The effect journal as the runtime keeps it: sixteen records in a fixed array with a committed
 count, a reservation count and blank records beyond; each method equals its function on values.
 */
module EffectJournals {
  import opened Words
  import opened J = Journal

  const BLANK: EffectRecord := EffectRecord(0, 0, 0, 0, 0, 0, 0, 0, 0, 0, 0, 0, 0, 0, 0, 0, 0, 0, 0)

  class EffectJournal {
    var state: JournalState
    var committed: nat
    var reserved: nat
    var objectGeneration: u64
    var nextSequence: u64
    const records: array<EffectRecord>

    ghost predicate Valid()
      reads this, records
    {
      && records.Length == RECORD_COUNT && committed <= RECORD_COUNT
      && forall i :: committed <= i < RECORD_COUNT ==> records[i] == BLANK
    }

    function Value(): J.Journal
      requires Valid()
      reads this, records
    {
      J.Journal(state, reserved, objectGeneration, nextSequence, records[..committed])
    }

    constructor ()
      ensures Valid() && Value() == LIVE_JOURNAL && fresh(records)
    {
      state := JournalLive;
      committed, reserved, objectGeneration, nextSequence := 0, 0, 1, 1;
      records := new EffectRecord[RECORD_COUNT](_ => BLANK);
    }

    /** Puts a snapshot back, record by record, and blanks the rest. */
    method Restore(before: J.Journal)
      requires Valid() && |before.committed| <= RECORD_COUNT
      modifies this, records
      ensures Valid() && Value() == before
    {
      state, reserved := before.state, before.reserved;
      objectGeneration, nextSequence := before.objectGeneration, before.nextSequence;
      committed := |before.committed|;
      var i := 0;
      while i < RECORD_COUNT
        modifies records
        invariant 0 <= i <= RECORD_COUNT
        invariant forall k :: 0 <= k < i ==>
                    records[k] == if k < |before.committed| then before.committed[k] else BLANK
      {
        records[i] := if i < |before.committed| then before.committed[i] else BLANK;
        i := i + 1;
      }
      assert records[..committed] == before.committed;
    }

    method Seal() returns (r: Outcome<JournalError>)
      requires Valid()
      modifies this`state
      ensures Valid()
      ensures match J.Seal(old(Value()))
              case Ok(j) => r == Pass && Value() == j
              case Err(e) => r == Fail(e) && Value() == old(Value())
    {
      if state != JournalLive || reserved != 0 {
        return Fail(Unavailable);
      }
      state := JournalSealed;
      return Pass;
    }

    method AppendUnreserved(record: EffectRecord) returns (r: Outcome<JournalError>)
      requires Valid()
      modifies this`committed, this`nextSequence, records
      ensures Valid()
      ensures match J.AppendUnreserved(old(Value()), record)
              case Ok(j) => r == Pass && Value() == j
              case Err(e) => r == Fail(e) && Value() == old(Value())
    {
      var index := committed;
      if index >= RECORD_COUNT || nextSequence == 0 {
        return Fail(Full);
      }
      if !record.WellFormed() || record.recordSequence != 0 {
        return Fail(Broken);
      }
      records[index] := record.(recordSequence := nextSequence);
      committed := committed + 1;
      nextSequence := if nextSequence == U64_MAX then 0 else nextSequence + 1;
      return Pass;
    }

    method BeginLifecycle(record: EffectRecord) returns (r: Outcome<JournalError>)
      requires Valid()
      modifies this`committed, this`nextSequence, this`reserved, records
      ensures Valid()
      ensures match J.BeginLifecycle(old(Value()), record)
              case Ok(j) => r == Pass && Value() == j
              case Err(e) => r == Fail(e) && Value() == old(Value())
    {
      if state != JournalLive {
        return Fail(Unavailable);
      }
      if committed + reserved + 3 > RECORD_COUNT || nextSequence == 0 || nextSequence > U64_MAX - 2 {
        return Fail(Full);
      }
      r := AppendUnreserved(record);
      if r.Pass? {
        reserved := 2;
      }
    }

    /** Uses one reserved slot. A record refused for its shape has already cost its reservation. */
    method AppendReserved(record: EffectRecord, releaseUnused: bool) returns (r: Outcome<JournalError>)
      requires Valid()
      modifies this`committed, this`nextSequence, this`reserved, records
      ensures Valid()
      ensures match J.AppendReserved(old(Value()), record, releaseUnused)
              case Ok(j) => r == Pass && Value() == j
              case Err(e) =>
                && r == Fail(e)
                && Value() == if e == Unavailable then old(Value()) else old(Value()).(reserved := old(reserved) - 1)
    {
      if state != JournalLive || reserved == 0 {
        return Fail(Unavailable);
      }
      reserved := reserved - 1;
      r := AppendUnreserved(record);
      if r.Pass? && releaseUnused {
        reserved := 0;
      }
    }

    method ReadRecord(sequence: u64) returns (record: Result<EffectRecord, JournalError>)
      requires Valid()
      ensures record == J.ReadRecord(Value(), sequence)
    {
      if state != JournalLive && state != JournalSealed {
        return Err(Unavailable);
      }
      if sequence == 0 || sequence > committed {
        return Err(RecordInvalid);
      }
      if records[sequence - 1].recordSequence != sequence {
        return Err(Broken);
      }
      return Ok(records[sequence - 1]);
    }

    method ReadTriplet(sequence: u64, triplet: u64) returns (words: Result<(u64, u64, u64), JournalError>)
      requires Valid()
      ensures words == J.ReadTriplet(Value(), sequence, triplet)
    {
      if triplet > 5 {
        return Err(RecordInvalid);
      }
      var record := ReadRecord(sequence);
      match record
      case Err(e) => return Err(e);
      case Ok(r) =>
        return Ok((WordOrZero(r, triplet * 3), WordOrZero(r, triplet * 3 + 1), WordOrZero(r, triplet * 3 + 2)));
    }

    method Validate() returns (sound: bool)
      requires Valid()
      ensures sound <==> JournalValid(Value())
    {
      if state == JournalDead {
        return committed == 0 && reserved == 0 && objectGeneration == 0 && nextSequence == 0;
      }
      if state == JournalBuilding || objectGeneration != 1 || committed + reserved > RECORD_COUNT || reserved > 2
         || (state == JournalSealed && reserved != 0)
      {
        return false;
      }
      var i := 0;
      while i < committed
        invariant 0 <= i <= committed
        invariant forall k :: 0 <= k < i ==> records[k].WellFormed() && records[k].recordSequence == k + 1
      {
        if !records[i].WellFormed() || records[i].recordSequence != i + 1 {
          assert Value().committed[i] == records[i];
          return false;
        }
        i := i + 1;
      }
      return nextSequence == committed + 1;
    }
  }
}
