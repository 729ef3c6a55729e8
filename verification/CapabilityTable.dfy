/**
 Capability tables and the run queue as the runtime keeps them: fixed arrays edited in place,
 each method proved equal to the function of the same name on values.
 */
module CapabilityTables {
  import opened Words
  import opened TrapAbi
  import C = Capability
  import opened Capability
  import R = Runtime

  class CapabilityTable {
    var taskId: u64
    var taskGeneration: u64
    var state: TableState
    const slots: array<CapabilitySlot>

    ghost predicate Valid() { slots.Length == SLOT_COUNT }

    function Value(): Table
      requires Valid()
      reads this, slots
    {
      Table(taskId, taskGeneration, state, slots[..])
    }

    constructor Building(task: u64, generation: u64)
      ensures Valid() && Value() == BuildingTable(task, generation) && fresh(slots)
    {
      taskId, taskGeneration, state := task, generation, TableBuilding;
      slots := new CapabilitySlot[SLOT_COUNT](_ => EMPTY_SLOT);
      new;
      assert slots[..] == EmptySlots();
    }

    /** Puts a snapshot back, slot by slot. */
    method Restore(before: Table)
      requires Valid()
      modifies this, slots
      ensures Value() == before
    {
      taskId, taskGeneration, state := before.taskId, before.taskGeneration, before.state;
      var i := 0;
      while i < SLOT_COUNT
        modifies slots
        invariant 0 <= i <= SLOT_COUNT
        invariant forall j :: 0 <= j < i ==> slots[j] == before.slots[j]
      {
        slots[i] := before.slots[i];
        i := i + 1;
      }
      assert slots[..] == before.slots;
    }

    /** The first free slot, found by a scan. */
    method FindFree() returns (index: nat)
      requires Valid()
      ensures index == FirstFree(slots[..], 0)
    {
      index := 0;
      while index < SLOT_COUNT && !Free(slots[index])
        invariant 0 <= index <= SLOT_COUNT
        invariant FirstFree(slots[..], index) == FirstFree(slots[..], 0)
      {
        index := index + 1;
      }
    }

    method FullyOccupied() returns (full: bool)
      requires Valid()
      ensures full <==> AllOccupied(slots[..])
    {
      var i := 0;
      while i < SLOT_COUNT
        invariant 0 <= i <= SLOT_COUNT
        invariant forall j :: 0 <= j < i ==> slots[j].entry.Some?
      {
        if slots[i].entry.None? {
          assert slots[..][i].entry.None?;
          return false;
        }
        i := i + 1;
      }
      return true;
    }

    method Allocate(entry: CapabilityEntry) returns (handle: Result<u64, TrapStatus>)
      requires Valid()
      modifies slots
      ensures match C.Allocate(old(Value()), entry)
              case Ok((table, raw)) => handle == Ok(raw) && Value() == table
              case Err(status) => handle == Err(status) && Value() == old(Value())
    {
      var index := FindFree();
      if index == SLOT_COUNT {
        var full := FullyOccupied();
        return Err(if full then HandleTableFull else GenerationExhausted);
      }
      var raw := EncodeHandle(index, slots[index].generation);
      match raw {
        case None => return Err(GenerationExhausted);
        case Some(value) =>
          slots[index] := slots[index].(entry := Some(entry));
          return Ok(value);
      }
    }

    method InstallBuilding(objectType: u64, target: ObjectReference, rights: u64) returns (handle: Option<u64>)
      requires Valid()
      modifies slots
      ensures match C.InstallBuilding(old(Value()), objectType, target, rights)
              case Some((table, raw)) => handle == Some(raw) && Value() == table
              case None => handle == None && Value() == old(Value())
    {
      if state != TableBuilding || !ValidRights(objectType, rights) || taskId == 0 || taskGeneration == 0
         || target.id == 0 || target.generation == 0
      {
        return None;
      }
      var installed := Allocate(CapabilityEntry(taskId, taskGeneration, objectType, rights, target));
      match installed
      case Ok(raw) => return Some(raw);
      case Err(_) => return None;
    }

    method ResolveTyped(task: u64, generation: u64, raw: u64, objectType: u64, right: u64)
      returns (entry: Result<CapabilityEntry, TrapStatus>)
      requires Valid() && right > 0
      ensures entry == C.ResolveTyped(Value(), task, generation, raw, objectType, right)
    {
      if state != TableLive || taskId != task || taskGeneration != generation {
        return Err(InvalidHandle);
      }
      var parts := DecodeHandle(raw);
      match parts {
        case None => return Err(InvalidHandle);
        case Some((index, g)) =>
          var slot := slots[index];
          if slot.retired || slot.generation != g {
            return Err(InvalidHandle);
          }
          match slot.entry {
            case None => return Err(InvalidHandle);
            case Some(found) =>
              if found.taskId != task || found.taskGeneration != generation {
                return Err(InvalidHandle);
              }
              if found.objectType != objectType {
                return Err(WrongObject);
              }
              if !HasRight(found.rights, right) {
                return Err(RightsDenied);
              }
              return Ok(found);
          }
      }
    }

    method Duplicate(task: u64, generation: u64, source: u64, requested: u64) returns (handle: Result<u64, TrapStatus>)
      requires Valid()
      modifies slots
      ensures match C.Duplicate(old(Value()), task, generation, source, requested)
              case Ok((table, raw)) => handle == Ok(raw) && Value() == table
              case Err(status) => handle == Err(status) && Value() == old(Value())
    {
      var entry := ResolveTyped(task, generation, source, OBJECT_ENDPOINT, RIGHT_DUPLICATE);
      match entry {
        case Err(status) => return Err(status);
        case Ok(found) =>
          if !ValidRights(OBJECT_ENDPOINT, requested) || !RightsWithin(requested, found.rights) {
            return Err(InvalidRights);
          }
          handle := Allocate(found.(rights := requested));
      }
    }

    method Close(task: u64, generation: u64, raw: u64) returns (closed: Outcome<TrapStatus>)
      requires Valid()
      modifies slots
      ensures match C.Close(old(Value()), task, generation, raw)
              case Ok(table) => closed == Pass && Value() == table
              case Err(status) => closed == Fail(status) && Value() == old(Value())
    {
      if state != TableLive || taskId != task || taskGeneration != generation {
        return Fail(InvalidHandle);
      }
      var parts := DecodeHandle(raw);
      match parts {
        case None => return Fail(InvalidHandle);
        case Some((index, g)) =>
          var slot := slots[index];
          if slot.retired || slot.generation != g || slot.entry.None? {
            return Fail(InvalidHandle);
          }
          slots[index] := RemoveEntry(slot);
          return Pass;
      }
    }

    method Publish() returns (published: bool)
      requires Valid()
      modifies this`state
      ensures published <==> old(state) == TableBuilding
      ensures Value() == if published then old(Value()).(state := TableLive) else old(Value())
    {
      published := state == TableBuilding;
      if published {
        state := TableLive;
      }
    }

    method MarkClosing() returns (marked: Outcome<R.RuntimeError>)
      requires Valid()
      modifies this`state
      ensures if old(state) != TableLive then marked == Fail(R.WrongState) && Value() == old(Value())
              else marked == Pass && Value() == old(Value()).(state := TableClosing)
    {
      if state != TableLive {
        return Fail(R.WrongState);
      }
      state := TableClosing;
      return Pass;
    }

    /** Empties every slot of a closing table, each into its next generation. */
    method CloseAll() returns (closed: Outcome<R.RuntimeError>)
      requires Valid()
      modifies slots
      ensures if state != TableClosing then closed == Fail(R.WrongState) && Value() == old(Value())
              else closed == Pass && Value() == old(Value()).(slots := CloseAllSlots(old(slots[..])))
    {
      if state != TableClosing {
        return Fail(R.WrongState);
      }
      ghost var before := slots[..];
      var i := 0;
      while i < SLOT_COUNT
        invariant 0 <= i <= SLOT_COUNT
        invariant forall j :: 0 <= j < i ==> slots[j] == CloseAllSlots(before)[j]
        invariant forall j :: i <= j < SLOT_COUNT ==> slots[j] == before[j]
      {
        if slots[i].entry.Some? {
          slots[i] := RemoveEntry(slots[i]);
        }
        i := i + 1;
      }
      assert slots[..] == CloseAllSlots(before);
      var empty := IsEmpty();
      if !empty {
        return Fail(R.CapabilityInvariant);
      }
      return Pass;
    }

    /** Marks the table closing and empties it. */
    method BeginClosing() returns (closed: Outcome<R.RuntimeError>)
      requires Valid()
      modifies this`state, slots
      ensures if old(state) != TableLive then closed == Fail(R.WrongState) && Value() == old(Value())
              else closed == Pass && Value() == R.CloseTable(old(Value())) && NoEntries(Value().slots)
    {
      closed := MarkClosing();
      if closed.Pass? {
        closed := CloseAll();
      }
    }

    /** Blanks an emptied closing table. */
    method FinishDead() returns (finished: Outcome<R.RuntimeError>)
      requires Valid()
      modifies this, slots
      ensures if old(state) != TableClosing || !NoEntries(old(Value().slots))
              then finished == Fail(R.WrongState) && Value() == old(Value())
              else finished == Pass && Value() == DeadTable()
    {
      var empty := IsEmpty();
      if state != TableClosing || !empty {
        return Fail(R.WrongState);
      }
      Restore(DeadTable());
      return Pass;
    }

    method IsEmpty() returns (empty: bool)
      requires Valid()
      ensures empty <==> NoEntries(Value().slots)
    {
      var i := 0;
      while i < SLOT_COUNT
        invariant 0 <= i <= SLOT_COUNT
        invariant forall j :: 0 <= j < i ==> slots[j].entry.None?
      {
        if slots[i].entry.Some? {
          assert Value().slots[i].entry.Some?;
          return false;
        }
        i := i + 1;
      }
      return true;
    }

    /** The table's own consistency check. */
    method Check() returns (sound: bool)
      requires Valid()
      ensures sound <==> TableValid(Value())
    {
      hide ValidRights;
      if state == TableDead {
        sound := taskId == 0 && taskGeneration == 0;
        var k := 0;
        while k < SLOT_COUNT && sound
          invariant 0 <= k <= SLOT_COUNT
          invariant sound <==> taskId == 0 && taskGeneration == 0 && forall j :: 0 <= j < k ==> slots[j] == EMPTY_SLOT
        {
          sound := slots[k] == EMPTY_SLOT;
          k := k + 1;
        }
        assert sound ==> slots[..] == EmptySlots();
        assert Value() == DeadTable() ==> forall j :: 0 <= j < SLOT_COUNT ==> slots[j] == EmptySlots()[j];
        return;
      }
      if taskId == 0 || taskGeneration == 0 {
        return false;
      }
      var empty := IsEmpty();
      if state == TableClosing && !empty {
        return false;
      }
      var i := 0;
      while i < SLOT_COUNT
        invariant 0 <= i <= SLOT_COUNT
        invariant forall j :: 0 <= j < i ==> SlotValid(Value(), slots[j])
      {
        if !SlotValid(Value(), slots[i]) {
          assert Value().slots[i] == slots[i];
          return false;
        }
        i := i + 1;
      }
      return true;
    }
  }

  /** At most two waiting tasks, taken from the front by shifting. */
  class RunQueue {
    const entries: array<u64>
    var len: nat

    ghost predicate Valid()
      reads this, entries
    {
      entries.Length == 2 && len <= 2 && forall i :: len <= i < 2 ==> entries[i] == 0
    }

    function Value(): seq<u64>
      requires Valid()
      reads this, entries
    {
      entries[..len]
    }

    constructor ()
      ensures Valid() && Value() == [] && fresh(entries)
    {
      entries := new u64[2](_ => 0);
      len := 0;
    }

    method Restore(before: seq<u64>)
      requires Valid() && |before| <= 2
      modifies this`len, entries
      ensures Valid() && Value() == before
    {
      entries[0] := if |before| > 0 then before[0] else 0;
      entries[1] := if |before| > 1 then before[1] else 0;
      len := |before|;
    }

    /** Only the two tasks, neither of them twice. */
    method Check() returns (sound: Outcome<R.RuntimeError>)
      requires Valid()
      ensures sound == R.ValidateQueue(Value())
    {
      var i := 0;
      while i < len
        invariant 0 <= i <= len
        invariant forall j :: 0 <= j < i ==> R.IsTask(entries[j])
        invariant i == 2 ==> entries[0] != entries[1]
      {
        if !R.IsTask(entries[i]) || (i == 1 && entries[0] == entries[1]) {
          assert Value()[i] == entries[i];
          return Fail(R.DuplicateQueueMember);
        }
        i := i + 1;
      }
      return Pass;
    }

    method Contains(task: u64) returns (found: bool)
      requires Valid()
      ensures found <==> task in Value()
    {
      var i := 0;
      while i < len
        invariant 0 <= i <= len && task !in entries[..i]
      {
        if entries[i] == task {
          return true;
        }
        i := i + 1;
      }
      return false;
    }

    method Push(task: u64) returns (pushed: Outcome<R.RuntimeError>)
      requires Valid()
      modifies this`len, entries
      ensures Valid()
      ensures match R.Push(old(Value()), task)
              case Ok(queue) => pushed == Pass && Value() == queue
              case Err(e) => pushed == Fail(e) && Value() == old(Value())
    {
      var found := Contains(task);
      if found {
        return Fail(R.DuplicateQueueMember);
      }
      if len == 2 {
        return Fail(R.QueueFull);
      }
      entries[len] := task;
      len := len + 1;
      return Pass;
    }

    method Pop() returns (task: Option<u64>)
      requires Valid()
      modifies this`len, entries
      ensures Valid()
      ensures if old(Value()) == [] then task == None && Value() == []
              else task == Some(old(Value())[0]) && Value() == old(Value())[1..]
    {
      if len == 0 {
        return None;
      }
      var head := entries[0];
      var index := 1;
      while index < len
        invariant 1 <= index <= len == old(len)
        invariant forall i :: 0 <= i < index - 1 ==> entries[i] == old(entries[i + 1])
        invariant forall i :: index - 1 <= i < 2 && i >= 1 ==> entries[i] == old(entries[i])
      {
        entries[index - 1] := entries[index];
        index := index + 1;
      }
      len := len - 1;
      entries[len] := 0;
      return Some(head);
    }
  }
}
