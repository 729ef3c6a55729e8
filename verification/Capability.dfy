/**
 Task-local capability tables: sixteen slots, each with a generation that is
 folded into the raw handle, retired for good once its generations run out.
 */
module Capability {
  import opened Words
  import opened TrapAbi

  const SLOT_COUNT: nat := 16
  const GENERATION_MAX: int := 0xFFF_FFFF_FFFF_FFFF

  const RIGHT_SEND: u64 := 1
  const RIGHT_RECEIVE: u64 := 2
  const RIGHT_DUPLICATE: u64 := 4
  const RIGHT_START: u64 := 8
  const RIGHT_SUBMIT_APPROVAL: u64 := 16
  const RIGHT_DECIDE_APPROVAL: u64 := 32
  const RIGHT_COMMIT_EFFECT: u64 := 64
  const RIGHT_READ_EFFECT_JOURNAL: u64 := 128

  const OBJECT_ENDPOINT: u64 := 1
  const OBJECT_TASK_CONTROL: u64 := 2
  const OBJECT_APPROVAL_BROKER: u64 := 3
  const OBJECT_TEST_EFFECT: u64 := 4
  const OBJECT_EFFECT_JOURNAL: u64 := 5

  datatype TableState = TableBuilding | TableLive | TableClosing | TableDead

  datatype ObjectReference = ObjectReference(id: u64, generation: u64)

  datatype CapabilityEntry = CapabilityEntry(
    taskId: u64, taskGeneration: u64, objectType: u64, rights: u64, target: ObjectReference)

  datatype CapabilitySlot = CapabilitySlot(generation: u64, retired: bool, entry: Option<CapabilityEntry>)

  const EMPTY_SLOT: CapabilitySlot := CapabilitySlot(1, false, None)

  type Slots = s: seq<CapabilitySlot> | |s| == 16 witness seq(16, i => EMPTY_SLOT)

  function EmptySlots(): Slots {
    seq(16, i => EMPTY_SLOT)
  }

  datatype Table = Table(taskId: u64, taskGeneration: u64, state: TableState, slots: Slots)

  function DeadTable(): Table {
    Table(0, 0, TableDead, EmptySlots())
  }

  function BuildingTable(task: u64, generation: u64): Table {
    Table(task, generation, TableBuilding, EmptySlots())
  }

  // Handles ------------------------------------------------------------------

  function EncodeHandle(slot: nat, generation: u64): (raw: Option<u64>)
    ensures raw.Some? <==> slot < SLOT_COUNT && 1 <= generation <= GENERATION_MAX
    ensures raw.Some? ==> DecodeHandle(raw.value) == Some((slot, generation))
  {
    if slot >= SLOT_COUNT || generation == 0 || generation > GENERATION_MAX then None
    else Some(generation * 16 + slot)
  }

  function DecodeHandle(raw: u64): (parts: Option<(nat, u64)>)
    ensures parts.Some? <==> raw >= 16
    ensures parts.Some? ==>
              && parts.value.0 < SLOT_COUNT
              && 1 <= parts.value.1 <= GENERATION_MAX
              && raw == parts.value.1 * 16 + parts.value.0
  {
    if raw / 16 == 0 then None else Some((raw % 16, raw / 16))
  }

  // Rights -------------------------------------------------------------------

  predicate HasRight(rights: u64, right: u64)
    requires right > 0
  {
    (rights / right) % 2 == 1
  }

  /** `requested & !held == 0` for requests that passed `ValidRights(OBJECT_ENDPOINT, _)`. */
  predicate RightsWithin(requested: u64, held: u64) {
    && (HasRight(requested, RIGHT_SEND) ==> HasRight(held, RIGHT_SEND))
    && (HasRight(requested, RIGHT_RECEIVE) ==> HasRight(held, RIGHT_RECEIVE))
    && (HasRight(requested, RIGHT_DUPLICATE) ==> HasRight(held, RIGHT_DUPLICATE))
  }

  predicate ValidRights(objectType: u64, rights: u64) {
    && 0 < rights <= 255
    && match objectType
       case 1 => rights <= RIGHT_SEND + RIGHT_RECEIVE + RIGHT_DUPLICATE
       case 2 => rights == RIGHT_START
       case 3 => rights == RIGHT_SUBMIT_APPROVAL || rights == RIGHT_DECIDE_APPROVAL
       case 4 => rights == RIGHT_COMMIT_EFFECT
       case 5 => rights == RIGHT_READ_EFFECT_JOURNAL
       case _ => false
  }

  // Table operations ---------------------------------------------------------

  predicate Free(slot: CapabilitySlot) {
    slot.entry.None? && !slot.retired
  }

  /** The first free slot at or after `from`, or `SLOT_COUNT`. */
  function FirstFree(slots: Slots, from: nat): (index: nat)
    requires from <= SLOT_COUNT
    ensures from <= index <= SLOT_COUNT
    ensures index < SLOT_COUNT ==> Free(slots[index])
    ensures forall k :: from <= k < index ==> !Free(slots[k])
    decreases SLOT_COUNT - from
  {
    if from == SLOT_COUNT || Free(slots[from]) then from else FirstFree(slots, from + 1)
  }

  predicate AllOccupied(slots: Slots) {
    forall i :: 0 <= i < SLOT_COUNT ==> slots[i].entry.Some?
  }

  predicate NoEntries(slots: Slots) {
    forall i :: 0 <= i < SLOT_COUNT ==> slots[i].entry.None?
  }

  predicate Owns(t: Table, task: u64, generation: u64) {
    t.state == TableLive && t.taskId == task && t.taskGeneration == generation
  }

  function ResolveTyped(t: Table, task: u64, generation: u64, raw: u64, objectType: u64, right: u64):
    Result<CapabilityEntry, TrapStatus>
    requires right > 0
  {
    if !Owns(t, task, generation) then Err(InvalidHandle)
    else
      match DecodeHandle(raw)
      case None => Err(InvalidHandle)
      case Some((index, g)) =>
        var slot := t.slots[index];
        if slot.retired || slot.generation != g || slot.entry.None? then Err(InvalidHandle)
        else
          var entry := slot.entry.value;
          if entry.taskId != task || entry.taskGeneration != generation then Err(InvalidHandle)
          else if entry.objectType != objectType then Err(WrongObject)
          else if !HasRight(entry.rights, right) then Err(RightsDenied)
          else Ok(entry)
  }

  function Allocate(t: Table, entry: CapabilityEntry): (r: Result<(Table, u64), TrapStatus>)
    ensures r.Ok? ==> FirstFree(t.slots, 0) < SLOT_COUNT
  {
    var index := FirstFree(t.slots, 0);
    if index == SLOT_COUNT then
      Err(if AllOccupied(t.slots) then HandleTableFull else GenerationExhausted)
    else
      match EncodeHandle(index, t.slots[index].generation)
      case None => Err(GenerationExhausted)
      case Some(raw) =>
        Ok((t.(slots := t.slots[index := t.slots[index].(entry := Some(entry))]), raw))
  }

  function Duplicate(t: Table, task: u64, generation: u64, source: u64, requested: u64):
    Result<(Table, u64), TrapStatus>
  {
    var entry :- ResolveTyped(t, task, generation, source, OBJECT_ENDPOINT, RIGHT_DUPLICATE);
    if !ValidRights(OBJECT_ENDPOINT, requested) || !RightsWithin(requested, entry.rights) then
      Err(InvalidRights)
    else
      Allocate(t, entry.(rights := requested))
  }

  /** Emptying a slot moves it to its next generation, or retires it at the last one. */
  function RemoveEntry(slot: CapabilitySlot): CapabilitySlot {
    if slot.generation == GENERATION_MAX then CapabilitySlot(slot.generation, true, None)
    else if slot.generation < U64_MAX then CapabilitySlot(slot.generation + 1, slot.retired, None)
    else CapabilitySlot(0, slot.retired, None)
  }

  function Close(t: Table, task: u64, generation: u64, raw: u64): Result<Table, TrapStatus> {
    if !Owns(t, task, generation) then Err(InvalidHandle)
    else
      match DecodeHandle(raw)
      case None => Err(InvalidHandle)
      case Some((index, g)) =>
        var slot := t.slots[index];
        if slot.retired || slot.generation != g || slot.entry.None? then Err(InvalidHandle)
        else Ok(t.(slots := t.slots[index := RemoveEntry(slot)]))
  }

  function InstallBuilding(t: Table, objectType: u64, target: ObjectReference, rights: u64):
    Option<(Table, u64)>
  {
    if t.state != TableBuilding || !ValidRights(objectType, rights) || t.taskId == 0
       || t.taskGeneration == 0 || target.id == 0 || target.generation == 0
    then None
    else
      match Allocate(t, CapabilityEntry(t.taskId, t.taskGeneration, objectType, rights, target))
      case Ok(pair) => Some(pair)
      case Err(_) => None
  }

  /** Every occupied slot emptied; free and retired slots untouched. */
  function CloseAllSlots(slots: Slots): Slots {
    seq(16, i requires 0 <= i < 16 => if slots[i].entry.Some? then RemoveEntry(slots[i]) else slots[i])
  }

  predicate TableValid(t: Table) {
    if t.state == TableDead then t == DeadTable()
    else
      && t.taskId != 0
      && t.taskGeneration != 0
      && (t.state == TableClosing ==> NoEntries(t.slots))
      && forall i :: 0 <= i < SLOT_COUNT ==> SlotValid(t, t.slots[i])
  }

  predicate SlotValid(t: Table, slot: CapabilitySlot) {
    && 0 < slot.generation <= GENERATION_MAX
    && (slot.retired ==> slot.entry.None?)
    && (slot.entry.Some? ==>
          var e := slot.entry.value;
          && e.taskId == t.taskId
          && e.taskGeneration == t.taskGeneration
          && e.objectType != 0
          && ValidRights(e.objectType, e.rights)
          && e.target.id != 0
          && e.target.generation != 0)
  }

  // Whole runs of duplicate and close ---------------------------------------

  datatype HandleOp = DuplicateOp(source: u64, requested: u64) | CloseOp(raw: u64)

  function ApplyOp(t: Table, op: HandleOp): (Table, Option<u64>) {
    match op
    case DuplicateOp(source, requested) =>
      (match Duplicate(t, t.taskId, t.taskGeneration, source, requested)
       case Ok((t', raw)) => (t', Some(raw))
       case Err(_) => (t, None))
    case CloseOp(raw) =>
      (match Close(t, t.taskId, t.taskGeneration, raw)
       case Ok(t') => (t', None)
       case Err(_) => (t, None))
  }

  function RunOps(t: Table, ops: seq<HandleOp>): Table
    decreases ops
  {
    if ops == [] then t else RunOps(ApplyOp(t, ops[0]).0, ops[1..])
  }

  /** The raw handles a run hands out, in order. */
  function Issued(t: Table, ops: seq<HandleOp>): seq<u64>
    decreases ops
  {
    if ops == [] then []
    else
      var (t', raw) := ApplyOp(t, ops[0]);
      (if raw.Some? then [raw.value] else []) + Issued(t', ops[1..])
  }

  /** Generations are in range and a retired slot is empty at its last generation. */
  predicate GenerationsSound(t: Table) {
    forall i :: 0 <= i < SLOT_COUNT ==>
      && 1 <= t.slots[i].generation <= GENERATION_MAX
      && (t.slots[i].retired ==> t.slots[i].entry.None? && t.slots[i].generation == GENERATION_MAX)
  }

  /** The handle has been issued already: it is live now or can never be live again. */
  predicate Spent(t: Table, raw: u64) {
    match DecodeHandle(raw)
    case None => true
    case Some((index, g)) =>
      var slot := t.slots[index];
      slot.generation > g || (slot.generation == g && (slot.retired || slot.entry.Some?))
  }

  /** The handle can never resolve again. */
  predicate Gone(t: Table, raw: u64) {
    match DecodeHandle(raw)
    case None => true
    case Some((index, g)) => t.slots[index].generation > g || t.slots[index].retired
  }

  lemma ApplyOpSteps(t: Table, op: HandleOp, raw: u64)
    requires GenerationsSound(t)
    ensures var (t', issued) := ApplyOp(t, op);
            && GenerationsSound(t')
            && (Spent(t, raw) ==> Spent(t', raw))
            && (Gone(t, raw) ==> Gone(t', raw))
            && (issued.Some? ==> !Spent(t, issued.value) && Spent(t', issued.value))
            && t'.taskId == t.taskId && t'.taskGeneration == t.taskGeneration && t'.state == t.state
  {
  }

  /** No table issues the same raw handle twice, nor one that is already spent. */
  lemma {:induction false} HandlesNeverReissued(t: Table, ops: seq<HandleOp>)
    requires GenerationsSound(t)
    ensures forall k :: 0 <= k < |Issued(t, ops)| ==> !Spent(t, Issued(t, ops)[k])
    ensures forall j, k :: 0 <= j < k < |Issued(t, ops)| ==> Issued(t, ops)[j] != Issued(t, ops)[k]
    decreases ops
  {
    if ops != [] {
      var (t', raw) := ApplyOp(t, ops[0]);
      ApplyOpSteps(t, ops[0], 0);
      HandlesNeverReissued(t', ops[1..]);
      forall k | 0 <= k < |Issued(t', ops[1..])|
        ensures !Spent(t, Issued(t', ops[1..])[k])
      {
        ApplyOpSteps(t, ops[0], Issued(t', ops[1..])[k]);
      }
    }
  }

  lemma {:induction false} GoneForever(t: Table, raw: u64, ops: seq<HandleOp>)
    requires GenerationsSound(t) && Gone(t, raw)
    ensures var end := RunOps(t, ops);
            Gone(end, raw) && end.taskId == t.taskId && end.taskGeneration == t.taskGeneration
    decreases ops
  {
    if ops != [] {
      ApplyOpSteps(t, ops[0], raw);
      GoneForever(ApplyOp(t, ops[0]).0, raw, ops[1..]);
    }
  }

  /** Once closed, a raw handle resolves to nothing after any later duplicates and closes. */
  lemma {:induction false} ClosedHandleNeverResolves(
    t: Table, raw: u64, ops: seq<HandleOp>, objectType: u64, right: u64)
    requires GenerationsSound(t) && right > 0
    requires Close(t, t.taskId, t.taskGeneration, raw).Ok?
    ensures var closed := Close(t, t.taskId, t.taskGeneration, raw).value;
            var end := RunOps(closed, ops);
            && ResolveTyped(end, t.taskId, t.taskGeneration, raw, objectType, right) == Err(InvalidHandle)
            && Close(end, t.taskId, t.taskGeneration, raw) == Err(InvalidHandle)
  {
    var closed := Close(t, t.taskId, t.taskGeneration, raw).value;
    assert GenerationsSound(closed);
    GoneForever(closed, raw, ops);
  }

  /** `e` names the same object as some entry of `t` and holds no right that entry lacks. */
  predicate Derived(t: Table, e: CapabilityEntry) {
    exists i :: 0 <= i < SLOT_COUNT && t.slots[i].entry.Some? &&
      var o := t.slots[i].entry.value;
      e == o.(rights := e.rights) && (e.rights == o.rights || RightsWithin(e.rights, o.rights))
  }

  lemma DerivedStep(t: Table, op: HandleOp, e: CapabilityEntry)
    requires Derived(ApplyOp(t, op).0, e)
    ensures Derived(t, e)
  {
    var t' := ApplyOp(t, op).0;
    var i :| 0 <= i < SLOT_COUNT && t'.slots[i].entry.Some? &&
      e == t'.slots[i].entry.value.(rights := e.rights) &&
      (e.rights == t'.slots[i].entry.value.rights || RightsWithin(e.rights, t'.slots[i].entry.value.rights));
    if t'.slots[i] != t.slots[i] && op.DuplicateOp? {
      var (source, _) := DecodeHandle(op.source).value;
      assert t.slots[source].entry.Some?;
    }
  }

  /** No run of duplicates and closes adds a right or an object the table did not start with. */
  lemma {:induction false} RightsNeverGrow(t: Table, ops: seq<HandleOp>, i: nat)
    requires i < SLOT_COUNT && RunOps(t, ops).slots[i].entry.Some?
    ensures Derived(t, RunOps(t, ops).slots[i].entry.value)
    decreases ops
  {
    if ops != [] {
      RightsNeverGrow(ApplyOp(t, ops[0]).0, ops[1..], i);
      DerivedStep(t, ops[0], RunOps(t, ops).slots[i].entry.value);
    }
  }
}
