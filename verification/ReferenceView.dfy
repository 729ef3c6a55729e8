/**
 How a runtime state looks to the two programs, and how the capability table behind
 it serves the handles of the reference machine.
 */
module ReferenceView {
  import opened Words
  import opened TrapAbi
  import opened Capability
  import opened Runtime
  import Ref = Reference

  // Handles ----------------------------------------------------------------------------------------

  function ThingOf(objectType: u64): Ref.Thing {
    match objectType
    case 1 => Ref.Mail
    case 2 => Ref.Control
    case 3 => Ref.Desk
    case 4 => Ref.Effect
    case _ => Ref.Book
  }

  function PowerOf(e: CapabilityEntry): Ref.Power {
    Ref.Power(ThingOf(e.objectType), Ref.Rights(e.rights))
  }

  /** The handle is the current name of an occupied slot. */
  predicate Names(t: Table, handle: u64) {
    handle >= 16 &&
    var slot := t.slots[handle % 16];
    !slot.retired && slot.generation == handle / 16 && slot.entry.Some?
  }

  ghost function HeldIn(t: Table): map<u64, Ref.Power> {
    map handle: u64 | 0 <= handle <= U64_MAX && Names(t, handle) :: PowerOf(t.slots[handle % 16].entry.value)
  }

  function NameAt(t: Table, i: nat): u64
    requires i < SLOT_COUNT
  {
    var slot := t.slots[i];
    if slot.retired || slot.generation > GENERATION_MAX then 0 else slot.generation * 16 + i
  }

  function NamesIn(t: Table): (names: seq<u64>)
    ensures |names| == 16
  {
    seq(16, i requires 0 <= i < 16 => NameAt(t, i))
  }

  // States -----------------------------------------------------------------------------------------

  function MoodOf(state: TaskState): Ref.Mood {
    match state
    case Staged => Ref.Staged
    case Ready => Ref.Waiting
    case BlockedReceive => Ref.AwaitsMessage
    case BlockedApproval => Ref.AwaitsDecision
    case _ => Ref.Busy
  }

  function RegistersOf(c: TaskContext): Ref.Registers {
    TrapFrame(c.rax, c.rdi, c.rsi, c.rdx, c.other)
  }

  ghost function TaskOf(slot: TaskSlot): Ref.Task {
    if slot.state == Exited || slot.state == TaskDead then Ref.Gone
    else
      Ref.Present(MoodOf(slot.state), RegistersOf(slot.context), HeldIn(slot.capabilities), NamesIn(slot.capabilities))
  }

  function AskOf(b: Broker): Option<Ref.Ask> {
    if b.requestPresent then Some(Ref.Ask(b.request.sequence, b.request.argument, b.state == BrokerApproved)) else None
  }

  function DeskOf(b: Broker): Option<Ref.ApprovalDesk> {
    if b.state == BrokerBuilding || b.state == BrokerClosing || b.state == BrokerDead || b.nextSequence == 0 then None
    else Some(Ref.ApprovalDesk(b.nextSequence - 1, b.decisionEpoch, AskOf(b)))
  }

  ghost function View(s: RuntimeState, turn: Ref.Turn, log: Option<Ref.Log>): Ref.World {
    Ref.World(
      s.profile == Supervised, turn, TaskOf(s.sender), TaskOf(s.receiver), s.queue,
      if s.endpoint.occupied then Some(s.endpoint.payload) else None,
      DeskOf(s.broker), if s.effect.occupied then Some(s.effect.value) else None, log)
  }

  // The table serves the handles -------------------------------------------------------------------

  predicate ServesTable(t: Table, task: u64, generation: u64) {
    && Owns(t, task, generation) && GenerationsSound(t)
    && forall i :: 0 <= i < SLOT_COUNT && t.slots[i].entry.Some? ==>
         var e := t.slots[i].entry.value;
         e.taskId == task && e.taskGeneration == generation && 1 <= e.objectType <= 5
  }

  /** The answer of a resolution, told from the handles held. */
  lemma ResolveAnswers(t: Table, task: u64, generation: u64, handle: u64, objectType: u64, right: Ref.Right)
    requires ServesTable(t, task, generation) && 1 <= objectType <= 5
    ensures var r := ResolveTyped(t, task, generation, handle, objectType, right.Weight());
            match r
            case Err(status) =>
              status.Code() == Ref.Lacking(HeldIn(t), handle, ThingOf(objectType), right) && status != StatusOk
            case Ok(entry) =>
              && Ref.Lacking(HeldIn(t), handle, ThingOf(objectType), right) == 0
              && handle in HeldIn(t) && HeldIn(t)[handle] == PowerOf(entry) && entry.objectType == objectType
              && t.slots[handle % 16].entry == Some(entry)
  {
  }

  /** A slot's name is held exactly when the slot is occupied, and no two slots share one. */
  lemma NameIsHeld(t: Table, i: nat)
    requires GenerationsSound(t) && i < SLOT_COUNT
    ensures NameAt(t, i) == 0 <==> t.slots[i].retired
    ensures NameAt(t, i) in HeldIn(t) <==> t.slots[i].entry.Some?
    ensures NameAt(t, i) != 0 ==> NameAt(t, i) % 16 == i && NameAt(t, i) / 16 == t.slots[i].generation
  {
  }

  lemma {:induction false} VacantIsFree(t: Table, from: nat)
    requires GenerationsSound(t) && from <= SLOT_COUNT
    ensures Ref.Vacant(HeldIn(t), NamesIn(t), from) == FirstFree(t.slots, from)
    decreases SLOT_COUNT - from
  {
    hide HeldIn, GenerationsSound;
    if from < SLOT_COUNT {
      NameIsHeld(t, from);
      VacantIsFree(t, from + 1);
    }
  }

  /** Writing an entry into a free slot adds exactly one handle, the slot's name. */
  lemma EntryAddsHandle(t: Table, i: nat, e: CapabilityEntry)
    requires GenerationsSound(t) && i < SLOT_COUNT && Free(t.slots[i])
    ensures var t' := t.(slots := t.slots[i := t.slots[i].(entry := Some(e))]);
            HeldIn(t') == HeldIn(t)[NameAt(t, i) := PowerOf(e)] && NamesIn(t') == NamesIn(t)
  {
    hide NameAt, GenerationsSound, PowerOf;
    var t' := t.(slots := t.slots[i := t.slots[i].(entry := Some(e))]);
    forall h: u64 ensures Names(t', h) <==> Names(t, h) || h == NameAt(t, i) {
      hide Names;
      EntryNames(t, i, e, h);
    }
    forall k | 0 <= k < 16 ensures NameAt(t', k) == NameAt(t, k) {
      EntryKeepsName(t, i, e, k);
    }
    forall h: u64 | Names(t, h) ensures t'.slots[h % 16] == t.slots[h % 16] {}
    EntryNames(t, i, e, NameAt(t, i));
    NameIsAt(t, i);
  }

  lemma EntryNames(t: Table, i: nat, e: CapabilityEntry, h: u64)
    requires GenerationsSound(t) && i < SLOT_COUNT && Free(t.slots[i])
    ensures Names(t.(slots := t.slots[i := t.slots[i].(entry := Some(e))]), h) <==> Names(t, h) || h == NameAt(t, i)
  {
  }

  lemma EntryKeepsName(t: Table, i: nat, e: CapabilityEntry, k: nat)
    requires i < SLOT_COUNT && k < SLOT_COUNT
    ensures NameAt(t.(slots := t.slots[i := t.slots[i].(entry := Some(e))]), k) == NameAt(t, k)
  {
  }

  /** The name of a free slot leads back to it. */
  lemma NameIsAt(t: Table, i: nat)
    requires GenerationsSound(t) && i < SLOT_COUNT && Free(t.slots[i])
    ensures NameAt(t, i) % 16 == i
  {
  }

  /** Emptying an occupied slot removes exactly its handle and moves the slot to its next name. */
  lemma RemovalDropsHandle(t: Table, handle: u64)
    requires GenerationsSound(t) && Names(t, handle)
    ensures var i := handle % 16;
            var t' := t.(slots := t.slots[i := RemoveEntry(t.slots[i])]);
            && HeldIn(t') == HeldIn(t) - {handle}
            && NamesIn(t') == NamesIn(t)[i := if handle + 16 > U64_MAX then 0 else handle + 16]
  {
    var i := handle % 16;
    var t' := t.(slots := t.slots[i := RemoveEntry(t.slots[i])]);
    forall h: u64 ensures Names(t', h) <==> Names(t, h) && h != handle {
    }
    forall k | 0 <= k < 16
      ensures NameAt(t', k) == if k != i then NameAt(t, k) else if handle + 16 > U64_MAX then 0 else handle + 16
    {
    }
  }

  /** Small requests: bit by bit inside the held rights, as sets. */
  lemma WithinIsSubset(requested: u64, held: u64)
    requires 0 < requested <= 7
    ensures RightsWithin(requested, held) <==> Ref.Rights(requested) <= Ref.Rights(held)
  {
    forall r: Ref.Right | r in Ref.Rights(requested)
      ensures r == Ref.MaySend || r == Ref.MayReceive || r == Ref.MayDuplicate
    {
    }
    assert HasRight(requested, RIGHT_SEND) <==> Ref.MaySend in Ref.Rights(requested);
    assert HasRight(requested, RIGHT_RECEIVE) <==> Ref.MayReceive in Ref.Rights(requested);
    assert HasRight(requested, RIGHT_DUPLICATE) <==> Ref.MayDuplicate in Ref.Rights(requested);
    assert HasRight(held, RIGHT_SEND) <==> Ref.MaySend in Ref.Rights(held);
    assert HasRight(held, RIGHT_RECEIVE) <==> Ref.MayReceive in Ref.Rights(held);
    assert HasRight(held, RIGHT_DUPLICATE) <==> Ref.MayDuplicate in Ref.Rights(held);
  }

  /** A duplicate, told from the handles held: the first refusal, or one more handle for the rights asked for. */
  lemma DuplicateServes(t: Table, task: u64, generation: u64, source: u64, wanted: u64)
    requires ServesTable(t, task, generation)
    ensures var held, names := HeldIn(t), NamesIn(t);
            var lacking := Ref.Lacking(held, source, Ref.Mail, Ref.MayDuplicate);
            var i := Ref.Vacant(held, names, 0);
            match Duplicate(t, task, generation, source, wanted)
            case Err(status) =>
              status.Code() ==
              if lacking != 0 then lacking
              else if wanted == 0 || wanted > 7 || !(Ref.Rights(wanted) <= held[source].rights) then 9
              else if forall k :: 0 <= k < |names| ==> names[k] in held then 10 else 11
            case Ok((t', raw)) =>
              && lacking == 0 && 0 < wanted <= 7 && Ref.Rights(wanted) <= held[source].rights
              && i < 16 && raw == names[i]
              && HeldIn(t') == held[raw := Ref.Power(held[source].thing, Ref.Rights(wanted))] && NamesIn(t') == names
    ensures Duplicate(t, task, generation, source, wanted).Err? &&
              Ref.Lacking(HeldIn(t), source, Ref.Mail, Ref.MayDuplicate) == 0 &&
              0 < wanted <= 7 && Ref.Rights(wanted) <= HeldIn(t)[source].rights ==>
              Ref.Vacant(HeldIn(t), NamesIn(t), 0) == 16
  {
    hide HeldIn, NamesIn, ResolveTyped, Ref.Lacking, Ref.Rights, RightsWithin, GenerationsSound, Ref.Vacant, FirstFree;
    ResolveAnswers(t, task, generation, source, OBJECT_ENDPOINT, Ref.MayDuplicate);
    LackingIsHeld(HeldIn(t), source, Ref.Mail, Ref.MayDuplicate);
    VacantIsFree(t, 0);
    if 0 < wanted <= 7 {
      var r := ResolveTyped(t, task, generation, source, OBJECT_ENDPOINT, RIGHT_DUPLICATE);
      if r.Ok? {
        WithinIsSubset(wanted, r.value.rights);
        var i := FirstFree(t.slots, 0);
        if i < SLOT_COUNT {
          FreeIsNamed(t, i);
          EntryAddsHandle(t, i, r.value.(rights := wanted));
        } else {
          AllNamesHeld(t);
        }
      }
    }
  }

  lemma LackingIsHeld(held: map<u64, Ref.Power>, handle: u64, thing: Ref.Thing, right: Ref.Right)
    ensures Ref.Lacking(held, handle, thing, right) == 0 ==> handle in held && held[handle].thing == thing
  {
  }

  lemma FreeIsNamed(t: Table, i: nat)
    requires GenerationsSound(t) && i < SLOT_COUNT && Free(t.slots[i])
    ensures EncodeHandle(i, t.slots[i].generation) == Some(NameAt(t, i)) && NamesIn(t)[i] == NameAt(t, i)
  {
  }

  lemma AllNamesHeld(t: Table)
    requires GenerationsSound(t)
    ensures AllOccupied(t.slots) <==> forall k :: 0 <= k < 16 ==> NamesIn(t)[k] in HeldIn(t)
  {
    hide HeldIn;
    forall k | 0 <= k < 16 ensures NamesIn(t)[k] in HeldIn(t) <==> t.slots[k].entry.Some? {
      NameIsHeld(t, k);
    }
    if AllOccupied(t.slots) {
    } else {
      var k :| 0 <= k < SLOT_COUNT && t.slots[k].entry.None?;
      assert NamesIn(t)[k] !in HeldIn(t);
    }
  }

  /** A close, told from the handles held: the handle goes and its slot moves to the next name, or nothing changes. */
  lemma CloseServes(t: Table, task: u64, generation: u64, handle: u64)
    requires ServesTable(t, task, generation)
    ensures match Close(t, task, generation, handle)
            case Err(status) => status == InvalidHandle && handle !in HeldIn(t)
            case Ok(t') =>
              && handle in HeldIn(t) && HeldIn(t') == HeldIn(t) - {handle}
              && NamesIn(t') == NamesIn(t)[handle % 16 := if handle + 16 > U64_MAX then 0 else handle + 16]
  {
    if Close(t, task, generation, handle).Ok? {
      RemovalDropsHandle(t, handle);
    }
  }
}
