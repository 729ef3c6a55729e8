/**
 Exactly what copying and closing a handle do to a capability table: which slot
 changes, to what, when, and that nothing else does.
 */
module HandleLaws {
  import opened Words
  import opened TrapAbi
  import opened Capability

  /** Bit by bit, every bit of `a` is one of `b`. */
  predicate BitsWithin(a: nat, b: nat)
    decreases a
  {
    a == 0 || ((a % 2 == 1 ==> b % 2 == 1) && BitsWithin(a / 2, b / 2))
  }

  lemma {:induction false} LowestBit(a: nat, b: nat)
    ensures BitsWithin(a, b) <==> (a % 2 == 1 ==> b % 2 == 1) && BitsWithin(a / 2, b / 2)
  {
  }

  lemma {:induction false} EndpointBits(wanted: nat, held: nat)
    requires held <= 7
    ensures BitsWithin(wanted, held) <==>
              && wanted <= 7
              && (wanted % 2 == 1 ==> held % 2 == 1)
              && (wanted / 2 % 2 == 1 ==> held / 2 % 2 == 1)
              && (wanted / 4 % 2 == 1 ==> held / 4 % 2 == 1)
  {
    hide BitsWithin;
    LowestBit(wanted, held);
    LowestBit(wanted / 2, held / 2);
    LowestBit(wanted / 4, held / 4);
    assert wanted / 2 / 2 == wanted / 4 && held / 2 / 2 == held / 4;
    assert wanted / 4 / 2 == wanted / 8 && held / 4 / 2 == 0;
    NoBits(wanted / 8);
  }

  lemma {:induction false} NoBits(a: nat)
    ensures BitsWithin(a, 0) <==> a == 0
    decreases a
  {
    if a > 0 { NoBits(a / 2); }
  }

  /** The handle names an occupied slot of a live table of this task. */
  predicate Names(t: Table, task: u64, generation: u64, handle: u64) {
    && t.state == TableLive && t.taskId == task && t.taskGeneration == generation
    && handle >= 16
    && t.slots[handle % 16].generation == handle / 16 && t.slots[handle % 16].entry.Some?
  }

  /** The one table a successful copy may leave. */
  predicate CopiedTo(t: Table, source: u64, wanted: u64, i: nat, t': Table, handle: u64)
    requires t.slots[source % 16].entry.Some?
  {
    && i < 16 && t.slots[i].entry.None? && !t.slots[i].retired
    && (forall k :: 0 <= k < i ==> t.slots[k].entry.Some? || t.slots[k].retired)
    && handle == t.slots[i].generation * 16 + i
    && t'.taskId == t.taskId && t'.taskGeneration == t.taskGeneration && t'.state == t.state
    && t'.slots[i].generation == t.slots[i].generation && !t'.slots[i].retired
    && t'.slots[i].entry == Some(t.slots[source % 16].entry.value.(rights := wanted))
    && (forall k :: 0 <= k < 16 && k != i ==> t'.slots[k] == t.slots[k])
  }

  /** When a copy is made. */
  predicate MayCopy(t: Table, task: u64, generation: u64, source: u64, wanted: u64) {
    && Names(t, task, generation, source)
    && t.slots[source % 16].entry.value.objectType == 1
    && (t.slots[source % 16].entry.value.rights / 4) % 2 == 1
    && 0 < wanted && BitsWithin(wanted, t.slots[source % 16].entry.value.rights)
    && exists i :: 0 <= i < 16 && t.slots[i].entry.None? && !t.slots[i].retired
  }

  lemma CopyWhen(t: Table, task: u64, generation: u64, source: u64, wanted: u64)
    requires TableValid(t)
    ensures Duplicate(t, task, generation, source, wanted).Ok? <==> MayCopy(t, task, generation, source, wanted)
  {
    var i := FirstFree(t.slots, 0);
    if Names(t, task, generation, source) {
      var e := t.slots[source % 16].entry.value;
      assert SlotValid(t, t.slots[source % 16]);
      if e.objectType == 1 { EndpointBits(wanted, e.rights); }
    }
    if i < SLOT_COUNT {
      assert SlotValid(t, t.slots[i]);
      assert Free(t.slots[i]);
    } else {
      assert forall k :: 0 <= k < 16 ==> !Free(t.slots[k]);
    }
  }

  lemma CopyWhere(t: Table, task: u64, generation: u64, source: u64, wanted: u64)
    requires TableValid(t) && Duplicate(t, task, generation, source, wanted).Ok?
    ensures Names(t, task, generation, source)
    ensures var (t', handle) := Duplicate(t, task, generation, source, wanted).value;
            CopiedTo(t, source, wanted, FirstFree(t.slots, 0), t', handle)
  {
  }

  /**
   Copying a handle succeeds exactly when the source allows it, the request is a non-empty part of what it holds and
   a slot is free. Then the first free slot, and no other, holds the source's entry with the rights asked for.
   */
  lemma DuplicateExactly(t: Table, task: u64, generation: u64, source: u64, wanted: u64)
    requires TableValid(t)
    ensures var r := Duplicate(t, task, generation, source, wanted);
            && (r.Ok? <==> MayCopy(t, task, generation, source, wanted))
            && (r.Ok? ==>
                  && Names(t, task, generation, source)
                  && exists i: nat :: CopiedTo(t, source, wanted, i, r.value.0, r.value.1))
  {
    hide TableValid, Duplicate, MayCopy, CopiedTo, Names;
    CopyWhen(t, task, generation, source, wanted);
    if Duplicate(t, task, generation, source, wanted).Ok? {
      CopyWhere(t, task, generation, source, wanted);
    }
  }

  /** The new handle is good for a right exactly when that right was asked for. */
  lemma CopyResolves(t: Table, task: u64, generation: u64, source: u64, wanted: u64, right: u64)
    requires TableValid(t) && right > 0 && Duplicate(t, task, generation, source, wanted).Ok?
    ensures var (t', handle) := Duplicate(t, task, generation, source, wanted).value;
            && (ResolveTyped(t', task, generation, handle, OBJECT_ENDPOINT, right).Ok? <==> (wanted / right) % 2 == 1)
            && (ResolveTyped(t', task, generation, handle, OBJECT_ENDPOINT, right).Err? ==>
                  ResolveTyped(t', task, generation, handle, OBJECT_ENDPOINT, right) == Err(RightsDenied))
  {
    assert SlotValid(t, t.slots[source % 16]);
  }

  /** Every handle good before is as good after a copy, and so is every one that was not, the new one excepted. */
  lemma CopyKeepsOthers(t: Table, task: u64, generation: u64, source: u64, wanted: u64, handle: u64, objectType: u64,
                        right: u64)
    requires TableValid(t) && right > 0 && Duplicate(t, task, generation, source, wanted).Ok?
    requires handle != Duplicate(t, task, generation, source, wanted).value.1
    ensures var t' := Duplicate(t, task, generation, source, wanted).value.0;
            ResolveTyped(t', task, generation, handle, objectType, right)
            == ResolveTyped(t, task, generation, handle, objectType, right)
  {
  }

  /** Closing empties exactly the slot the handle names, into its next generation or for good. */
  lemma CloseExactly(t: Table, task: u64, generation: u64, handle: u64)
    requires TableValid(t)
    ensures var r := Close(t, task, generation, handle);
            && (r.Ok? <==> Names(t, task, generation, handle))
            && (r.Err? ==> r.error == InvalidHandle)
            && (r.Ok? ==>
                  var i, t' := handle % 16, r.value;
                  && t'.taskId == t.taskId && t'.taskGeneration == t.taskGeneration && t'.state == t.state
                  && t'.slots[i].entry.None?
                  && (if handle / 16 == 0xFFF_FFFF_FFFF_FFFF then t'.slots[i].retired
                      else !t'.slots[i].retired && t'.slots[i].generation == handle / 16 + 1)
                  && (forall k :: 0 <= k < 16 && k != i ==> t'.slots[k] == t.slots[k]))
  {
    if handle >= 16 { assert SlotValid(t, t.slots[handle % 16]); }
  }

  /** Every other handle resolves as it did. */
  lemma CloseKeepsOthers(t: Table, task: u64, generation: u64, closed: u64, handle: u64, objectType: u64, right: u64)
    requires TableValid(t) && right > 0 && Close(t, task, generation, closed).Ok? && handle != closed
    ensures ResolveTyped(Close(t, task, generation, closed).value, task, generation, handle, objectType, right)
         == ResolveTyped(t, task, generation, handle, objectType, right)
  {
    if handle >= 16 { assert SlotValid(t, t.slots[handle % 16]); }
  }

  /** The published sender's handle, copied for sending only, sends and does not copy. */
  lemma NarrowedCopy(t: Table)
    requires TableValid(t) && t.state == TableLive && t.taskId == 1 && t.slots[0].generation == 1
    requires t.slots[0].entry == Some(CapabilityEntry(1, t.taskGeneration, 1, 5, ObjectReference(1, 1)))
    requires t.slots[1] == EMPTY_SLOT
    ensures Duplicate(t, 1, t.taskGeneration, 16, 1).Ok?
    ensures var (t', handle) := Duplicate(t, 1, t.taskGeneration, 16, 1).value;
            handle == 17 && t'.slots[1].entry == Some(CapabilityEntry(1, t.taskGeneration, 1, 1, ObjectReference(1, 1)))
  {
    assert SlotValid(t, t.slots[0]);
    assert FirstFree(t.slots, 0) == 1;
  }
}
