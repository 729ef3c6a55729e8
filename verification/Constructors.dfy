/**
 Exactly which contexts the three constructors take, and what they answer otherwise.
 */
module Constructors {
  import opened Words
  import opened TrapAbi
  import opened Capability
  import opened Runtime
  import opened RuntimeInvariant
  import opened KernelDrive
  import opened Journal
  import opened JournalInvariant

  /** Tasks one and two, distinct nonzero generations, nonzero roots; the first complaint in this order. */
  lemma CooperativeExactly(a: TaskContext, b: TaskContext)
    ensures NewCooperative(a, b).Ok? <==>
              && a.taskId == 1 && b.taskId == 2 && a.generation != 0 && b.generation != 0
              && a.generation != b.generation && a.root != 0 && b.root != 0
    ensures a.taskId != 1 || b.taskId != 2 ==> NewCooperative(a, b) == Err(InvalidTask)
    ensures a.taskId == 1 && b.taskId == 2 && (a.generation == 0 || b.generation == 0) ==>
              NewCooperative(a, b) == Err(InvalidGeneration)
    ensures a.taskId == 1 && b.taskId == 2 && a.generation != 0 && a.generation == b.generation ==>
              NewCooperative(a, b) == Err(DuplicateGeneration)
    ensures (&& a.taskId == 1 && b.taskId == 2 && a.generation != 0 && b.generation != 0
             && a.generation != b.generation && (a.root == 0 || b.root == 0)) ==>
              NewCooperative(a, b) == Err(InvalidGeneration)
  {
    if a.taskId == 1 && b.taskId == 2 && a.generation != 0 && b.generation != 0 && a.generation != b.generation {
      if a.root != 0 && b.root != 0 {
        CooperativeStateInv(a, b);
        InvValidates(CooperativeState(a, b));
        hide Inv, Validate, CooperativeState;
      } else {
        RootlessCooperative(a, b);
        hide Validate, CooperativeState;
      }
    }
  }

  lemma RootlessCooperative(a: TaskContext, b: TaskContext)
    requires a.taskId == 1 && b.taskId == 2 && a.generation != 0 && b.generation != 0 && a.generation != b.generation
    requires a.root == 0 || b.root == 0
    ensures Validate(CooperativeState(a, b)) == Fail(InvalidGeneration)
  {
    var s := CooperativeState(a, b);
    PublishedValid(1, a.generation, [EndpointEntry(1, a.generation, RIGHT_SEND + RIGHT_DUPLICATE)]);
    PublishedValid(2, b.generation, [EndpointEntry(2, b.generation, RIGHT_RECEIVE)]);
    hide PublishedTable, TableValid;
  }

  lemma PublishedValid(task: u64, generation: u64, entries: seq<CapabilityEntry>)
    requires task != 0 && generation != 0 && |entries| <= 16
    requires forall i :: 0 <= i < |entries| ==>
               var e := entries[i];
               && e.taskId == task && e.taskGeneration == generation && e.target == ObjectReference(1, 1)
               && e.objectType != 0 && ValidRights(e.objectType, e.rights)
    ensures TableValid(PublishedTable(task, generation, entries))
    ensures PublishedTable(task, generation, entries).taskId == task
    ensures PublishedTable(task, generation, entries).taskGeneration == generation
    ensures PublishedTable(task, generation, entries).state == TableLive
  {
  }

  lemma SupervisedExactly(a: TaskContext, b: TaskContext)
    ensures NewSupervised(a, b).Ok? <==>
              && a.taskId == 1 && b.taskId == 2 && a.generation == 4 && b.generation == 5 && a.root != 0 && b.root != 0
    ensures a.taskId != 1 || b.taskId != 2 ==> NewSupervised(a, b) == Err(InvalidTask)
    ensures a.taskId == 1 && b.taskId == 2 && (a.generation != 4 || b.generation != 5) ==>
              NewSupervised(a, b) == Err(InvalidGeneration)
    ensures a.taskId == 1 && b.taskId == 2 && a.generation == 4 && b.generation == 5 && (a.root == 0 || b.root == 0) ==>
              NewSupervised(a, b) == Err(InvalidGeneration)
  {
    if a.taskId == 1 && b.taskId == 2 && a.generation == 4 && b.generation == 5 {
      if a.root != 0 && b.root != 0 {
        SupervisedStateInv(a, b, SupervisorEntries());
        InvValidates(SupervisedState(a, b, SupervisorEntries()));
        hide Inv, Validate, SupervisedState;
      } else {
        RootlessSupervised(a, b, SupervisorEntries());
        hide Validate, SupervisedState;
      }
    }
  }

  lemma RootlessSupervised(a: TaskContext, b: TaskContext, entries: seq<CapabilityEntry>)
    requires a.taskId == 1 && b.taskId == 2 && a.generation == 4 && b.generation == 5 && (a.root == 0 || b.root == 0)
    requires |entries| <= 4
    requires forall i :: 0 <= i < |entries| ==> EntryAllowed(Supervised, 1, SUPERVISOR_GENERATION, i, entries[i])
    ensures Validate(SupervisedState(a, b, entries)) == Fail(InvalidGeneration)
  {
    PublishedValid(1, 4, entries);
    BuildingValid(2, 5);
    hide PublishedTable, BuildingTable, TableValid;
  }

  lemma BuildingValid(task: u64, generation: u64)
    requires task != 0 && generation != 0
    ensures TableValid(BuildingTable(task, generation)) && BuildingTable(task, generation).state == TableBuilding
    ensures BuildingTable(task, generation).taskId == task
    ensures BuildingTable(task, generation).taskGeneration == generation
  {
  }

  lemma JournaledExactly(a: TaskContext, b: TaskContext)
    ensures NewJournaled(a, b).Ok? <==>
              && a.taskId == 1 && b.taskId == 2 && a.generation == 4 && b.generation == 5 && a.root != 0 && b.root != 0
    ensures a.taskId != 1 || b.taskId != 2 ==> NewJournaled(a, b) == Err(InvalidTask)
    ensures a.taskId == 1 && b.taskId == 2 && (a.generation != 4 || b.generation != 5) ==>
              NewJournaled(a, b) == Err(InvalidGeneration)
    ensures a.taskId == 1 && b.taskId == 2 && a.generation == 4 && b.generation == 5 && (a.root == 0 || b.root == 0) ==>
              NewJournaled(a, b) == Err(PublicationFailure)
  {
    var entries := JournaledEntries();
    forall i | 0 <= i < |entries| ensures EntryAllowed(Supervised, 1, SUPERVISOR_GENERATION, i, entries[i]) {}
    if a.taskId == 1 && b.taskId == 2 && a.generation == 4 && b.generation == 5 {
      var j := Journaled(SupervisedState(a, b, entries), LIVE_JOURNAL);
      if a.root != 0 && b.root != 0 {
        SupervisedStateInv(a, b, entries);
        FreshJournalInv(j);
        JournalInvValidates(j);
        hide Inv, JournalInv, ValidateJournaled, SupervisedState;
      } else {
        RootlessSupervised(a, b, entries);
        hide Validate, SupervisedState;
      }
    }
  }

  lemma FreshJournalInv(j: Journaled)
    requires j.journal == LIVE_JOURNAL && Inv(j.runtime) && j.runtime.profile == Supervised
    requires j.runtime.sender.state == Ready && j.runtime.receiver.state == Staged
            && j.runtime.broker.state == BrokerEmpty
    requires j.runtime.sender.capabilities.state == TableLive && j.runtime.receiver.capabilities.state == TableBuilding
    requires j.runtime.broker.nextSequence == 1 && j.runtime.broker.decisionEpoch == 1 && !j.runtime.effect.occupied
    ensures JournalInv(j)
  {
    hide Inv;
  }
}
