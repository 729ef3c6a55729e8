/**
 The invariant of the journaled runtime: reservations match the broker, the broker's
 epoch counts committed records, and the records spell out lifecycles that end where
 the broker stands.
 */
module JournalInvariant {
  import opened Words
  import opened Capability
  import opened Runtime
  import opened RuntimeInvariant
  import opened Journal
  import opened Lifecycle

  function BrokerOpen(b: BrokerState): Open {
    match b
    case BrokerPending => AwaitingDecision
    case BrokerApproved => AwaitingCommit
    case _ => Idle
  }

  /** Where the journal's lifecycles must stand, given the live runtime. */
  function ProgressOf(s: RuntimeState): Progress
    requires s.broker.nextSequence >= 1
  {
    Progress(s.broker.nextSequence - 1, BrokerOpen(s.broker.state), s.effect.occupied)
  }

  /** Record number k carries sequence k and epoch k + 1. */
  predicate EpochsSound(records: seq<EffectRecord>) {
    forall i :: 0 <= i < |records| ==>
      records[i].WellFormed() && records[i].recordSequence == i + 1 && records[i].decisionEpoch == i + 2
  }

  predicate LiveInv(j: Journaled) {
    && Attached(j.runtime.sender) && Attached(j.runtime.receiver)
    && j.runtime.broker.state != BrokerClosing
    && j.runtime.broker.nextSequence >= 1
    && j.runtime.broker.decisionEpoch == |j.journal.committed| + 1
    && j.journal.reserved == ExpectedReservations(j.runtime.broker.state)
    && Scan(j.journal.committed) == Some(ProgressOf(j.runtime))
  }

  predicate JournalInv(j: Journaled) {
    && Inv(j.runtime) && j.runtime.profile == Supervised
    && (if j.journal.state == JournalDead then j.journal == DEAD_JOURNAL && BothDead(j.runtime)
        else
          && (j.journal.state == JournalLive || j.journal.state == JournalSealed)
          && j.journal.objectGeneration == 1
          && j.runtime.broker.decisionEpoch <= |j.journal.committed| + 1
          && |j.journal.committed| + j.journal.reserved <= RECORD_COUNT
          && j.journal.nextSequence == |j.journal.committed| + 1
          && EpochsSound(j.journal.committed)
          && Scan(j.journal.committed).Some? && Scan(j.journal.committed).value.count <= 7
          && (j.journal.state == JournalLive ==> LiveInv(j))
          && (j.journal.state == JournalSealed ==>
                && j.journal.reserved == 0 && !Undecided(j.runtime.broker)
                && Scan(j.journal.committed).value.open == Idle))
  }

  lemma JournalEntries(s: RuntimeState)
    requires Inv(s) && s.profile == Supervised
    ensures JournalEntriesValid(s.sender.capabilities) && NoJournalEntries(s.receiver.capabilities)
    ensures s.sender.state == TaskDead ==> NoJournalEntries(s.sender.capabilities)
  {
    hide QueueInv, SupervisedInv, GenerationsSound;
    forall i | 0 <= i < SLOT_COUNT && HoldsJournal(s.sender.capabilities, i)
      ensures i == 3 && s.sender.capabilities.slots[i].entry.value.rights == RIGHT_READ_EFFECT_JOURNAL
              && s.sender.capabilities.slots[i].entry.value.target == ObjectReference(1, 1)
    {
    }
  }

  /** While the broker is undecided it holds a request, and otherwise none. */
  lemma RequestPresence(s: RuntimeState)
    requires Inv(s) && s.profile == Supervised
    ensures s.broker.requestPresent <==> Undecided(s.broker)
    ensures Undecided(s.broker) ==> s.receiver.state == BlockedApproval
  {
    hide SlotInv, QueueInv;
  }

  lemma JournalInvValidates(j: Journaled)
    requires JournalInv(j)
    ensures ValidateJournaled(j).Pass?
  {
    hide Inv, Validate, JournalEntriesValid, NoJournalEntries, Scan;
    InvValidates(j.runtime);
    JournalEntries(j.runtime);
    RequestPresence(j.runtime);
  }

  lemma AppendKeepsEpochs(records: seq<EffectRecord>, r: EffectRecord)
    requires EpochsSound(records)
    requires r.WellFormed() && r.recordSequence == |records| + 1 && r.decisionEpoch == |records| + 2
    ensures EpochsSound(records + [r])
  {
  }
}
