/**
 Exactly how one trap of the supervised runtime moves the broker and the effect. The
 guards are the source's own status checks.
 */
module BrokerMoves {
  import opened Words
  import opened TrapAbi
  import opened Capability
  import opened Runtime
  import opened RuntimeInvariant
  import opened RuntimeProgress

  /** Broker and effect are as before, and the caller saw a refusal. */
  predicate Refused(s: RuntimeState, task: u64, after: RuntimeState, status: TrapStatus)
    requires IsTask(task)
  {
    && after == SetResult(s, task, status, 0)
    && status != StatusOk
  }

  /** The parked workload is runnable again and finds this status and value in its registers. */
  predicate Told(s: RuntimeState, status: TrapStatus, value: u64) {
    s.receiver.state == Ready && s.receiver.context.rax == status.Code() && s.receiver.context.rdx == value
  }

  lemma SubmitMove(s: RuntimeState, task: u64, handle: u64, kind: u64, argument: u64)
    requires Runs(s, task) && SubmitApproval(s, task, handle, kind, argument).Ok?
    ensures var after := SubmitApproval(s, task, handle, kind, argument).value.0;
            var check := SubmitStatus(s, task, handle, kind);
            && (check.Pass? ==>
                  && task == RECEIVER_TASK_ID && s.broker.state == BrokerEmpty && s.broker.decisionEpoch < U64_MAX
                  && after.broker == SubmittedBroker(s.broker, 1, argument) && after.effect == s.effect)
            && (check.Fail? ==> Refused(s, task, after, check.error))
  {
    hide Inv, Validate;
  }

  lemma DecideMove(s: RuntimeState, task: u64, handle: u64, sequence: u64, decision: u64)
    requires Runs(s, task) && DecideApproval(s, task, handle, sequence, decision).Ok?
    ensures var after := DecideApproval(s, task, handle, sequence, decision).value.0;
            var check := DecideStatus(s, task, handle, sequence, decision);
            var epoch := s.broker.decisionEpoch + 1;
            var exhausted := epoch > U64_MAX || (decision == DECISION_APPROVE && epoch == U64_MAX);
            && (check.Pass? && exhausted ==>
                  && after.broker == s.broker.ClearRequest().(state := BrokerClosing) && after.effect == s.effect
                  && Slot(after, task).context.rax == BrokerUnavailable.Code())
            && (check.Pass? && !exhausted ==>
                  && task == SENDER_TASK_ID && decision <= DECISION_EXPIRE && s.broker.request.sequence == sequence
                  && (decision != DECISION_EXPIRE ==> s.broker.state == BrokerPending) && Undecided(s.broker)
                  && Slot(after, task).context.rax == StatusOk.Code() && after.effect == s.effect
                  && after.broker == (if decision == DECISION_APPROVE
                                      then s.broker.(state := BrokerApproved, decisionEpoch := epoch,
                                                approvalEpoch := epoch, expiryEpoch := epoch + 1)
                                      else s.broker.ClearRequest().(state := BrokerEmpty, decisionEpoch := epoch))
                  && (decision != DECISION_APPROVE ==>
                        Told(after, if decision == DECISION_DENY then ApprovalDenied else ApprovalExpired, 0)))
            && (check.Fail? ==> Refused(s, task, after, check.error))
  {
    hide Inv, Validate;
    if DecideStatus(s, task, handle, sequence, decision).Pass? {
      RightHolder(s, task, handle, OBJECT_APPROVAL_BROKER, RIGHT_DECIDE_APPROVAL);
    }
  }

  lemma CommitMove(s: RuntimeState, task: u64, handle: u64, sequence: u64, argument: u64)
    requires Runs(s, task) && CommitEffect(s, task, handle, sequence, argument).Ok?
    ensures var after := CommitEffect(s, task, handle, sequence, argument).value.0;
            var check := CommitStatus(s, task, handle, sequence, argument);
            && (check.Pass? ==>
                  && task == SENDER_TASK_ID && s.broker.state == BrokerApproved
                  && s.broker.request == CommitRequest(sequence, argument) && s.broker.decisionEpoch < U64_MAX
                  && Slot(after, task).context.rax == StatusOk.Code() && !s.effect.occupied
                  && after.effect == s.effect.(occupied := true, value := argument)
                  && after.broker == s.broker.ClearRequest().(state := BrokerEmpty,
                                     decisionEpoch := s.broker.decisionEpoch + 1)
                  && Told(after, StatusOk, argument))
            && (check.Fail? ==> Refused(s, task, after, check.error))
            && (check == Fail(EffectUnavailable) ==>
                  task == SENDER_TASK_ID && s.broker.state == BrokerApproved && s.effect.occupied)
  {
    hide Inv, Validate;
    var check := CommitStatus(s, task, handle, sequence, argument);
    CommitNeverExpired(s, task, handle, sequence, argument);
    if check.Pass? || check == Fail(EffectUnavailable) {
      RightHolder(s, task, handle, OBJECT_TEST_EFFECT, RIGHT_COMMIT_EFFECT);
    }
  }

  /** An inspection changes nothing but the caller's registers, and shows the pending request. */
  lemma InspectMove(s: RuntimeState, task: u64, handle: u64, kind: u64, argument: u64)
    requires Runs(s, task) && InspectApproval(s, task, handle, kind, argument).Ok?
    ensures var after := InspectApproval(s, task, handle, kind, argument).value.0;
            var check := InspectStatus(s, task, handle, kind, argument);
            && (check.Pass? ==>
                  && s.broker.state == BrokerPending
                  && var slot := Slot(s, task);
                     after == WithSlot(s, task, slot.(context := slot.context.(rax := StatusOk.Code(),
                                                      rdi := s.broker.request.sequence, rsi := s.broker.requestKind,
                                                      rdx := s.broker.request.argument))))
            && (check.Fail? ==> Refused(s, task, after, check.error))
  {
    hide Inv, Validate;
  }

  /** No other trap touches the broker or the effect. */
  lemma OtherMove(s: RuntimeState, task: u64)
    requires Runs(s, task) && HandleTrap(s, task).Ok?
    requires var rax := Slot(s, task).context.rax; rax != 7 && rax != 9 && rax != 10
    ensures var after := HandleTrap(s, task).value.0;
            after.broker == s.broker && after.effect == s.effect
  {
    hide Inv, Validate, Duplicate, Close, InstallBuilding, StartStatus, SendStatus, InspectStatus, ResolveEndpoint;
  }
}
