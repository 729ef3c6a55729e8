/**
 What a well-formed effect journal says: a sequence of lifecycles
 Requested (Denied | Expired | Approved (Expired | Completed | Failed)),
 numbered from one, of which only the last may still be open.
 */
module Lifecycle {
  import opened Words
  import opened Journal

  // The automaton that reads records one at a time ----------------------------

  datatype Open = Idle | AwaitingDecision | AwaitingCommit

  /** How many requests were read, what the last one waits for, and whether an effect completed. */
  datatype Progress = Progress(count: nat, open: Open, completed: bool)

  function Advance(p: Progress, r: EffectRecord): Option<Progress> {
    if r.eventKind == Requested.Code() then
      if p.open == Idle && r.requestSequence == p.count + 1
      then Some(Progress(p.count + 1, AwaitingDecision, p.completed)) else None
    else if r.requestSequence != p.count then None
    else if r.eventKind == Approved.Code() then
      if p.open == AwaitingDecision then Some(p.(open := AwaitingCommit)) else None
    else if r.eventKind == Denied.Code() then
      if p.open == AwaitingDecision then Some(p.(open := Idle)) else None
    else if r.eventKind == Expired.Code() then
      if p.open != Idle then Some(p.(open := Idle)) else None
    else if r.eventKind == Completed.Code() then
      if p.open == AwaitingCommit && !p.completed then Some(Progress(p.count, Idle, true)) else None
    else if r.eventKind == Failed.Code() then
      if p.open == AwaitingCommit && p.completed then Some(p.(open := Idle)) else None
    else None
  }

  function Scan(records: seq<EffectRecord>): Option<Progress>
    decreases |records|
  {
    if records == [] then Some(Progress(0, Idle, false))
    else
      match Scan(records[..|records| - 1])
      case None => None
      case Some(p) => Advance(p, records[|records| - 1])
  }

  lemma {:induction false} ScanAppend(records: seq<EffectRecord>, r: EffectRecord)
    requires Scan(records).Some?
    ensures Scan(records + [r]) == Advance(Scan(records).value, r)
  {
    assert (records + [r])[..|records|] == records;
  }

  // The reference: lifecycles written out ---------------------------------------

  datatype Lifecycle =
    | PendingRequest | ApprovedRequest
    | DeniedRequest | ExpiredRequest | ExpiredApproval | CompletedRequest | FailedRequest
  {
    predicate IsOpen() {
      PendingRequest? || ApprovedRequest?
    }

    /** The (kind, request sequence) pairs of its records, as lifecycle number `n`. */
    function Events(n: nat): seq<(int, int)> {
      match this
      case PendingRequest => [(Requested.Code(), n)]
      case ApprovedRequest => [(Requested.Code(), n), (Approved.Code(), n)]
      case DeniedRequest => [(Requested.Code(), n), (Denied.Code(), n)]
      case ExpiredRequest => [(Requested.Code(), n), (Expired.Code(), n)]
      case ExpiredApproval => [(Requested.Code(), n), (Approved.Code(), n), (Expired.Code(), n)]
      case CompletedRequest => [(Requested.Code(), n), (Approved.Code(), n), (Completed.Code(), n)]
      case FailedRequest => [(Requested.Code(), n), (Approved.Code(), n), (Failed.Code(), n)]
    }
  }

  /** The pairs of all lifecycles, the n-th numbered n. */
  function Written(cycles: seq<Lifecycle>): seq<(int, int)>
    decreases |cycles|
  {
    if cycles == [] then []
    else Written(cycles[..|cycles| - 1]) + cycles[|cycles| - 1].Events(|cycles|)
  }

  function Pairs(records: seq<EffectRecord>): seq<(int, int)> {
    seq(|records|, i requires 0 <= i < |records| => (records[i].eventKind, records[i].requestSequence))
  }

  /** Only the last lifecycle may be open; at most one completes; a failure only follows a completion. */
  predicate WellOrdered(cycles: seq<Lifecycle>) {
    && (forall k :: 0 <= k < |cycles| - 1 ==> !cycles[k].IsOpen())
    && (forall i, k :: 0 <= i < k < |cycles| ==> !(cycles[i].CompletedRequest? && cycles[k].CompletedRequest?))
    && (forall k :: 0 <= k < |cycles| && cycles[k].FailedRequest? ==>
          exists i :: 0 <= i < k && cycles[i].CompletedRequest?)
  }

  function OpenState(cycle: Lifecycle): Open {
    match cycle
    case PendingRequest => AwaitingDecision
    case ApprovedRequest => AwaitingCommit
    case _ => Idle
  }

  function OpenOf(cycles: seq<Lifecycle>): Open {
    if cycles == [] then Idle else OpenState(cycles[|cycles| - 1])
  }

  predicate Completes(cycles: seq<Lifecycle>) {
    exists i :: 0 <= i < |cycles| && cycles[i].CompletedRequest?
  }

  /** `cycles` is a reading of `records` that ends as `p` says. */
  predicate Reads(records: seq<EffectRecord>, p: Progress, cycles: seq<Lifecycle>) {
    && WellOrdered(cycles)
    && Written(cycles) == Pairs(records)
    && |cycles| == p.count
    && OpenOf(cycles) == p.open
    && (Completes(cycles) <==> p.completed)
  }

  /** The last lifecycle after a record that is not a request. */
  function Grow(last: Lifecycle, r: EffectRecord): Lifecycle {
    if r.eventKind == Approved.Code() then ApprovedRequest
    else if r.eventKind == Denied.Code() then DeniedRequest
    else if r.eventKind == Expired.Code() then (if last == PendingRequest then ExpiredRequest else ExpiredApproval)
    else if r.eventKind == Completed.Code() then CompletedRequest
    else FailedRequest
  }

  /** The lifecycle list after one more record. */
  function Extend(cycles: seq<Lifecycle>, r: EffectRecord): seq<Lifecycle> {
    if r.eventKind == Requested.Code() || cycles == [] then cycles + [PendingRequest]
    else cycles[..|cycles| - 1] + [Grow(cycles[|cycles| - 1], r)]
  }

  lemma PairsAppend(records: seq<EffectRecord>, r: EffectRecord)
    ensures Pairs(records + [r]) == Pairs(records) + [(r.eventKind, r.requestSequence)]
  {
  }

  lemma {:induction false} WrittenAppend(front: seq<Lifecycle>, last: Lifecycle)
    ensures Written(front + [last]) == Written(front) + last.Events(|front| + 1)
  {
    assert (front + [last])[..|front|] == front;
  }

  /** The last lifecycle gains exactly the new record's pair. */
  lemma LastGains(last: Lifecycle, p: Progress, r: EffectRecord)
    requires p.open == OpenState(last) && Advance(p, r).Some? && r.eventKind != Requested.Code()
    ensures Grow(last, r).Events(p.count) == last.Events(p.count) + [(r.eventKind, r.requestSequence)]
    ensures OpenState(Grow(last, r)) == Advance(p, r).value.open
    ensures last.IsOpen()
  {
  }

  /** How a record that is not a request moves the automaton's other counters. */
  lemma LastSettles(last: Lifecycle, p: Progress, r: EffectRecord)
    requires p.open == OpenState(last) && Advance(p, r).Some? && r.eventKind != Requested.Code()
    ensures var q := Advance(p, r).value;
            && q.count == p.count
            && (q.completed <==> p.completed || Grow(last, r).CompletedRequest?)
            && (Grow(last, r).CompletedRequest? ==> !p.completed)
            && (Grow(last, r).FailedRequest? ==> p.completed)
            && !last.CompletedRequest?
  {
  }

  lemma {:induction false} ExtendWrites(cycles: seq<Lifecycle>, records: seq<EffectRecord>, p: Progress,
      r: EffectRecord)
    requires Written(cycles) == Pairs(records) && |cycles| == p.count && OpenOf(cycles) == p.open
    requires Advance(p, r).Some?
    ensures Written(Extend(cycles, r)) == Pairs(records + [r])
  {
    hide Pairs, Written, Grow;
    PairsAppend(records, r);
    if r.eventKind == Requested.Code() {
      WrittenAppend(cycles, PendingRequest);
    } else {
      var k := |cycles| - 1;
      LastGains(cycles[k], p, r);
      WrittenAppend(cycles[..k], cycles[k]);
      WrittenAppend(cycles[..k], Grow(cycles[k], r));
      assert cycles[..k] + [cycles[k]] == cycles;
    }
  }

  lemma CompletesAppend(front: seq<Lifecycle>, last: Lifecycle)
    ensures Completes(front + [last]) <==> Completes(front) || last.CompletedRequest?
  {
    var all := front + [last];
    assert all[|front|] == last;
    if Completes(front) {
      var i :| 0 <= i < |front| && front[i].CompletedRequest?;
      assert all[i].CompletedRequest?;
    }
  }

  /** A well-ordered list keeps its order when a closed front gets a fitting last element. */
  lemma OrderAppend(front: seq<Lifecycle>, last: Lifecycle)
    requires WellOrdered(front) && OpenOf(front) == Idle
    requires last.CompletedRequest? ==> !Completes(front)
    requires last.FailedRequest? ==> Completes(front)
    ensures WellOrdered(front + [last])
  {
    var all := front + [last];
    forall k | 0 <= k < |all| && all[k].FailedRequest?
      ensures exists i :: 0 <= i < k && all[i].CompletedRequest?
    {
      var i :| 0 <= i < |front| && front[i].CompletedRequest? && i < k;
      assert all[i].CompletedRequest?;
    }
  }

  lemma FrontOrdered(cycles: seq<Lifecycle>)
    requires WellOrdered(cycles) && cycles != []
    ensures var front := cycles[..|cycles| - 1];
            WellOrdered(front) && OpenOf(front) == Idle
  {
    var front := cycles[..|cycles| - 1];
    forall k | 0 <= k < |front| && front[k].FailedRequest?
      ensures exists i :: 0 <= i < k && front[i].CompletedRequest?
    {
      var i :| 0 <= i < k && cycles[i].CompletedRequest?;
      assert front[i].CompletedRequest?;
    }
    if front != [] {
      assert !cycles[|front| - 1].IsOpen();
    }
  }

  lemma ExtendReads(cycles: seq<Lifecycle>, records: seq<EffectRecord>, p: Progress, r: EffectRecord)
    requires Reads(records, p, cycles) && Advance(p, r).Some?
    ensures Reads(records + [r], Advance(p, r).value, Extend(cycles, r))
  {
    hide Written, Pairs, WellOrdered, Completes, Grow;
    ExtendWrites(cycles, records, p, r);
    if r.eventKind == Requested.Code() {
      OrderAppend(cycles, PendingRequest);
      CompletesAppend(cycles, PendingRequest);
    } else {
      ExtendsLast(cycles, records, p, r);
    }
  }

  lemma ExtendsLast(cycles: seq<Lifecycle>, records: seq<EffectRecord>, p: Progress, r: EffectRecord)
    requires Reads(records, p, cycles) && Advance(p, r).Some? && r.eventKind != Requested.Code()
    ensures var q := Advance(p, r).value;
            var next := Extend(cycles, r);
            && WellOrdered(next) && |next| == q.count && OpenOf(next) == q.open && (Completes(next) <==> q.completed)
  {
    NotEmpty(cycles, p, r);
    hide Written, Pairs, WellOrdered, Completes, Advance, Grow, OpenState;
    var k := |cycles| - 1;
    var last := cycles[k];
    LastGains(last, p, r);
    LastSettles(last, p, r);
    FrontOrdered(cycles);
    assert cycles[..k] + [last] == cycles;
    CompletesAppend(cycles[..k], last);
    CompletesAppend(cycles[..k], Grow(last, r));
    OrderAppend(cycles[..k], Grow(last, r));
  }

  lemma NotEmpty(cycles: seq<Lifecycle>, p: Progress, r: EffectRecord)
    requires OpenOf(cycles) == p.open && Advance(p, r).Some? && r.eventKind != Requested.Code()
    ensures cycles != []
  {
  }

  lemma EmptyReads()
    ensures Reads([], Progress(0, Idle, false), [])
  {
  }

  /** Whatever the automaton accepts is a run of lifecycles in the reference sense. */
  lemma {:induction false} ScanReads(records: seq<EffectRecord>) returns (cycles: seq<Lifecycle>)
    requires Scan(records).Some?
    ensures Reads(records, Scan(records).value, cycles)
    decreases |records|
  {
    hide Reads, Advance, Extend;
    if records == [] {
      cycles := [];
      EmptyReads();
    } else {
      var k := |records| - 1;
      var prior := ScanReads(records[..k]);
      cycles := Extend(prior, records[k]);
      ExtendReads(prior, records[..k], Scan(records[..k]).value, records[k]);
      assert records[..k] + [records[k]] == records;
    }
  }

  /** Closed lifecycles take at least two records each. */
  lemma {:induction false} TwoRecordsEach(records: seq<EffectRecord>)
    requires Scan(records).Some?
    ensures var p := Scan(records).value;
            2 * p.count <= |records| + (if p.open == AwaitingDecision then 1 else 0)
    decreases |records|
  {
    if records != [] {
      TwoRecordsEach(records[..|records| - 1]);
    }
  }
}
