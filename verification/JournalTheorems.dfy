/**
 What the effect journal guarantees in every state a run can reach.
 */
module JournalTheorems {
  import opened Words
  import opened TrapAbi
  import opened Runtime
  import opened RuntimeInvariant
  import opened KernelDrive
  import opened Journal
  import opened Lifecycle
  import opened JournalInvariant
  import opened JournalDrive

  /** The state a fresh journaled runtime reaches on `frames`. */
  function Reached(supervisor: TaskContext, workload: TaskContext, frames: seq<TrapFrame>): JournaledMachine
    requires NewJournaled(supervisor, workload).Ok?
  {
    RunJournaled(BootJournaled(NewJournaled(supervisor, workload)), frames)
  }

  lemma ReachedInv(supervisor: TaskContext, workload: TaskContext, frames: seq<TrapFrame>)
    requires NewJournaled(supervisor, workload).Ok?
    ensures JournaledMachineInv(Reached(supervisor, workload, frames))
  {
    hide JournalInv, DriveJournaled;
    BootJournaledInv(supervisor, workload);
    RunJournaledProgress(BootJournaled(NewJournaled(supervisor, workload)), frames);
  }

  /**
   The committed records are a sequence of numbered lifecycles. The last one is open
   exactly as the broker is pending or approved, at most one lifecycle completes and
   every failed one comes after it; a sealed journal has none open.
   */
  lemma RecordsFormLifecycles(supervisor: TaskContext, workload: TaskContext, frames: seq<TrapFrame>)
    returns (cycles: seq<Lifecycle>)
    requires NewJournaled(supervisor, workload).Ok?
    ensures var j := Reached(supervisor, workload, frames).state;
            && WellOrdered(cycles)
            && Written(cycles) == Pairs(j.journal.committed)
            && OpenOf(cycles) == BrokerOpen(j.runtime.broker.state)
            && |cycles| <= 7
            && (j.journal.state == JournalLive ==> |cycles| == j.runtime.broker.nextSequence - 1)
            && (j.journal.state == JournalSealed ==> forall k :: 0 <= k < |cycles| ==> !cycles[k].IsOpen())
  {
    ReachedInv(supervisor, workload, frames);
    var j := Reached(supervisor, workload, frames).state;
    hide Reached, Inv, Scan, Written, Pairs;
    cycles := ScanReads(j.journal.committed);
    if cycles != [] && j.journal.state == JournalSealed {
      assert !cycles[|cycles| - 1].IsOpen();
    }
  }

  /** Every request the journal holds has exactly one closing record once it is sealed. */
  lemma SealedRequestsAllClosed(supervisor: TaskContext, workload: TaskContext, frames: seq<TrapFrame>, n: nat)
    returns (cycles: seq<Lifecycle>)
    requires NewJournaled(supervisor, workload).Ok?
    requires Reached(supervisor, workload, frames).state.journal.state == JournalSealed
    requires 1 <= n
    ensures Written(cycles) == Pairs(Reached(supervisor, workload, frames).state.journal.committed)
    ensures n <= |cycles| ==> Terminals(Written(cycles), n) == 1
    ensures n > |cycles| ==> Terminals(Written(cycles), n) == 0
  {
    cycles := RecordsFormLifecycles(supervisor, workload, frames);
    hide Reached, Pairs;
    CountTerminals(cycles, n);
  }

  /** How many closing records carry request number `n`. */
  function Terminals(pairs: seq<(int, int)>, n: int): nat
    decreases |pairs|
  {
    if pairs == [] then 0
    else
      var last := pairs[|pairs| - 1];
      Terminals(pairs[..|pairs| - 1], n)
      + (if last.1 == n && last.0 != Requested.Code() && last.0 != Approved.Code() then 1 else 0)
  }

  lemma {:induction false} TerminalsConcat(a: seq<(int, int)>, b: seq<(int, int)>, n: int)
    ensures Terminals(a + b, n) == Terminals(a, n) + Terminals(b, n)
    decreases |b|
  {
    if b == [] {
      assert a + b == a;
    } else {
      assert (a + b)[..|a + b| - 1] == a + b[..|b| - 1];
      TerminalsConcat(a, b[..|b| - 1], n);
    }
  }

  lemma {:induction false} EventTerminals(c: Lifecycle, k: nat, n: int)
    ensures Terminals(c.Events(k), n) == if k == n && !c.IsOpen() then 1 else 0
  {
    var e := c.Events(k);
    if |e| >= 2 {
      assert Terminals(e[..1], n) == 0 by { assert e[..1][..0] == []; }
      if |e| == 3 {
        assert e[..2][..1] == e[..1];
        assert Terminals(e[..2], n) == 0;
      }
    } else {
      assert e[..0] == [];
    }
  }

  lemma {:induction false} CountTerminals(cycles: seq<Lifecycle>, n: nat)
    requires forall k :: 0 <= k < |cycles| ==> !cycles[k].IsOpen()
    requires 1 <= n
    ensures Terminals(Written(cycles), n) == if n <= |cycles| then 1 else 0
    decreases |cycles|
  {
    if cycles != [] {
      var k := |cycles| - 1;
      CountTerminals(cycles[..k], n);
      TerminalsConcat(Written(cycles[..k]), cycles[k].Events(|cycles|), n);
      EventTerminals(cycles[k], |cycles|, n);
    }
  }

  /**
   Reservation is sound: while live, two, one or no slots are reserved as the broker is
   pending, approved or neither, and they are really free.
   */
  lemma ReservationsSound(supervisor: TaskContext, workload: TaskContext, frames: seq<TrapFrame>)
    requires NewJournaled(supervisor, workload).Ok?
    ensures var j := Reached(supervisor, workload, frames).state;
            && |j.journal.committed| + j.journal.reserved <= RECORD_COUNT
            && (j.journal.state == JournalLive ==>
                  j.journal.reserved == match j.runtime.broker.state
                                        case BrokerPending => 2
                                        case BrokerApproved => 1
                                        case _ => 0)
            && (j.journal.state != JournalLive ==> j.journal.reserved == 0)
  {
    ReachedInv(supervisor, workload, frames);
    hide Reached, Inv, Scan;
  }

  /** Record k carries sequence k and epoch k + 1, counting from one; the live broker's epoch counts the records. */
  lemma EpochsCountRecords(supervisor: TaskContext, workload: TaskContext, frames: seq<TrapFrame>)
    requires NewJournaled(supervisor, workload).Ok?
    ensures var j := Reached(supervisor, workload, frames).state;
            && (forall k :: 0 <= k < |j.journal.committed| ==>
                  j.journal.committed[k].recordSequence == k + 1 && j.journal.committed[k].decisionEpoch == k + 2)
            && (j.journal.state == JournalLive ==> j.runtime.broker.decisionEpoch == |j.journal.committed| + 1)
            && j.runtime.broker.decisionEpoch <= 17
  {
    ReachedInv(supervisor, workload, frames);
    hide Reached, Inv, Scan;
  }

  /** Committed records are never altered: what a run has written stays, in place, however the run continues. */
  lemma {:induction false} RecordsOnlyGrow(m: JournaledMachine, frames: seq<TrapFrame>, more: seq<TrapFrame>)
    requires JournaledMachineInv(m)
    ensures RunJournaled(m, frames).state.journal.committed <= RunJournaled(m, frames + more).state.journal.committed
    decreases |more|
  {
    hide JournalInv, DriveJournaled;
    if more == [] {
      assert frames + more == frames;
    } else {
      var k := |more| - 1;
      RecordsOnlyGrow(m, frames, more[..k]);
      var all := frames + more;
      assert all[..|all| - 1] == frames + more[..k];
      RunJournaledProgress(m, frames + more[..k]);
      DriveJournaledProgress(RunJournaled(m, frames + more[..k]), more[k]);
    }
  }

  /** A finished run can always be reclaimed, and reclamation leaves nothing behind. */
  lemma FinishedReclaims(supervisor: TaskContext, workload: TaskContext, frames: seq<TrapFrame>)
    requires NewJournaled(supervisor, workload).Ok?
    requires Reached(supervisor, workload, frames).phase == Finished
    ensures var r := FinishReclamation(Reached(supervisor, workload, frames).state);
            r.Ok? && r.value.journal == DEAD_JOURNAL && BothDead(r.value.runtime)
  {
    ReachedInv(supervisor, workload, frames);
    var j := Reached(supervisor, workload, frames).state;
    hide Reached, Inv, Scan, ValidateJournaled;
    JournalInvValidates(j.(journal := DEAD_JOURNAL));
  }

  // Reading back -----------------------------------------------------------------------------------

  /** A record from its sixteen words; two words hold a pair of halves. */
  function RecordFrom(w: seq<u64>): EffectRecord
    requires |w| == 16
  {
    EffectRecord(
      w[0] % 0x1_0000_0000, w[0] / 0x1_0000_0000, w[1] % 0x1_0000_0000, w[1] / 0x1_0000_0000,
      w[2], w[3], w[4], w[5], w[6], w[7], w[8], w[9], w[10],
      w[11] % 0x1_0000_0000, w[11] / 0x1_0000_0000, w[12], w[13], w[14], w[15])
  }

  lemma HalvesOf(low: u32, high: u32)
    ensures (low + high * 0x1_0000_0000) % 0x1_0000_0000 == low
    ensures (low + high * 0x1_0000_0000) / 0x1_0000_0000 == high
  {
  }

  /** The words a task reads back, three at a time, are exactly the record that was committed. */
  lemma ReadsBackTheRecord(j: Journal, sequence: u64)
    requires JournalValid(j) && (j.state == JournalLive || j.state == JournalSealed)
    requires 1 <= sequence <= |j.committed|
    ensures forall triplet: u64 :: ReadTriplet(j, sequence, triplet).Ok? <==> triplet <= 5
    ensures var t := triplet requires 0 <= triplet <= 5 => ReadTriplet(j, sequence, triplet).value;
            RecordFrom([t(0).0, t(0).1, t(0).2, t(1).0, t(1).1, t(1).2, t(2).0, t(2).1, t(2).2, t(3).0, t(3).1, t(3).2,
                        t(4).0, t(4).1, t(4).2, t(5).0]) == j.committed[sequence - 1]
  {
    var r := j.committed[sequence - 1];
    HalvesOf(r.schemaVersion, r.byteSize);
    HalvesOf(r.eventKind, r.status);
    HalvesOf(r.objectType, r.reservedZero);
  }
}
