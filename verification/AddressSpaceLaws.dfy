/**
 What construction, rollback and teardown say to a backend, call by call: a script
 fixed by the plan and the frames obtained, followed until the backend first refuses.
 */
module AddressSpaceLaws {
  import opened Words
  import opened PageTables
  import opened AddressSpace

  // Scripts ----------------------------------------------------------------------------------------

  /** The events follow the script to its end, or up to a call that was refused with `error`. */
  predicate Follows<E(==)>(events: seq<Event<E>>, script: seq<Call>, error: Option<E>) {
    && |events| <= |script|
    && (forall k :: 0 <= k < |events| ==> events[k].call == script[k])
    && (forall k :: 0 <= k < |events| - 1 ==> events[k].reply.Granted?)
    && match error
       case None => |events| == |script| && (events != [] ==> events[|events| - 1].reply.Granted?)
       case Some(e) => events != [] && events[|events| - 1].reply == Refused(e)
  }

  lemma FollowsThen<E>(a: seq<Event<E>>, s: seq<Call>, b: seq<Event<E>>, t: seq<Call>, error: Option<E>)
    requires Follows(a, s, None) && Follows(b, t, error)
    ensures Follows(a + b, s + t, error)
  {
  }

  lemma FollowsOnly<E>(a: seq<Event<E>>, s: seq<Call>, t: seq<Call>, e: E)
    requires Follows(a, s, Some(e))
    ensures Follows(a, s + t, Some(e))
  {
  }

  /** What was said since `m`. */
  ghost function Since<S, E>(m: Machine<S, E>, m': Machine<S, E>): seq<Event<E>>
    requires m.trace <= m'.trace
  {
    m'.trace[|m.trace|..]
  }

  lemma SinceChain<S, E>(a: Machine<S, E>, b: Machine<S, E>, c: Machine<S, E>)
    requires a.trace <= b.trace <= c.trace
    ensures a.trace <= c.trace && Since(a, c) == Since(a, b) + Since(b, c)
  {
  }

  lemma OneCall<S, E>(step: Backend<S, E>, m: Machine<S, E>, call: Call)
    ensures var (m', reply) := Invoke(step, m, call);
            && m.trace <= m'.trace && Since(m, m') == [Event(call, reply)]
            && Follows(Since(m, m'), [call], match reply case Granted(_) => None case Refused(e) => Some(e))
  {
  }

  // Links and frames -------------------------------------------------------------------------------

  const T: Flags := Flags(true, true, false)

  /** The six links, with the frames they join: indices 1, 0, 2, 4, 0, 0. */
  function LinkScript(f: seq<u64>, remove: bool): (script: seq<Call>)
    requires |f| == 7
    ensures |script| == 6
  {
    var links := [(LinkSpec(Root, UserPml3, 1, T), f[0], f[1]), (LinkSpec(UserPml3, UserPml2, 0, T), f[1], f[2]),
                  (LinkSpec(UserPml2, TextPml1, 2, T), f[2], f[3]), (LinkSpec(UserPml2, StackPml1, 4, T), f[2], f[4]),
                  (LinkSpec(TextPml1, Text, 0, Flags(false, true, false)), f[3], f[5]),
                  (LinkSpec(StackPml1, Stack, 0, Flags(true, true, true)), f[4], f[6])];
    seq(6, i requires 0 <= i < 6 =>
      if remove then RemoveLink(links[i].0, links[i].1, links[i].2)
        else InstallLink(links[i].0, links[i].1, links[i].2))
  }

  function Starts(ledger: Ledger): (f: seq<u64>)
    ensures |f| == |ledger|
  {
    seq(|ledger|, i requires 0 <= i < |ledger| => ledger[i].start)
  }

  lemma PlanLinks()
    ensures BUILD_LINKS[0] == LinkSpec(Root, UserPml3, 1, T) && BUILD_LINKS[1] == LinkSpec(UserPml3, UserPml2, 0, T)
    ensures BUILD_LINKS[2] == LinkSpec(UserPml2, TextPml1, 2, T)
            && BUILD_LINKS[3] == LinkSpec(UserPml2, StackPml1, 4, T)
    ensures BUILD_LINKS[4] == LinkSpec(TextPml1, Text, 0, Flags(false, true, false))
    ensures BUILD_LINKS[5] == LinkSpec(StackPml1, Stack, 0, Flags(true, true, true))
  {
  }

  lemma PlanCalls(ledger: Ledger, remove: bool, k: nat)
    requires InPlanOrder(ledger) && |ledger| == 7 && Complete(ledger) && k < 6
    ensures LinkCall(remove, ledger, k) == LinkScript(Starts(ledger), remove)[k]
  {
    hide FrameFor, Complete;
    PlanLinks();
    FindsRole(ledger, 0);
    FindsRole(ledger, 1);
    FindsRole(ledger, 2);
    FindsRole(ledger, 3);
    FindsRole(ledger, 4);
    FindsRole(ledger, 5);
    FindsRole(ledger, 6);
  }

  lemma {:induction false} InstallFollows<S, E>(step: Backend<S, E>, m: Machine<S, E>, ledger: Ledger, k: nat)
    requires InPlanOrder(ledger) && |ledger| == 7 && Complete(ledger) && k <= 6
    ensures var (m', links, error) := InstallAll(step, m, ledger, k);
            && m.trace <= m'.trace
            && Follows(Since(m, m'), LinkScript(Starts(ledger), false)[k..], error)
            && links == k + |Since(m, m')| - (if error.None? then 0 else 1)
    decreases 6 - k
  {
    hide Complete, LinkScript, Invoke, LinkCall;
    var script := LinkScript(Starts(ledger), false);
    if k < 6 {
      var (m1, reply) := Invoke(step, m, LinkCall(false, ledger, k));
      OneCall(step, m, LinkCall(false, ledger, k));
      PlanCalls(ledger, false, k);
      assert script[k..] == [script[k]] + script[k + 1..];
      if reply.Granted? {
        InstallFollows(step, m1, ledger, k + 1);
        var (m', links, error) := InstallAll(step, m1, ledger, k + 1);
        SinceChain(m, m1, m');
        FollowsThen(Since(m, m1), [script[k]], Since(m1, m'), script[k + 1..], error);
      } else {
        FollowsOnly(Since(m, m1), [script[k]], script[k + 1..], reply.error);
      }
    }
  }

  /** The first `k` links taken out, last first. */
  function RemovalScript(f: seq<u64>, k: nat): (script: seq<Call>)
    requires |f| == 7 && k <= 6
    ensures |script| == k
  {
    seq(k, i requires 0 <= i < k => LinkScript(f, true)[k - 1 - i])
  }

  lemma {:induction false} RemoveFollows<S, E>(step: Backend<S, E>, m: Machine<S, E>, ledger: Ledger, k: nat)
    requires InPlanOrder(ledger) && |ledger| == 7 && Complete(ledger) && k <= 6
    ensures var (m', error) := RemoveAll(step, m, ledger, k);
            m.trace <= m'.trace && Follows(Since(m, m'), RemovalScript(Starts(ledger), k), error)
    decreases k
  {
    hide Complete, LinkScript, Invoke, LinkCall;
    if k > 0 {
      var f := Starts(ledger);
      var first := LinkScript(f, true)[k - 1];
      var (m1, reply) := Invoke(step, m, LinkCall(true, ledger, k - 1));
      OneCall(step, m, LinkCall(true, ledger, k - 1));
      PlanCalls(ledger, true, k - 1);
      assert RemovalScript(f, k) == [first] + RemovalScript(f, k - 1);
      if reply.Granted? {
        RemoveFollows(step, m1, ledger, k - 1);
        var (m', error) := RemoveAll(step, m1, ledger, k - 1);
        SinceChain(m, m1, m');
        FollowsThen(Since(m, m1), [first], Since(m1, m'), RemovalScript(f, k - 1), error);
      } else {
        FollowsOnly(Since(m, m1), [first], RemovalScript(f, k - 1), reply.error);
      }
    }
  }

  /** Frames go back newest first. */
  function ReturnScript(ledger: Ledger): (script: seq<Call>)
    ensures |script| == |ledger|
  {
    seq(|ledger|, i requires 0 <= i < |ledger| => ReturnFrame(ledger[|ledger| - 1 - i]))
  }

  lemma {:induction false} ReturnFollows<S, E>(step: Backend<S, E>, m: Machine<S, E>, ledger: Ledger)
    ensures var (m', kept, error) := ReturnAll(step, m, ledger);
            && m.trace <= m'.trace && Follows(Since(m, m'), ReturnScript(ledger), error)
            && kept == ledger[..|ledger| - |Since(m, m')| + (if error.None? then 0 else 1)]
    decreases |ledger|
  {
    hide Invoke;
    if ledger != [] {
      var n := |ledger| - 1;
      var (m1, reply) := Invoke(step, m, ReturnFrame(ledger[n]));
      OneCall(step, m, ReturnFrame(ledger[n]));
      assert ReturnScript(ledger) == [ReturnFrame(ledger[n])] + ReturnScript(ledger[..n]);
      if reply.Granted? {
        ReturnFollows(step, m1, ledger[..n]);
        var (m', kept, error) := ReturnAll(step, m1, ledger[..n]);
        SinceChain(m, m1, m');
        FollowsThen(Since(m, m1), [ReturnFrame(ledger[n])], Since(m1, m'), ReturnScript(ledger[..n]), error);
      } else {
        FollowsOnly(Since(m, m1), [ReturnFrame(ledger[n])], ReturnScript(ledger[..n]), reply.error);
        assert ledger[..|ledger|] == ledger;
      }
    }
  }

  // Rollback and teardown --------------------------------------------------------------------------

  function CheckScript(ledger: Ledger): seq<Call> {
    (if ledger == [] then [] else [ClearSharedEntries(ledger[0].start)])
    + [ClearTemporaryWindow, VerifyUnreachable(ledger)]
  }

  function UnwindScript(ledger: Ledger, links: nat): seq<Call>
    requires links <= 6 && (links > 0 ==> |ledger| == 7)
  {
    (if links > 0 then RemovalScript(Starts(ledger), links) else []) + (CheckScript(ledger) + ReturnScript(ledger))
  }

  lemma {:induction false} RootOf(ledger: Ledger)
    requires InPlanOrder(ledger)
    ensures FrameFor(ledger, Root) == if ledger == [] then None else Some(ledger[0].start)
  {
    if ledger != [] { FindsRole(ledger, 0); }
  }

  lemma {:induction false} RemovalFollows<S, E>(step: Backend<S, E>, m: Machine<S, E>, ledger: Ledger, links: nat)
    requires InPlanOrder(ledger) && links <= 6 && (links > 0 ==> |ledger| == 7 && Complete(ledger))
    ensures var (m', error) := RemoveAll(step, m, ledger, links);
            && m.trace <= m'.trace
            && Follows(Since(m, m'), if links > 0 then RemovalScript(Starts(ledger), links) else [], error)
  {
    hide Complete, RemovalScript;
    if links > 0 { RemoveFollows(step, m, ledger, links); }
  }

  /** Clearing and checking, as one script. */
  lemma ChecksFollow<S, E>(step: Backend<S, E>, m: Machine<S, E>, ledger: Ledger)
    requires InPlanOrder(ledger)
    ensures var (m', kept, error) := Unwind(step, m, ledger, 0);
            && m.trace <= m'.trace && Follows(Since(m, m'), CheckScript(ledger) + ReturnScript(ledger), error)
            && kept <= ledger && (error.None? ==> kept == [])
  {
    hide Invoke, ReturnScript, Follows, ReturnAll;
    RootOf(ledger);
    var cleared: seq<Call> := if ledger == [] then [] else [ClearSharedEntries(ledger[0].start)];
    var m2 := m;
    Silent(m);
    if ledger != [] {
      var call := ClearSharedEntries(ledger[0].start);
      OneCall(step, m, call);
      m2 := Invoke(step, m, call).0;
      if Invoke(step, m, call).1.Refused? {
        FollowsOnly(Since(m, m2), cleared, [ClearTemporaryWindow, VerifyUnreachable(ledger)] + ReturnScript(ledger),
                    Invoke(step, m, call).1.error);
        assert CheckScript(ledger) + ReturnScript(ledger)
            == cleared + ([ClearTemporaryWindow, VerifyUnreachable(ledger)] + ReturnScript(ledger));
        return;
      }
    }
    WindowFollows(step, m2, ledger);
    assert CheckScript(ledger) + ReturnScript(ledger)
        == cleared + ([ClearTemporaryWindow, VerifyUnreachable(ledger)] + ReturnScript(ledger));
    var (m', kept, error) := Checked(step, m2, ledger);
    SinceChain(m, m2, m');
    FollowsThen(Since(m, m2), cleared, Since(m2, m'),
                [ClearTemporaryWindow, VerifyUnreachable(ledger)] + ReturnScript(ledger), error);
  }

  lemma Silent<S, E>(m: Machine<S, E>)
    ensures Since(m, m) == [] && Follows(Since(m, m), [], None)
  {
  }

  /** The window, the check and the returns of an unwinding. */
  ghost function Checked<S,
      E>(step: Backend<S, E>, m: Machine<S, E>, ledger: Ledger): (Machine<S, E>, Ledger, Option<E>) {
    var (m3, window) := Invoke(step, m, ClearTemporaryWindow);
    if window.Refused? then (m3, ledger, Some(window.error))
    else
      var (m4, verified) := Invoke(step, m3, VerifyUnreachable(ledger));
      if verified.Refused? then (m4, ledger, Some(verified.error)) else ReturnAll(step, m4, ledger)
  }

  lemma WindowFollows<S, E>(step: Backend<S, E>, m: Machine<S, E>, ledger: Ledger)
    ensures var (m', kept, error) := Checked(step, m, ledger);
            && m.trace <= m'.trace
            && Follows(Since(m, m'), [ClearTemporaryWindow, VerifyUnreachable(ledger)] + ReturnScript(ledger), error)
            && kept <= ledger && (error.None? ==> kept == [])
  {
    hide Invoke, ReturnScript, Follows, ReturnAll;
    var window, verify := ClearTemporaryWindow, VerifyUnreachable(ledger);
    var (m3, a) := Invoke(step, m, window);
    OneCall(step, m, window);
    assert [window, verify] + ReturnScript(ledger) == [window] + ([verify] + ReturnScript(ledger));
    if a.Refused? {
      FollowsOnly(Since(m, m3), [window], [verify] + ReturnScript(ledger), a.error);
    } else {
      var (m4, b) := Invoke(step, m3, verify);
      OneCall(step, m3, verify);
      if b.Refused? {
        FollowsOnly(Since(m3, m4), [verify], ReturnScript(ledger), b.error);
        SinceChain(m, m3, m4);
        FollowsThen(Since(m, m3), [window], Since(m3, m4), [verify] + ReturnScript(ledger), Some(b.error));
      } else {
        ReturnFollows(step, m4, ledger);
        KeptNone(step, m4, ledger);
        var (m', kept, error) := ReturnAll(step, m4, ledger);
        SinceChain(m3, m4, m');
        FollowsThen(Since(m3, m4), [verify], Since(m4, m'), ReturnScript(ledger), error);
        SinceChain(m, m3, m');
        FollowsThen(Since(m, m3), [window], Since(m3, m'), [verify] + ReturnScript(ledger), error);
      }
    }
  }

  lemma {:induction false} KeptNone<S, E>(step: Backend<S, E>, m: Machine<S, E>, ledger: Ledger)
    ensures ReturnAll(step, m, ledger).2.None? ==> ReturnAll(step, m, ledger).1 == []
    ensures ReturnAll(step, m, ledger).1 <= ledger
    decreases |ledger|
  {
    hide Invoke;
    if ledger != [] { KeptNone(step, Invoke(step, m, ReturnFrame(ledger[|ledger| - 1])).0, ledger[..|ledger| - 1]); }
  }

  /** An unwinding says exactly its script, up to the first refusal, and keeps what was not taken back. */
  lemma UnwindFollows<S, E>(step: Backend<S, E>, m: Machine<S, E>, ledger: Ledger, links: nat)
    requires InPlanOrder(ledger) && links <= 6 && (links > 0 ==> |ledger| == 7 && Complete(ledger))
    ensures var (m', kept, error) := Unwind(step, m, ledger, links);
            && m.trace <= m'.trace && Follows(Since(m, m'), UnwindScript(ledger, links), error)
            && kept <= ledger && (error.None? ==> kept == [])
  {
    hide Complete, RemovalScript, ReturnScript, CheckScript, Follows, RemoveAll, ReturnAll, Invoke;
    RemovalFollows(step, m, ledger, links);
    var removals := if links > 0 then RemovalScript(Starts(ledger), links) else [];
    var (m1, unlinked) := RemoveAll(step, m, ledger, links);
    if unlinked.Some? {
      FollowsOnly(Since(m, m1), removals, CheckScript(ledger) + ReturnScript(ledger), unlinked.value);
    } else {
      ChecksFollow(step, m1, ledger);
      UnwindSplits(step, m, ledger, links);
      var (m', kept, error) := Unwind(step, m1, ledger, 0);
      SinceChain(m, m1, m');
      FollowsThen(Since(m, m1), removals, Since(m1, m'), CheckScript(ledger) + ReturnScript(ledger), error);
    }
  }

  lemma {:induction false} UnwindSplits<S, E>(step: Backend<S, E>, m: Machine<S, E>, ledger: Ledger, links: nat)
    requires links <= 6 && (links > 0 ==> Complete(ledger)) && RemoveAll(step, m, ledger, links).1.None?
    ensures Unwind(step, m, ledger, links) == Unwind(step, RemoveAll(step, m, ledger, links).0, ledger, 0)
  {
    hide Complete, Invoke, ReturnAll, FrameFor;
  }

  /** A teardown by a live inactive owner says its whole script, links and all, up to the first refusal. */
  lemma TeardownFollows<S, E>(step: Backend<S, E>, m: Machine<S, E>, owner: Owner)
    requires Published(owner) && owner.live && owner.state == Inactive
    ensures var (m', torn) := Teardown(step, m, owner);
            && m.trace <= m'.trace
            && (torn.TornDown? ==>
                  Follows(Since(m, m'), UnwindScript(owner.ledger, 6), None)
                  && torn.dead == Owner(owner.generation, false, Dead, None, []))
            && (torn.BackendRefused? ==>
                  && Follows(Since(m, m'), UnwindScript(owner.ledger, 6), Some(torn.refusal))
                  && torn.stale == owner.(live := false, ledger := torn.stale.ledger)
                  && torn.stale.ledger <= owner.ledger)
            && !torn.OwnerRefused?
  {
    hide Unwind, UnwindScript, Follows;
    FullIsComplete(owner.ledger);
    UnwindFollows(step, m, owner.ledger, 6);
    var (m', kept, error) := Unwind(step, m, owner.ledger, 6);
    if error.Some? {
      assert Teardown(step, m, owner) == (m', BackendRefused(error.value, owner.(live := false, ledger := kept)));
      assert error == Some(error.value);
    }
  }

  // Building ---------------------------------------------------------------------------------------

  /** Each role in turn: take a frame, then prepare it. */
  function FrameScript(generation: u64, f: seq<u64>): (script: seq<Call>)
    requires |f| <= 7
    ensures |script| == 2 * |f|
  {
    seq(2 * |f|, k requires 0 <= k < 2 * |f| =>
      if k % 2 == 0 then AllocateFrame(ALL_ROLES[k / 2]) else PrepareFrame(generation, ALL_ROLES[k / 2], f[k / 2]))
  }

  /** Aligned, and unlike every earlier one. */
  predicate Fresh(f: seq<u64>, k: nat)
    requires k < |f|
  {
    f[k] % 4096 == 0 && forall i :: 0 <= i < k ==> f[i] != f[k]
  }

  predicate AllFresh(f: seq<u64>) {
    forall k :: 0 <= k < |f| ==> Fresh(f, k)
  }

  lemma LatestIs(ledger: Ledger)
    requires InPlanOrder(ledger) && ledger != []
    ensures var n := |ledger| - 1;
            var f := Starts(ledger);
            ValidateLatest(ledger) == if f[n] % 4096 != 0 then Fail(InvalidFrame)
                                      else if Fresh(f, n) then Pass else Fail(DuplicateFrame)
    ensures var n := |ledger| - 1; Starts(ledger)[n] % 4096 != 0 ==> !Fresh(Starts(ledger), n)
  {
    var n := |ledger| - 1;
    var f := Starts(ledger);
    forall i | 0 <= i < n ensures ledger[i].role != ledger[n].role && ledger[i].start == f[i] {
      assert ALL_ROLES[i].Index() == i && ALL_ROLES[n].Index() == n;
    }
    if f[n] % 4096 == 0 && !Fresh(f, n) {
      var i :| 0 <= i < n && f[i] == f[n];
      assert ledger[i].start == ledger[n].start;
    }
  }

  /** How the allocation of a whole plan ends. */
  ghost predicate AllocationEnds<E>(
    events: seq<Event<E>>, generation: u64, ledger: Ledger, cause: Option<BuildCause<E>>)
    requires |ledger| <= 7
  {
    var f := Starts(ledger);
    match cause
    case None => |f| == 7 && AllFresh(f) && Follows(events, FrameScript(generation, f), None)
    case Some(BackendCause(e)) =>
      && AllFresh(f)
      && ((|f| < 7 && Follows(events, FrameScript(generation, f) + [AllocateFrame(ALL_ROLES[|f|])], Some(e))
           && |events| == 2 * |f| + 1)
          || (|f| > 0 && Follows(events, FrameScript(generation, f), Some(e)) && |events| == 2 * |f|))
    case Some(OwnerCause(why)) =>
      && |f| > 0 && AllFresh(f[..|f| - 1]) && !Fresh(f, |f| - 1)
      && why == (if f[|f| - 1] % 4096 != 0 then InvalidFrame else DuplicateFrame)
      && Follows(events, FrameScript(generation, f)[..2 * |f| - 1], None)
  }

  lemma FrameScriptGrows(generation: u64, f: seq<u64>, start: u64)
    requires |f| < 7
    ensures var role := ALL_ROLES[|f|];
            && FrameScript(generation, f + [start])
               == FrameScript(generation, f) + [AllocateFrame(role), PrepareFrame(generation, role, start)]
            && FrameScript(generation, f + [start])[..2 * |f| + 1] == FrameScript(generation, f) + [AllocateFrame(role)]
  {
    var a := FrameScript(generation, f + [start]);
    forall k | 0 <= k < 2 * |f| ensures a[k] == FrameScript(generation, f)[k] {
      assert k / 2 < |f|;
    }
  }

  lemma StartsGrow(ledger: Ledger, owned: OwnedFrame)
    ensures Starts(ledger + [owned]) == Starts(ledger) + [owned.start]
  {
  }

  lemma FreshGrows(f: seq<u64>, start: u64)
    requires AllFresh(f)
    ensures AllFresh(f + [start]) <==> Fresh(f + [start], |f|)
    ensures (f + [start])[..|f|] == f
  {
    var g := f + [start];
    forall k | 0 <= k < |f| ensures Fresh(g, k) <==> Fresh(f, k) {
    }
  }

  /** From role `i` on: the rest of the script, given what was said before. */
  lemma {:induction false} AllocateFollows<S, E>(
    step: Backend<S, E>, m0: Machine<S, E>, m: Machine<S, E>, generation: u64, ledger: Ledger)
    requires InPlanOrder(ledger) && m0.trace <= m.trace && AllFresh(Starts(ledger))
    requires Follows(Since(m0, m), FrameScript(generation, Starts(ledger)), None)
    ensures var (m', ledger', cause) := AllocateAll(step, m, generation, |ledger|, ledger);
            && m0.trace <= m'.trace && |ledger'| <= 7
            && AllocationEnds(Since(m0, m'), generation, ledger', cause)
    decreases 7 - |ledger|
  {
    hide Follows, FrameScript, Invoke, Starts, AllFresh, Fresh, ValidateLatest, AllocationEnds;
    if |ledger| == 7 {
      EndsWell(Since(m0, m), generation, ledger);
    } else {
      var i := |ledger|;
      var role, f := ALL_ROLES[i], Starts(ledger);
      var (m1, frame) := Invoke(step, m, AllocateFrame(role));
      OneCall(step, m, AllocateFrame(role));
      SinceChain(m0, m, m1);
      FollowsThen(Since(m0, m), FrameScript(generation, f), Since(m, m1), [AllocateFrame(role)],
                  match frame case Granted(_) => None case Refused(e) => Some(e));
      if frame.Refused? {
        CountFollows(Since(m0, m), FrameScript(generation, f));
        EndsUnallocated(Since(m0, m1), generation, ledger, frame.error);
      } else {
        var owned := OwnedFrame(role, frame.value);
        var ledger1 := ledger + [owned];
        StartsGrow(ledger, owned);
        FrameScriptGrows(generation, f, frame.value);
        FreshGrows(f, frame.value);
        LatestIs(ledger1);
        if ValidateLatest(ledger1).Pass? {
          AllocatePrepares(step, m0, m1, generation, ledger, frame.value);
          var (m2, prepared) := Invoke(step, m1, PrepareFrame(generation, role, frame.value));
          if prepared.Granted? {
            AllocateFollows(step, m0, m2, generation, ledger1);
          } else {
            EndsUnprepared(Since(m0, m2), generation, ledger1, prepared.error);
          }
        } else {
          EndsUnfit(Since(m0, m1), generation, ledger1, ValidateLatest(ledger1).error);
        }
      }
    }
  }

  lemma EndsWell<E>(events: seq<Event<E>>, generation: u64, ledger: Ledger)
    requires |ledger| == 7 && AllFresh(Starts(ledger)) && Follows(events, FrameScript(generation, Starts(ledger)), None)
    ensures AllocationEnds(events, generation, ledger, None)
  {
    hide Follows, FrameScript, AllFresh;
  }

  lemma EndsUnallocated<E>(events: seq<Event<E>>, generation: u64, ledger: Ledger, e: E)
    requires |ledger| < 7 && AllFresh(Starts(ledger)) && |events| == 2 * |ledger| + 1
    requires Follows(events, FrameScript(generation, Starts(ledger)) + [AllocateFrame(ALL_ROLES[|ledger|])], Some(e))
    ensures AllocationEnds(events, generation, ledger, Some(BackendCause(e)))
  {
    hide Follows, FrameScript, AllFresh;
  }

  lemma EndsUnprepared<E>(events: seq<Event<E>>, generation: u64, ledger: Ledger, e: E)
    requires 0 < |ledger| <= 7 && AllFresh(Starts(ledger)) && |events| == 2 * |ledger|
    requires Follows(events, FrameScript(generation, Starts(ledger)), Some(e))
    ensures AllocationEnds(events, generation, ledger, Some(BackendCause(e)))
  {
    hide Follows, FrameScript, AllFresh;
  }

  lemma EndsUnfit<E>(events: seq<Event<E>>, generation: u64, ledger: Ledger, why: OwnerError)
    requires 0 < |ledger| <= 7
    requires var f := Starts(ledger);
             && AllFresh(f[..|f| - 1]) && !Fresh(f, |f| - 1)
             && why == (if f[|f| - 1] % 4096 != 0 then InvalidFrame else DuplicateFrame)
             && Follows(events, FrameScript(generation, f)[..2 * |f| - 1], None)
    ensures AllocationEnds(events, generation, ledger, Some(OwnerCause(why)))
  {
    hide Follows, FrameScript, AllFresh, Fresh;
  }

  lemma CountFollows<E>(events: seq<Event<E>>, script: seq<Call>)
    requires Follows(events, script, None)
    ensures |events| == |script|
  {
  }

  lemma AllocatePrepares<S, E>(
    step: Backend<S, E>, m0: Machine<S, E>, m1: Machine<S, E>, generation: u64, ledger: Ledger, start: u64)
    requires |ledger| < 7 && m0.trace <= m1.trace
    requires var role := ALL_ROLES[|ledger|];
             Follows(Since(m0, m1), FrameScript(generation, Starts(ledger)) + [AllocateFrame(role)], None)
    ensures var role := ALL_ROLES[|ledger|];
            var (m2, prepared) := Invoke(step, m1, PrepareFrame(generation, role, start));
            && m0.trace <= m2.trace && |Since(m0, m2)| == 2 * |ledger| + 2
            && Follows(Since(m0, m2), FrameScript(generation, Starts(ledger) + [start]),
                       match prepared case Granted(_) => None case Refused(e) => Some(e))
  {
    hide FrameScript, Invoke;
    var role, f := ALL_ROLES[|ledger|], Starts(ledger);
    var call := PrepareFrame(generation, role, start);
    var (m2, prepared) := Invoke(step, m1, call);
    OneCall(step, m1, call);
    SinceChain(m0, m1, m2);
    FrameScriptGrows(generation, f, start);
    assert FrameScript(generation, f + [start]) == FrameScript(generation, f) + [AllocateFrame(role)] + [call];
    FollowsThen(Since(m0, m1), FrameScript(generation, f) + [AllocateFrame(role)], Since(m1, m2), [call],
                match prepared case Granted(_) => None case Refused(e) => Some(e));
  }

  /** A finished address space: fourteen calls for its frames, six for its links, all granted, frames all fresh. */
  ghost predicate SaidToBuild<E>(events: seq<Event<E>>, generation: u64, f: seq<u64>) {
    |f| == 7 && AllFresh(f) && Follows(events, FrameScript(generation, f) + LinkScript(f, false), None)
  }

  /** What a construction says: to build, or to a failure and then to unwind from it. */
  lemma ConstructFollows<S, E>(step: Backend<S, E>, m: Machine<S, E>, generation: u64)
    ensures var (m', result) := Construct(step, m, generation);
            && m.trace <= m'.trace
            && (result.Built? ==>
                  && generation != 0 && InPlanOrder(result.owner.ledger)
                  && SaidToBuild(Since(m, m'), generation, Starts(result.owner.ledger))
                  && result.owner == Owner(generation, true, Inactive, Some(result.owner.ledger[0].start),
                                           result.owner.ledger))
            && (generation == 0 ==>
                  m' == m && result == BuildFailed(OwnerCause(InvalidGeneration), None, []))
            && (result.BuildFailed? && generation != 0 ==>
                  exists m1: Machine<S, E>, ledger: Ledger, links: nat ::
                    Failed(m, m1, m', generation, ledger, links, result))
  {
    hide Unwind, UnwindScript, Follows, FrameScript, LinkScript, InstallAll, AllocateAll, AllocationEnds, AllFresh;
    if generation != 0 {
      Silent(m);
      EmptyScript(generation);
      AllocateFollows(step, m, m, generation, []);
      var (m1, ledger, cause) := AllocateAll(step, m, generation, 0, []);
      if cause.Some? {
        UnwindFollows(step, m1, ledger, 0);
        var (m', kept, error) := Unwind(step, m1, ledger, 0);
        SinceChain(m, m1, m');
        assert Failed(m, m1, m', generation, ledger, 0, BuildFailed(cause.value, error, kept));
      } else {
        FullIsComplete(ledger);
        InstallFollows(step, m1, ledger, 0);
        EndedWell(Since(m, m1), generation, ledger);
        FindsRole(ledger, 0);
        var (m2, links, refused) := InstallAll(step, m1, ledger, 0);
        var script := LinkScript(Starts(ledger), false);
        assert script[0..] == script;
        SinceChain(m, m1, m2);
        FollowsThen(Since(m, m1), FrameScript(generation, Starts(ledger)), Since(m1, m2), script, refused);
        if refused.Some? {
          UnwindFollows(step, m2, ledger, links);
          var (m', kept, error) := Unwind(step, m2, ledger, links);
          SinceChain(m, m2, m');
          LinkCount(Since(m, m1), Since(m1, m2), Since(m, m2), generation, ledger, links, refused.value);
          assert Failed(m, m2, m', generation, ledger, links, BuildFailed(BackendCause(refused.value), error, kept));
        }
      }
    }
  }

  lemma EmptyScript(generation: u64)
    ensures FrameScript(generation, Starts([])) == [] && AllFresh(Starts([]))
  {
  }

  lemma EndedWell<E>(events: seq<Event<E>>, generation: u64, ledger: Ledger)
    requires |ledger| <= 7 && AllocationEnds(events, generation, ledger, None)
    ensures AllFresh(Starts(ledger)) && Follows(events, FrameScript(generation, Starts(ledger)), None)
  {
  }

  lemma LinkCount<E>(
    a: seq<Event<E>>, b: seq<Event<E>>, all: seq<Event<E>>, generation: u64, ledger: Ledger, links: nat, e: E)
    requires |ledger| == 7 && all == a + b && Follows(a, FrameScript(generation, Starts(ledger)), None)
    requires links == |b| - 1
    ensures |all| == 14 + links + 1
  {
  }

  /** Up to `m1` the building was said and refused; from there it was unwound, and the rest is reported. */
  ghost predicate Failed<S, E>(
    m: Machine<S, E>, m1: Machine<S, E>, m': Machine<S, E>, generation: u64, ledger: Ledger, links: nat,
    result: BuildResult<E>)
  {
    && m.trace <= m1.trace <= m'.trace && result.BuildFailed?
    && InPlanOrder(ledger) && links <= 6 && (links > 0 ==> |ledger| == 7)
    && ((AllocationEnds(Since(m, m1), generation, ledger, Some(result.cause)) && links == 0)
        || (&& |ledger| == 7 && AllFresh(Starts(ledger)) && result.cause.BackendCause?
            && Follows(Since(m, m1), FrameScript(generation, Starts(ledger)) + LinkScript(Starts(ledger), false),
                       Some(result.cause.error))
            && |Since(m, m1)| == 14 + links + 1))
    && Follows(Since(m1, m'), UnwindScript(ledger, links), result.rollbackError)
    && result.retained <= ledger && (result.rollbackError.None? ==> result.retained == [])
  }
}
