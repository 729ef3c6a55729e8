/**
 Ownership of one address space: a fixed construction plan over any backend, rollback at
 every failure point, and teardown. A backend is an arbitrary state machine that may
 refuse any call; every call and reply is kept in a trace.
 */
module AddressSpace {
  import opened Words
  import opened PageTables

  // Layout -----------------------------------------------------------------------------------

  const USER_TEXT: int := 0x0000_0080_0040_0000
  const USER_STACK: int := 0x0000_0080_0080_0000

  const TABLE_FLAGS: Flags := Flags(true, true, false)
  const USER_TEXT_FLAGS: Flags := Flags(false, true, false)
  const USER_STACK_FLAGS: Flags := Flags(true, true, true)

  datatype FrameRole = Root | UserPml3 | UserPml2 | TextPml1 | StackPml1 | Text | Stack {
    function Index(): nat {
      match this
      case Root => 0
      case UserPml3 => 1
      case UserPml2 => 2
      case TextPml1 => 3
      case StackPml1 => 4
      case Text => 5
      case Stack => 6
    }
  }

  const ALL_ROLES: seq<FrameRole> := [Root, UserPml3, UserPml2, TextPml1, StackPml1, Text, Stack]

  datatype LinkSpec = LinkSpec(parent: FrameRole, child: FrameRole, index: TableIndex, flags: Flags)

  const BUILD_LINKS: seq<LinkSpec> := [
    LinkSpec(Root, UserPml3, Pml4Index(USER_TEXT), TABLE_FLAGS),
    LinkSpec(UserPml3, UserPml2, Pml3Index(USER_TEXT), TABLE_FLAGS),
    LinkSpec(UserPml2, TextPml1, Pml2Index(USER_TEXT), TABLE_FLAGS),
    LinkSpec(UserPml2, StackPml1, Pml2Index(USER_STACK), TABLE_FLAGS),
    LinkSpec(TextPml1, Text, Pml1Index(USER_TEXT), USER_TEXT_FLAGS),
    LinkSpec(StackPml1, Stack, Pml1Index(USER_STACK), USER_STACK_FLAGS)]

  // Owner ------------------------------------------------------------------------------------

  const LEDGER_CAPACITY: nat := 16

  datatype OwnedFrame = OwnedFrame(role: FrameRole, start: u64)

  type Ledger = seq<OwnedFrame>

  datatype LifecycleState = Building | Inactive | Active | Dead

  datatype OwnerError =
    | InvalidGeneration | InvalidFrame | DuplicateFrame | LedgerFull | WrongState | RootNotOwned
    | StaleOwner | StaleToken
    | InvalidTokenAddress

  datatype Owner = Owner(generation: u64, live: bool, state: LifecycleState, root: Option<u64>, ledger: Ledger)

  function FrameFor(ledger: Ledger, role: FrameRole): Option<u64> {
    if ledger == [] then None
    else if ledger[0].role == role then Some(ledger[0].start)
    else FrameFor(ledger[1..], role)
  }

  /** Whether the newest entry is aligned and unlike every earlier one. */
  function ValidateLatest(ledger: Ledger): Outcome<OwnerError> {
    if ledger == [] then Pass
    else
      var n := |ledger| - 1;
      if ledger[n].start % PAGE_SIZE != 0 then Fail(InvalidFrame)
      else if exists i :: 0 <= i < n && (ledger[i].start == ledger[n].start || ledger[i].role == ledger[n].role) then
        Fail(DuplicateFrame)
      else Pass
  }

  /** Ownership has already passed, so the frame is recorded before it is judged. */
  function RecordFrame(ledger: Ledger, frame: OwnedFrame): (Ledger, Outcome<OwnerError>) {
    if |ledger| >= LEDGER_CAPACITY then (ledger, Fail(LedgerFull))
    else (ledger + [frame], ValidateLatest(ledger + [frame]))
  }

  // Any backend --------------------------------------------------------------------------------

  datatype Call =
    | AllocateFrame(role: FrameRole)
    | PrepareFrame(generation: u64, prepared: FrameRole, frame: u64)
    | InstallLink(link: LinkSpec, parent: u64, child: u64)
    | RemoveLink(link: LinkSpec, parent: u64, child: u64)
    | ClearSharedEntries(root: u64)
    | ClearTemporaryWindow
    | VerifyUnreachable(frames: Ledger)
    | ReturnFrame(owned: OwnedFrame)

  /** Only an allocation's value is used. */
  datatype Reply<+E> = Granted(value: u64) | Refused(error: E)

  datatype Event<+E> = Event(call: Call, reply: Reply<E>)

  datatype Machine<+S, +E> = Machine(state: S, trace: seq<Event<E>>)

  type Backend<!S, !E> = (S, Call) -> (S, Reply<E>)

  function Invoke<S, E>(step: Backend<S, E>, m: Machine<S, E>, call: Call): (Machine<S, E>, Reply<E>) {
    var (state, reply) := step(m.state, call);
    (Machine(state, m.trace + [Event(call, reply)]), reply)
  }

  // Construction -------------------------------------------------------------------------------

  datatype BuildCause<+E> = BackendCause(error: E) | OwnerCause(why: OwnerError)

  /** The ledger holds the first roles of the plan, in plan order. */
  predicate InPlanOrder(ledger: Ledger) {
    |ledger| <= |ALL_ROLES| && forall k :: 0 <= k < |ledger| ==> ledger[k].role == ALL_ROLES[k]
  }

  /** Allocate, record and prepare roles `i` onward. */
  function AllocateAll<S, E>(step: Backend<S, E>, m: Machine<S, E>, generation: u64, i: nat, ledger: Ledger):
    (r: (Machine<S, E>, Ledger, Option<BuildCause<E>>))
    requires InPlanOrder(ledger) && |ledger| == i
    ensures InPlanOrder(r.1) && (r.2.None? ==> |r.1| == |ALL_ROLES|)
    decreases |ALL_ROLES| - i
  {
    if i == |ALL_ROLES| then (m, ledger, None)
    else
      var role := ALL_ROLES[i];
      var (m1, frame) := Invoke(step, m, AllocateFrame(role));
      if frame.Refused? then (m1, ledger, Some(BackendCause(frame.error)))
      else
        var (ledger1, recorded) := RecordFrame(ledger, OwnedFrame(role, frame.value));
        if recorded.Fail? then (m1, ledger1, Some(OwnerCause(recorded.error)))
        else
          var (m2, prepared) := Invoke(step, m1, PrepareFrame(generation, role, frame.value));
          if prepared.Refused? then (m2, ledger1, Some(BackendCause(prepared.error)))
          else AllocateAll(step, m2, generation, i + 1, ledger1)
  }

  /** Every role has a frame. */
  predicate Complete(ledger: Ledger) {
    forall role: FrameRole :: FrameFor(ledger, role).Some?
  }

  /** A full plan-ordered ledger finds each role's frame at its place. */
  lemma {:induction false} FindsRole(ledger: Ledger, k: nat)
    requires InPlanOrder(ledger) && k < |ledger|
    ensures FrameFor(ledger, ALL_ROLES[k]) == Some(ledger[k].start)
  {
    FindsFirst(ledger, k);
  }

  lemma {:induction false} FindsFirst(ledger: Ledger, k: nat)
    requires k < |ledger| && forall i :: 0 <= i < k ==> ledger[i].role != ledger[k].role
    ensures FrameFor(ledger, ledger[k].role) == Some(ledger[k].start)
    decreases k
  {
    if k > 0 {
      assert ledger[0].role != ledger[k].role;
      FindsFirst(ledger[1..], k - 1);
    }
  }

  lemma {:induction false} FullIsComplete(ledger: Ledger)
    requires InPlanOrder(ledger) && |ledger| == |ALL_ROLES|
    ensures Complete(ledger)
    ensures FrameFor(ledger, Root) == Some(ledger[0].start)
  {
    forall role: FrameRole ensures FrameFor(ledger, role).Some? {
      assert ALL_ROLES[role.Index()] == role;
      FindsRole(ledger, role.Index());
    }
    FindsRole(ledger, 0);
  }

  function LinkCall(remove: bool, ledger: Ledger, k: nat): Call
    requires Complete(ledger) && k < |BUILD_LINKS|
  {
    var link := BUILD_LINKS[k];
    var parent := FrameFor(ledger, link.parent).value;
    var child := FrameFor(ledger, link.child).value;
    if remove then RemoveLink(link, parent, child) else InstallLink(link, parent, child)
  }

  /** Install links `k` onward; how many are in place and why it stopped. */
  function InstallAll<S, E>(step: Backend<S, E>, m: Machine<S, E>, ledger: Ledger, k: nat):
    (r: (Machine<S, E>, nat, Option<E>))
    requires Complete(ledger) && k <= |BUILD_LINKS|
    ensures k <= r.1 <= |BUILD_LINKS| && (r.2.None? ==> r.1 == |BUILD_LINKS|)
    decreases |BUILD_LINKS| - k
  {
    if k == |BUILD_LINKS| then (m, k, None)
    else
      var (m1, reply) := Invoke(step, m, LinkCall(false, ledger, k));
      if reply.Refused? then (m1, k, Some(reply.error)) else InstallAll(step, m1, ledger, k + 1)
  }

  /** Remove the first `k` links, last first. */
  function RemoveAll<S, E>(step: Backend<S, E>, m: Machine<S, E>, ledger: Ledger, k: nat): (Machine<S, E>, Option<E>)
    requires (k > 0 ==> Complete(ledger)) && k <= |BUILD_LINKS|
    decreases k
  {
    if k == 0 then (m, None)
    else
      var (m1, reply) := Invoke(step, m, LinkCall(true, ledger, k - 1));
      if reply.Refused? then (m1, Some(reply.error)) else RemoveAll(step, m1, ledger, k - 1)
  }

  /** Give frames back, newest first, dropping each only once it is taken. */
  function ReturnAll<S, E>(step: Backend<S, E>, m: Machine<S, E>, ledger: Ledger): (Machine<S, E>, Ledger, Option<E>)
    decreases |ledger|
  {
    if ledger == [] then (m, ledger, None)
    else
      var (m1, reply) := Invoke(step, m, ReturnFrame(ledger[|ledger| - 1]));
      if reply.Refused? then (m1, ledger, Some(reply.error)) else ReturnAll(step, m1, ledger[..|ledger| - 1])
  }

  /** Unlink, clear, check that nothing is reachable, and only then return the frames. */
  function Unwind<S, E>(step: Backend<S, E>, m: Machine<S, E>, ledger: Ledger, links: nat):
    (Machine<S, E>, Ledger, Option<E>)
    requires (links > 0 ==> Complete(ledger)) && links <= |BUILD_LINKS|
  {
    var (m1, unlinked) := RemoveAll(step, m, ledger, links);
    if unlinked.Some? then (m1, ledger, unlinked)
    else
      var root := FrameFor(ledger, Root);
      var (m2, cleared) := if root.Some? then Invoke(step, m1, ClearSharedEntries(root.value)) else (m1, Granted(0));
      if cleared.Refused? then (m2, ledger, Some(cleared.error))
      else
        var (m3, window) := Invoke(step, m2, ClearTemporaryWindow);
        if window.Refused? then (m3, ledger, Some(window.error))
        else
          var (m4, verified) := Invoke(step, m3, VerifyUnreachable(ledger));
          if verified.Refused? then (m4, ledger, Some(verified.error)) else ReturnAll(step, m4, ledger)
  }

  datatype BuildResult<+E> =
    | Built(owner: Owner)
    | BuildFailed(cause: BuildCause<E>, rollbackError: Option<E>, retained: Ledger)

  function RollBack<S, E>(
    step: Backend<S, E>, m: Machine<S, E>, cause: BuildCause<E>, ledger: Ledger, links: nat):
    (Machine<S, E>, BuildResult<E>)
    requires (links > 0 ==> Complete(ledger)) && links <= |BUILD_LINKS|
  {
    var (m1, retained, error) := Unwind(step, m, ledger, links);
    (m1, BuildFailed(cause, error, retained))
  }

  function Construct<S, E>(step: Backend<S, E>, m: Machine<S, E>, generation: u64): (Machine<S, E>, BuildResult<E>) {
    if generation == 0 then (m, BuildFailed(OwnerCause(InvalidGeneration), None, []))
    else
      var (m1, ledger, failure) := AllocateAll(step, m, generation, 0, []);
      if failure.Some? then RollBack(step, m1, failure.value, ledger, 0)
      else
        FullIsComplete(ledger);
        var (m2, links, refused) := InstallAll(step, m1, ledger, 0);
        if refused.Some? then RollBack(step, m2, BackendCause(refused.value), ledger, links)
        else (m2, Built(Owner(generation, true, Inactive, FrameFor(ledger, Root), ledger)))
  }

  // Teardown ---------------------------------------------------------------------------------

  datatype TeardownResult<+E> =
    | TornDown(dead: Owner)
    | OwnerRefused(error: OwnerError, kept: Owner)
    | BackendRefused(refusal: E, stale: Owner)

  /** An owner that holds a complete plan-ordered ledger: what construction publishes. */
  predicate Published(owner: Owner) {
    InPlanOrder(owner.ledger) && |owner.ledger| == |ALL_ROLES| && owner.root == Some(owner.ledger[0].start)
  }

  /** The generation dies first, so a failed teardown leaves an owner nothing accepts. */
  function Teardown<S, E>(step: Backend<S, E>, m: Machine<S, E>, owner: Owner): (Machine<S, E>, TeardownResult<E>)
    requires owner.state == Inactive && owner.live ==> Published(owner)
  {
    if owner.state != Inactive || !owner.live then (m, OwnerRefused(WrongState, owner))
    else
      FullIsComplete(owner.ledger);
      var (m1, ledger, error) := Unwind(step, m, owner.ledger, |BUILD_LINKS|);
      match error
      case Some(e) => (m1, BackendRefused(e, owner.(live := false, ledger := ledger)))
      case None => (m1, TornDown(owner.(live := false, root := None, state := Dead, ledger := ledger)))
  }

  datatype PairResult<+E> =
    | BuiltPair(first: Owner, second: Owner)
    | FirstFailed(failure: BuildResult<E>)
    | SecondFailed(secondFailure: BuildResult<E>, firstTeardown: TeardownResult<E>)

  function ConstructPair<S, E>(step: Backend<S, E>, m: Machine<S, E>, g1: u64, g2: u64):
    (Machine<S, E>, PairResult<E>)
  {
    var (m1, first) := Construct(step, m, g1);
    if first.BuildFailed? then (m1, FirstFailed(first))
    else
      var (m2, second) := Construct(step, m1, g2);
      if second.Built? then (m2, BuiltPair(first.owner, second.owner))
      else
        BuiltIsPublished(step, m, g1);
        var (m3, torn) := Teardown(step, m2, first.owner);
        (m3, SecondFailed(second, torn))
  }

  lemma BuiltIsPublished<S, E>(step: Backend<S, E>, m: Machine<S, E>, generation: u64)
    ensures var r := Construct(step, m, generation).1;
            r.Built? ==>
              Published(r.owner) && r.owner.live && r.owner.state == Inactive && r.owner.generation == generation
  {
    if generation != 0 {
      var ledger := AllocateAll(step, m, generation, 0, []).1;
      if |ledger| == |ALL_ROLES| { FullIsComplete(ledger); }
    }
  }

  // Conservation over any backend -----------------------------------------------------------------

  /** Frames the backend handed over, in order. */
  function Obtained<E>(trace: seq<Event<E>>): Ledger {
    if trace == [] then []
    else
      var e := trace[|trace| - 1];
      Obtained(trace[..|trace| - 1])
      + if e.call.AllocateFrame? && e.reply.Granted? then [OwnedFrame(e.call.role, e.reply.value)] else []
  }

  /** Frames the backend took back, in order. */
  function TakenBack<E>(trace: seq<Event<E>>): Ledger {
    if trace == [] then []
    else
      var e := trace[|trace| - 1];
      TakenBack(trace[..|trace| - 1]) + if e.call.ReturnFrame? && e.reply.Granted? then [e.call.owned] else []
  }

  function Reverse(ledger: Ledger): Ledger {
    if ledger == [] then [] else [ledger[|ledger| - 1]] + Reverse(ledger[..|ledger| - 1])
  }

  /** From event `n` on, frames go back only after a granted check that names all of `ledger`. */
  predicate ReturnsVerified<E>(trace: seq<Event<E>>, n: nat, ledger: Ledger) {
    forall k :: n <= k < |trace| && trace[k].call.ReturnFrame? ==>
      exists j :: n <= j < k && trace[j].call == VerifyUnreachable(ledger) && trace[j].reply.Granted?
  }

  /** The later trace extends the earlier one. */
  ghost predicate Extends<S, E>(m: Machine<S, E>, m': Machine<S, E>) {
    m.trace <= m'.trace
  }

  lemma {:induction false} TraceAppend<E>(trace: seq<Event<E>>, e: Event<E>)
    ensures Obtained(trace + [e])
         == Obtained(trace)
            + if e.call.AllocateFrame? && e.reply.Granted? then [OwnedFrame(e.call.role, e.reply.value)] else []
    ensures TakenBack(trace + [e])
         == TakenBack(trace) + if e.call.ReturnFrame? && e.reply.Granted? then [e.call.owned] else []
  {
    assert (trace + [e])[..|trace|] == trace;
  }

  /** No event from `n` on is a return. */
  predicate NoReturns<E>(trace: seq<Event<E>>, n: nat) {
    forall k :: n <= k < |trace| ==> !trace[k].call.ReturnFrame?
  }

  /** One call that is neither an allocation nor a return leaves both accounts alone. */
  lemma InvokePlain<S, E>(step: Backend<S, E>, m: Machine<S, E>, call: Call)
    requires !call.AllocateFrame? && !call.ReturnFrame?
    ensures var m' := Invoke(step, m, call).0;
            && Obtained(m'.trace) == Obtained(m.trace) && TakenBack(m'.trace) == TakenBack(m.trace)
            && m'.trace == m.trace + [Event(call, Invoke(step, m, call).1)]
  {
    TraceAppend(m.trace, Event(call, Invoke(step, m, call).1));
  }

  lemma InvokeAllocate<S, E>(step: Backend<S, E>, m: Machine<S, E>, role: FrameRole)
    ensures var (m', reply) := Invoke(step, m, AllocateFrame(role));
            && TakenBack(m'.trace) == TakenBack(m.trace) && m'.trace == m.trace + [Event(AllocateFrame(role), reply)]
            && Obtained(m'.trace)
               == Obtained(m.trace) + if reply.Granted? then [OwnedFrame(role, reply.value)] else []
  {
    TraceAppend(m.trace, Event(AllocateFrame(role), Invoke(step, m, AllocateFrame(role)).1));
  }

  lemma {:induction false} AllocateConserves<S, E>(
    step: Backend<S, E>, m: Machine<S, E>, generation: u64, i: nat, ledger: Ledger)
    requires InPlanOrder(ledger) && |ledger| == i
    ensures var (m', ledger', failure) := AllocateAll(step, m, generation, i, ledger);
            && Extends(m, m') && ledger <= ledger' && NoReturns(m'.trace, |m.trace|)
            && Obtained(m'.trace) == Obtained(m.trace) + ledger'[i..] && TakenBack(m'.trace) == TakenBack(m.trace)
    decreases |ALL_ROLES| - i
  {
    hide Obtained, TakenBack, Invoke, ValidateLatest;
    if i < |ALL_ROLES| {
      var role := ALL_ROLES[i];
      var (m1, frame) := Invoke(step, m, AllocateFrame(role));
      InvokeAllocate(step, m, role);
      if frame.Granted? {
        var owned := OwnedFrame(role, frame.value);
        var (ledger1, recorded) := RecordFrame(ledger, owned);
        assert ledger1[i..] == [owned];
        if recorded.Pass? {
          var (m2, prepared) := Invoke(step, m1, PrepareFrame(generation, role, frame.value));
          InvokePlain(step, m1, PrepareFrame(generation, role, frame.value));
          if prepared.Granted? {
            AllocateConserves(step, m2, generation, i + 1, ledger1);
            var all := AllocateAll(step, m2, generation, i + 1, ledger1).1;
            assert all[i..] == [owned] + all[i + 1..];
          }
        }
      }
    }
  }

  lemma {:induction false} InstallConserves<S, E>(step: Backend<S, E>, m: Machine<S, E>, ledger: Ledger, k: nat)
    requires Complete(ledger) && k <= |BUILD_LINKS|
    ensures var m' := InstallAll(step, m, ledger, k).0;
            && Extends(m, m') && NoReturns(m'.trace, |m.trace|)
            && Obtained(m'.trace) == Obtained(m.trace) && TakenBack(m'.trace) == TakenBack(m.trace)
    decreases |BUILD_LINKS| - k
  {
    hide Obtained, TakenBack, Invoke, Complete;
    if k < |BUILD_LINKS| {
      InvokePlain(step, m, LinkCall(false, ledger, k));
      InstallConserves(step, Invoke(step, m, LinkCall(false, ledger, k)).0, ledger, k + 1);
    }
  }

  lemma {:induction false} RemoveConserves<S, E>(step: Backend<S, E>, m: Machine<S, E>, ledger: Ledger, k: nat)
    requires (k > 0 ==> Complete(ledger)) && k <= |BUILD_LINKS|
    ensures var m' := RemoveAll(step, m, ledger, k).0;
            && Extends(m, m') && NoReturns(m'.trace, |m.trace|)
            && Obtained(m'.trace) == Obtained(m.trace) && TakenBack(m'.trace) == TakenBack(m.trace)
    decreases k
  {
    hide Obtained, TakenBack, Invoke, Complete;
    if k > 0 {
      InvokePlain(step, m, LinkCall(true, ledger, k - 1));
      RemoveConserves(step, Invoke(step, m, LinkCall(true, ledger, k - 1)).0, ledger, k - 1);
    }
  }

  /** What goes back is a suffix of the ledger in reverse; what stays is the prefix. */
  lemma {:induction false} ReturnConserves<S, E>(step: Backend<S, E>, m: Machine<S, E>, ledger: Ledger)
    ensures var (m', kept, error) := ReturnAll(step, m, ledger);
            && Extends(m, m') && kept <= ledger && (error.None? <==> kept == [])
            && Obtained(m'.trace) == Obtained(m.trace)
            && TakenBack(m'.trace) == TakenBack(m.trace) + Reverse(ledger[|kept|..])
    decreases |ledger|
  {
    hide Obtained, TakenBack, Invoke;
    if ledger != [] {
      var n := |ledger| - 1;
      var (m1, reply) := Invoke(step, m, ReturnFrame(ledger[n]));
      InvokeReturn(step, m, ledger[n]);
      if reply.Granted? {
        ReturnConserves(step, m1, ledger[..n]);
        var kept := ReturnAll(step, m1, ledger[..n]).1;
        assert ledger[|kept|..][..|ledger| - |kept| - 1] == ledger[..n][|kept|..];
      } else {
        assert ledger[|ledger|..] == [];
      }
    }
  }

  lemma InvokeReturn<S, E>(step: Backend<S, E>, m: Machine<S, E>, frame: OwnedFrame)
    ensures var (m', reply) := Invoke(step, m, ReturnFrame(frame));
            && Obtained(m'.trace) == Obtained(m.trace) && m'.trace == m.trace + [Event(ReturnFrame(frame), reply)]
            && TakenBack(m'.trace) == TakenBack(m.trace) + if reply.Granted? then [frame] else []
  {
    TraceAppend(m.trace, Event(ReturnFrame(frame), Invoke(step, m, ReturnFrame(frame)).1));
  }

  /** Unwinding from `ledger`: nothing goes back unverified, and every frame is kept or returned. */
  ghost predicate Accounted<S, E>(m: Machine<S, E>, m': Machine<S, E>, ledger: Ledger, kept: Ledger) {
    && Extends(m, m') && kept <= ledger
    && Obtained(m'.trace) == Obtained(m.trace)
    && TakenBack(m'.trace) == TakenBack(m.trace) + Reverse(ledger[|kept|..])
    && ReturnsVerified(m'.trace, |m.trace|, ledger)
  }

  lemma UnwindConserves<S, E>(step: Backend<S, E>, m: Machine<S, E>, ledger: Ledger, links: nat)
    requires (links > 0 ==> Complete(ledger)) && links <= |BUILD_LINKS|
    ensures var (m', kept, error) := Unwind(step, m, ledger, links);
            Accounted(m, m', ledger, kept) && (error.None? ==> kept == [])
  {
    hide Obtained, TakenBack, Invoke, Complete, RemoveAll, ReturnAll, FrameFor;
    RemoveConserves(step, m, ledger, links);
    var m1 := RemoveAll(step, m, ledger, links).0;
    var root := FrameFor(ledger, Root);
    if root.Some? { InvokePlain(step, m1, ClearSharedEntries(root.value)); }
    var m2 := if root.Some? then Invoke(step, m1, ClearSharedEntries(root.value)).0 else m1;
    InvokePlain(step, m2, ClearTemporaryWindow);
    var m3 := Invoke(step, m2, ClearTemporaryWindow).0;
    InvokePlain(step, m3, VerifyUnreachable(ledger));
    var (m4, verified) := Invoke(step, m3, VerifyUnreachable(ledger));
    assert ledger[|ledger|..] == [] && Reverse([]) == [];
    if verified.Granted? {
      ReturnConserves(step, m4, ledger);
      var m5 := ReturnAll(step, m4, ledger).0;
      assert m5.trace[|m3.trace|] == m4.trace[|m3.trace|];
    }
  }

  /** What the backend handed over, respectively took back, between two points of a run. */
  ghost function Got<S, E>(m: Machine<S, E>, m': Machine<S, E>): Ledger
    requires Obtained(m.trace) <= Obtained(m'.trace)
  {
    Obtained(m'.trace)[|Obtained(m.trace)|..]
  }

  ghost function GaveBack<S, E>(m: Machine<S, E>, m': Machine<S, E>): Ledger
    requires TakenBack(m.trace) <= TakenBack(m'.trace)
  {
    TakenBack(m'.trace)[|TakenBack(m.trace)|..]
  }

  ghost predicate Later<S, E>(m: Machine<S, E>, m': Machine<S, E>) {
    && Extends(m, m')
    && Obtained(m.trace) <= Obtained(m'.trace) && TakenBack(m.trace) <= TakenBack(m'.trace)
  }

  lemma NothingReturned<E>(trace: seq<Event<E>>)
    ensures ReturnsVerified(trace, |trace|, [])
  {
  }

  /** Unwinding everything obtained since `m`. */
  lemma UnwindFrom<S, E>(step: Backend<S, E>, m: Machine<S, E>, m1: Machine<S, E>, ledger: Ledger, links: nat)
    requires (links > 0 ==> Complete(ledger)) && links <= |BUILD_LINKS|
    requires Extends(m, m1) && NoReturns(m1.trace, |m.trace|)
    requires Obtained(m1.trace) == Obtained(m.trace) + ledger && TakenBack(m1.trace) == TakenBack(m.trace)
    ensures var (m', kept, error) := Unwind(step, m1, ledger, links);
            && Later(m, m') && Got(m, m') == ledger && kept <= ledger
            && GaveBack(m, m') == Reverse(ledger[|kept|..])
            && ReturnsVerified(m'.trace, |m.trace|, ledger)
            && (error.None? ==> kept == [])
  {
    hide Obtained, TakenBack, Complete, Unwind, Reverse;
    UnwindConserves(step, m1, ledger, links);
    var m' := Unwind(step, m1, ledger, links).0;
    forall k | |m.trace| <= k < |m1.trace| ensures !m'.trace[k].call.ReturnFrame? {
      assert m'.trace[k] == m1.trace[k];
    }
  }

  /**
   Construction over any backend conserves ownership: a finished owner holds exactly what was
   obtained and nothing went back; a failure retains a prefix of it, the rest went back newest
   first, and only behind a granted check that named everything obtained.
   */
  lemma ConstructConserves<S, E>(step: Backend<S, E>, m: Machine<S, E>, generation: u64)
    ensures var (m', r) := Construct(step, m, generation);
            && Later(m, m')
            && match r {
                 case Built(owner) => owner.ledger == Got(m, m') && GaveBack(m, m') == []
                 case BuildFailed(_, rollbackError, retained) =>
                   && retained <= Got(m, m')
                   && GaveBack(m, m') == Reverse(Got(m, m')[|retained|..])
                   && ReturnsVerified(m'.trace, |m.trace|, Got(m, m'))
                   && (rollbackError.None? ==> retained == [])
               }
  {
    hide Obtained, TakenBack, Invoke, Complete, AllocateAll, InstallAll, Unwind, FrameFor, ReturnsVerified;
    if generation == 0 {
      NothingReturned(m.trace);
    } else {
      AllocateConserves(step, m, generation, 0, []);
      var (m1, ledger, failure) := AllocateAll(step, m, generation, 0, []);
      assert ledger[0..] == ledger;
      if failure.Some? {
        UnwindFrom(step, m, m1, ledger, 0);
      } else {
        FullIsComplete(ledger);
        InstallConserves(step, m1, ledger, 0);
        var (m2, links, refused) := InstallAll(step, m1, ledger, 0);
        if refused.Some? { UnwindFrom(step, m, m2, ledger, links); }
      }
    }
  }

  /** Teardown over any backend: what the owner held is what it still holds and what went back. */
  lemma TeardownConserves<S, E>(step: Backend<S, E>, m: Machine<S, E>, owner: Owner)
    requires owner.state == Inactive && owner.live ==> Published(owner)
    ensures var (m', r) := Teardown(step, m, owner);
            && Later(m, m') && Got(m, m') == []
            && match r {
                 case OwnerRefused(_, kept) => m' == m && kept == owner && (owner.state != Inactive || !owner.live)
                 case TornDown(dead) =>
                   && dead.ledger == [] && GaveBack(m, m') == Reverse(owner.ledger)
                   && ReturnsVerified(m'.trace, |m.trace|, owner.ledger)
                   && dead == Owner(owner.generation, false, Dead, None, [])
                 case BackendRefused(_, stale) =>
                   && stale.ledger <= owner.ledger
                   && GaveBack(m, m') == Reverse(owner.ledger[|stale.ledger|..])
                   && ReturnsVerified(m'.trace, |m.trace|, owner.ledger)
                   && stale == owner.(live := false, ledger := stale.ledger)
               }
  {
    hide Obtained, TakenBack, Complete, Unwind, Reverse, ReturnsVerified, FrameFor;
    if owner.state == Inactive && owner.live {
      FullIsComplete(owner.ledger);
      UnwindConserves(step, m, owner.ledger, |BUILD_LINKS|);
      assert owner.ledger[0..] == owner.ledger;
    }
  }

  /**
   A failed pair keeps or returns every frame of both owners, the second's first, and the
   finished first owner is always torn down rather than refused.
   */
  lemma PairConserves<S, E>(step: Backend<S, E>, m: Machine<S, E>, g1: u64, g2: u64)
    ensures var (m', r) := ConstructPair(step, m, g1, g2);
            && Later(m, m')
            && match r {
                 case BuiltPair(first, second) =>
                   Got(m, m') == first.ledger + second.ledger && GaveBack(m, m') == []
                 case FirstFailed(failure) =>
                   && failure.BuildFailed? && failure.retained <= Got(m, m')
                   && GaveBack(m, m') == Reverse(Got(m, m')[|failure.retained|..])
                 case SecondFailed(failure, torn) =>
                   && failure.BuildFailed? && !torn.OwnerRefused?
                   && var left := if torn.TornDown? then [] else torn.stale.ledger;
                      |Got(m, m')| >= |ALL_ROLES|
                      && var l1, l2 := Got(m, m')[..|ALL_ROLES|], Got(m, m')[|ALL_ROLES|..];
                         && left <= l1 && failure.retained <= l2
                         && GaveBack(m, m') == Reverse(l2[|failure.retained|..]) + Reverse(l1[|left|..])
               }
  {
    hide Obtained, TakenBack, Complete, Construct, Teardown, Reverse, ReturnsVerified, FrameFor;
    ConstructConserves(step, m, g1);
    var (m1, first) := Construct(step, m, g1);
    if first.Built? {
      ConstructConserves(step, m1, g2);
      var (m2, second) := Construct(step, m1, g2);
      if second.BuildFailed? {
        BuiltIsPublished(step, m, g1);
        TeardownConserves(step, m2, first.owner);
        var (m3, torn) := Teardown(step, m2, first.owner);
        PairSplit(m, m1, m2, m3);
        assert Got(m, m3)[..|ALL_ROLES|] == first.owner.ledger;
        assert Got(m, m3)[|ALL_ROLES|..] == Got(m1, m2);
        assert first.owner.ledger[0..] == first.owner.ledger;
      } else {
        PairSplit(m, m1, m2, m2);
      }
    }
  }

  lemma PairSplit<S, E>(m: Machine<S, E>, m1: Machine<S, E>, m2: Machine<S, E>, m3: Machine<S, E>)
    requires Later(m, m1) && Later(m1, m2) && Later(m2, m3)
    ensures Later(m, m3) && Got(m, m3) == Got(m, m1) + Got(m1, m2) + Got(m2, m3)
    ensures GaveBack(m, m3) == GaveBack(m, m1) + GaveBack(m1, m2) + GaveBack(m2, m3)
  {
    hide Obtained, TakenBack;
  }

  // Tokens and the life of an owner ----------------------------------------------------------------

  const USER_MAPPINGS: seq<int> := [USER_TEXT, USER_STACK]

  datatype MappingToken = MappingToken(generation: u64, address: u64)

  predicate Stale(owner: Owner) { !owner.live || owner.state == Dead }

  predicate TokenAddress(address: u64) { address % PAGE_SIZE == 0 && address in USER_MAPPINGS }

  function MintToken(owner: Owner, address: u64): Result<MappingToken, OwnerError> {
    if Stale(owner) then Err(StaleOwner)
    else if !TokenAddress(address) then Err(InvalidTokenAddress)
    else Ok(MappingToken(owner.generation, address))
  }

  /** A token passes exactly when the owner would mint that very token. */
  function ValidateToken(owner: Owner, token: MappingToken): (r: Outcome<OwnerError>)
    ensures r.Pass? <==> MintToken(owner, token.address) == Ok(token)
  {
    if Stale(owner) then Fail(StaleOwner)
    else if token.generation != owner.generation then Fail(StaleToken)
    else if !TokenAddress(token.address) then Fail(InvalidTokenAddress)
    else Pass
  }

  function Activate(owner: Owner): (Owner, Outcome<OwnerError>) {
    if owner.state != Inactive || !owner.live then (owner, Fail(WrongState)) else (owner.(state := Active), Pass)
  }

  function Recover(owner: Owner): (Owner, Outcome<OwnerError>) {
    if owner.state != Active || !owner.live then (owner, Fail(WrongState)) else (owner.(state := Inactive), Pass)
  }

  datatype Act = ActivateAct | RecoverAct | MintAct(address: u64) | CheckAct(token: MappingToken) | TeardownAct

  /** What every published owner keeps: while it is live it holds its whole plan. */
  predicate OwnerInv(owner: Owner) {
    owner.live ==> Published(owner) && (owner.state == Inactive || owner.state == Active)
  }

  /** One use of an owner; the last component says whether it was refused. */
  function ApplyAct<S, E>(step: Backend<S, E>, m: Machine<S, E>, owner: Owner, act: Act):
    (r: (Machine<S, E>, Owner, bool))
    requires OwnerInv(owner)
    ensures OwnerInv(r.1) && r.1.generation == owner.generation
    ensures !owner.live ==> r == (m, owner, true)
  {
    match act
    case ActivateAct => var (o, done) := Activate(owner); (m, o, done.Fail?)
    case RecoverAct => var (o, done) := Recover(owner); (m, o, done.Fail?)
    case MintAct(address) => (m, owner, MintToken(owner, address).Err?)
    case CheckAct(token) => (m, owner, ValidateToken(owner, token).Fail?)
    case TeardownAct =>
      var (m', torn) := Teardown(step, m, owner);
      match torn
      case TornDown(dead) => (m', dead, false)
      case OwnerRefused(_, kept) => (m', kept, true)
      case BackendRefused(_, stale) => (m', stale, true)
  }

  function UseOwner<S, E>(step: Backend<S, E>, m: Machine<S, E>, owner: Owner, acts: seq<Act>):
    (r: (Machine<S, E>, Owner, seq<bool>))
    requires OwnerInv(owner)
    ensures OwnerInv(r.1) && r.1.generation == owner.generation && |r.2| == |acts|
    decreases |acts|
  {
    if acts == [] then (m, owner, [])
    else
      var (m1, o1, refused) := ApplyAct(step, m, owner, acts[0]);
      var (m2, o2, rest) := UseOwner(step, m1, o1, acts[1..]);
      (m2, o2, [refused] + rest)
  }

  /** Once dead, an owner refuses every further use, whatever is asked, and never calls the backend. */
  lemma {:induction false} DeadStaysRefused<S, E>(step: Backend<S, E>, m: Machine<S, E>, owner: Owner, acts: seq<Act>)
    requires !owner.live
    ensures var (m', o', refused) := UseOwner(step, m, owner, acts);
            m' == m && o' == owner && forall k :: 0 <= k < |acts| ==> refused[k]
    decreases |acts|
  {
    if acts != [] {
      DeadStaysRefused(step, m, owner, acts[1..]);
    }
  }

  /**
   A teardown that was admitted, finished or failed, ends the owner: no later sequence of uses
   activates it, tears it down, mints or accepts a token, or touches the backend.
   */
  lemma {:induction false} TornDownIsFinal<S, E>(step: Backend<S, E>, m: Machine<S, E>, owner: Owner, acts: seq<Act>)
    requires OwnerInv(owner) && owner.live && owner.state == Inactive
    ensures var (m1, o1, _) := ApplyAct(step, m, owner, TeardownAct);
            && o1.ledger <= owner.ledger && (forall token :: ValidateToken(o1, token) == Fail(StaleOwner))
            && var (m2, o2, refused) := UseOwner(step, m1, o1, acts);
               m2 == m1 && o2 == o1 && forall k :: 0 <= k < |acts| ==> refused[k]
  {
    hide UseOwner, Unwind, Published, FrameFor;
    TeardownConserves(step, m, owner);
    var (m1, o1, _) := ApplyAct(step, m, owner, TeardownAct);
    DeadStaysRefused(step, m1, o1, acts);
  }

  /** Through any uses, a token minted earlier is accepted exactly as long as the owner lives. */
  lemma {:induction false} TokenLifetime<S, E>(
    step: Backend<S, E>, m: Machine<S, E>, owner: Owner, acts: seq<Act>, address: u64, token: MappingToken)
    requires OwnerInv(owner) && MintToken(owner, address) == Ok(token)
    ensures var o := UseOwner(step, m, owner, acts).1;
            ValidateToken(o, token).Pass? <==> o.live
  {
    hide UseOwner, Published;
  }
}
