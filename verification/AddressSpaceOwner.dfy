/**
 Address-space owners as the crate keeps them: a fixed ledger array with a length, an owner
 whose state changes in place, and the construction, rollback and teardown loops over a
 mutable backend, each proved equal to the functions of module AddressSpace.
 */
module AddressSpaceOwners {
  import opened Words
  import A = AddressSpace
  import opened AddressSpace

  const EMPTY_FRAME: OwnedFrame := OwnedFrame(Root, 0)

  class FrameLedger {
    const frames: array<OwnedFrame>
    var len: nat

    ghost predicate Valid()
      reads this
    {
      frames.Length == LEDGER_CAPACITY && len <= LEDGER_CAPACITY
    }

    ghost function Contents(): Ledger
      requires Valid()
      reads this, frames
    {
      frames[..len]
    }

    constructor ()
      ensures Valid() && Contents() == [] && fresh(frames)
    {
      frames := new OwnedFrame[LEDGER_CAPACITY](_ => EMPTY_FRAME);
      len := 0;
    }

    method PushOwned(frame: OwnedFrame) returns (pushed: Outcome<OwnerError>)
      requires Valid()
      modifies this`len, frames
      ensures Valid()
      ensures if old(len) == LEDGER_CAPACITY then pushed == Fail(LedgerFull) && Contents() == old(Contents())
              else pushed == Pass && Contents() == old(Contents()) + [frame]
    {
      if len == LEDGER_CAPACITY {
        return Fail(LedgerFull);
      }
      frames[len] := frame;
      len := len + 1;
      return Pass;
    }

    method ValidateLatest() returns (valid: Outcome<OwnerError>)
      requires Valid()
      ensures valid == A.ValidateLatest(Contents())
    {
      if len == 0 {
        return Pass;
      }
      var n := len - 1;
      if frames[n].start % PAGE_SIZE != 0 {
        return Fail(InvalidFrame);
      }
      var i := 0;
      while i < n
        invariant 0 <= i <= n
        invariant forall j :: 0 <= j < i ==> frames[j].start != frames[n].start && frames[j].role != frames[n].role
      {
        if frames[i].start == frames[n].start || frames[i].role == frames[n].role {
          assert Contents()[i] == frames[i];
          return Fail(DuplicateFrame);
        }
        i := i + 1;
      }
      return Pass;
    }

    method Pop() returns (popped: Option<OwnedFrame>)
      requires Valid()
      modifies this`len, frames
      ensures Valid()
      ensures match popped
              case None => old(Contents()) == [] && Contents() == []
              case Some(frame) => old(Contents()) == Contents() + [frame]
    {
      if len == 0 {
        return None;
      }
      len := len - 1;
      var frame := frames[len];
      frames[len] := EMPTY_FRAME;
      return Some(frame);
    }

    method FrameFor(role: FrameRole) returns (found: Option<u64>)
      requires Valid()
      ensures found == A.FrameFor(Contents(), role)
    {
      var i := 0;
      ghost var contents := Contents();
      while i < len
        invariant 0 <= i <= len
        invariant A.FrameFor(contents, role) == A.FrameFor(contents[i..], role)
      {
        assert contents[i] == frames[i] && contents[i..][1..] == contents[i + 1..];
        if frames[i].role == role {
          return Some(frames[i].start);
        }
        i := i + 1;
      }
      return None;
    }
  }

  /** A mutable backend: any step function, its state, and the trace of its calls. */
  class Device<S, E> {
    const step: Backend<S, E>
    var machine: Machine<S, E>

    constructor (step: Backend<S, E>, machine: Machine<S, E>)
      ensures this.step == step && this.machine == machine
    {
      this.step := step;
      this.machine := machine;
    }

    method Call(call: Call) returns (reply: Reply<E>)
      modifies this
      ensures (machine, reply) == Invoke(step, old(machine), call)
    {
      var (m, r) := Invoke(step, machine, call);
      machine := m;
      return r;
    }
  }

  class AddressSpaceOwner {
    var generation: u64
    var live: bool
    var state: LifecycleState
    var root: Option<u64>
    const ledger: FrameLedger

    ghost predicate Valid()
      reads this, ledger
    {
      ledger.Valid()
    }

    ghost function Value(): Owner
      requires Valid()
      reads this, ledger, ledger.frames
    {
      Owner(generation, live, state, root, ledger.Contents())
    }

    constructor Begin(generation: u64)
      ensures Valid() && Value() == Owner(generation, true, Building, None, [])
      ensures fresh(ledger) && fresh(ledger.frames)
    {
      this.generation := generation;
      live := true;
      state := Building;
      root := None;
      ledger := new FrameLedger();
    }

    method RecordFrame(frame: OwnedFrame) returns (recorded: Outcome<OwnerError>)
      requires Valid()
      modifies ledger`len, ledger.frames
      ensures Valid()
      ensures if state != Building || !live then recorded == Fail(WrongState) && Value() == old(Value())
              else
                var (ledger', r) := A.RecordFrame(old(ledger.Contents()), frame);
                recorded == r && Value() == old(Value()).(ledger := ledger')
    {
      if state != Building || !live {
        return Fail(WrongState);
      }
      recorded := ledger.PushOwned(frame);
      if recorded.Pass? {
        recorded := ledger.ValidateLatest();
      }
    }

    method Publish(root: u64) returns (published: Outcome<OwnerError>)
      requires Valid()
      modifies this`root, this`state
      ensures Valid()
      ensures published.Pass? <==>
                && old(state) == Building && live && A.FrameFor(ledger.Contents(), Root) == Some(root)
                && |ledger.Contents()| == |ALL_ROLES|
      ensures published.Fail? ==>
                published.error == if old(state) != Building || !live then WrongState else RootNotOwned
      ensures Value() == if published.Pass? then old(Value()).(root := Some(root), state := Inactive) else old(Value())
    {
      if state != Building || !live {
        return Fail(WrongState);
      }
      var owned := ledger.FrameFor(Root);
      if owned != Some(root) || ledger.len != |ALL_ROLES| {
        return Fail(RootNotOwned);
      }
      this.root := Some(root);
      state := Inactive;
      return Pass;
    }

    method Activate() returns (done: Outcome<OwnerError>)
      requires Valid()
      modifies this`state
      ensures Valid() && (Value(), done) == A.Activate(old(Value()))
    {
      if state != Inactive || !live {
        return Fail(WrongState);
      }
      state := Active;
      return Pass;
    }

    method Recover() returns (done: Outcome<OwnerError>)
      requires Valid()
      modifies this`state
      ensures Valid() && (Value(), done) == A.Recover(old(Value()))
    {
      if state != Active || !live {
        return Fail(WrongState);
      }
      state := Inactive;
      return Pass;
    }
  }

  /** Minting and checking read the owner only. */
  method MappingToken(owner: AddressSpaceOwner, address: u64) returns (token: Result<A.MappingToken, OwnerError>)
    requires owner.Valid()
    ensures token == MintToken(owner.Value(), address)
  {
    if !owner.live || owner.state == Dead {
      return Err(StaleOwner);
    }
    if address % PAGE_SIZE != 0 || (address != USER_MAPPINGS[0] && address != USER_MAPPINGS[1]) {
      return Err(InvalidTokenAddress);
    }
    return Ok(A.MappingToken(owner.generation, address));
  }

  method CheckToken(owner: AddressSpaceOwner, token: A.MappingToken) returns (valid: Outcome<OwnerError>)
    requires owner.Valid()
    ensures valid == ValidateToken(owner.Value(), token)
  {
    if !owner.live || owner.state == Dead {
      return Fail(StaleOwner);
    }
    if token.generation != owner.generation {
      return Fail(StaleToken);
    }
    if token.address % PAGE_SIZE != 0 || (token.address != USER_MAPPINGS[0] && token.address != USER_MAPPINGS[1]) {
      return Fail(InvalidTokenAddress);
    }
    return Pass;
  }

  // Loops over a backend -------------------------------------------------------------------------------

  /** Removes the first `links` links, last first. */
  method RemoveLinks<S, E>(owner: AddressSpaceOwner, links: nat, device: Device<S, E>) returns (error: Option<E>)
    requires owner.Valid() && links <= |BUILD_LINKS| && (links > 0 ==> Complete(owner.ledger.Contents()))
    modifies device
    ensures (device.machine, error) == RemoveAll(device.step, old(device.machine), owner.ledger.Contents(), links)
  {
    hide Complete, Invoke;
    ghost var ledger := owner.ledger.Contents();
    var k := links;
    while k > 0
      invariant 0 <= k <= links
      invariant owner.Valid() && owner.ledger.Contents() == ledger
      invariant RemoveAll(device.step, device.machine, ledger, k)
             == RemoveAll(device.step, old(device.machine), ledger, links)
    {
      var link := BUILD_LINKS[k - 1];
      var parent := owner.ledger.FrameFor(link.parent);
      var child := owner.ledger.FrameFor(link.child);
      BothFound(ledger, link);
      var reply := device.Call(RemoveLink(link, parent.value, child.value));
      if reply.Refused? {
        return Some(reply.error);
      }
      k := k - 1;
    }
    return None;
  }

  lemma {:induction false} BothFound(ledger: Ledger, link: LinkSpec)
    requires Complete(ledger)
    ensures A.FrameFor(ledger, link.parent).Some? && A.FrameFor(ledger, link.child).Some?
  {
  }

  /** Returns frames newest first, dropping each from the ledger only once it is taken. */
  method ReturnFrames<S, E>(owner: AddressSpaceOwner, device: Device<S, E>) returns (error: Option<E>)
    requires owner.Valid()
    modifies device, owner.ledger`len, owner.ledger.frames
    ensures owner.Valid()
    ensures (device.machine, owner.ledger.Contents(), error)
         == ReturnAll(device.step, old(device.machine), old(owner.ledger.Contents()))
  {
    hide Invoke;
    while owner.ledger.len > 0
      invariant owner.Valid()
      invariant ReturnAll(device.step, device.machine, owner.ledger.Contents())
             == ReturnAll(device.step, old(device.machine), old(owner.ledger.Contents()))
      decreases owner.ledger.len
    {
      ghost var contents := owner.ledger.Contents();
      var frame := owner.ledger.frames[owner.ledger.len - 1];
      var reply := device.Call(ReturnFrame(frame));
      if reply.Refused? {
        return Some(reply.error);
      }
      var popped := owner.ledger.Pop();
      assert owner.ledger.Contents() == contents[..|contents| - 1];
    }
    return None;
  }

  /** Unlinks, clears, checks, and only then returns frames. */
  method UnwindFrames<S, E>(owner: AddressSpaceOwner, links: nat, device: Device<S, E>) returns (error: Option<E>)
    requires owner.Valid() && links <= |BUILD_LINKS| && (links > 0 ==> Complete(owner.ledger.Contents()))
    modifies device, owner.ledger`len, owner.ledger.frames
    ensures owner.Valid()
    ensures (device.machine, owner.ledger.Contents(), error)
         == Unwind(device.step, old(device.machine), old(owner.ledger.Contents()), links)
  {
    hide Complete, Invoke, RemoveAll, ReturnAll;
    error := RemoveLinks(owner, links, device);
    if error.Some? {
      return;
    }
    var root := owner.ledger.FrameFor(Root);
    if root.Some? {
      var cleared := device.Call(ClearSharedEntries(root.value));
      if cleared.Refused? {
        return Some(cleared.error);
      }
    }
    var window := device.Call(ClearTemporaryWindow);
    if window.Refused? {
      return Some(window.error);
    }
    var verified := device.Call(VerifyUnreachable(owner.ledger.frames[..owner.ledger.len]));
    if verified.Refused? {
      return Some(verified.error);
    }
    error := ReturnFrames(owner, device);
  }

  /** Rolls a build back; only a completed rollback ends the owner. */
  method RollbackBuild<S, E>(cause: BuildCause<E>, owner: AddressSpaceOwner, links: nat, device: Device<S, E>)
    returns (failure: BuildResult<E>)
    requires owner.Valid() && links <= |BUILD_LINKS| && (links > 0 ==> Complete(owner.ledger.Contents()))
    modifies device, owner, owner.ledger`len, owner.ledger.frames
    ensures owner.Valid() && failure.BuildFailed?
    ensures (device.machine, failure)
         == RollBack(device.step, old(device.machine), cause, old(owner.ledger.Contents()), links)
    ensures owner.Value()
         == if failure.rollbackError.None? then Owner(old(owner.generation), false, Dead, None, failure.retained)
            else old(owner.Value()).(ledger := failure.retained)
  {
    hide Complete, Unwind;
    var error := UnwindFrames(owner, links, device);
    if error.None? {
      owner.live := false;
      owner.root := None;
      owner.state := Dead;
    }
    return BuildFailed(cause, error, owner.ledger.frames[..owner.ledger.len]);
  }

  /** Allocates, records and prepares every role in plan order. */
  method AllocateRoles<S, E>(owner: AddressSpaceOwner, device: Device<S, E>) returns (failure: Option<BuildCause<E>>)
    requires owner.Valid() && owner.state == Building && owner.live && owner.ledger.Contents() == []
    modifies device, owner.ledger`len, owner.ledger.frames
    ensures owner.Valid()
    ensures (device.machine, owner.ledger.Contents(), failure)
         == AllocateAll(device.step, old(device.machine), owner.generation, 0, [])
  {
    hide Invoke, A.RecordFrame;
    var i := 0;
    while i < |ALL_ROLES|
      invariant 0 <= i <= |ALL_ROLES|
      invariant owner.Valid()
      invariant InPlanOrder(owner.ledger.Contents()) && |owner.ledger.Contents()| == i
      invariant AllocateAll(device.step, device.machine, owner.generation, i, owner.ledger.Contents())
             == AllocateAll(device.step, old(device.machine), owner.generation, 0, [])
    {
      var role := ALL_ROLES[i];
      var frame := device.Call(AllocateFrame(role));
      if frame.Refused? {
        return Some(BackendCause(frame.error));
      }
      ghost var before := owner.ledger.Contents();
      var recorded := owner.RecordFrame(OwnedFrame(role, frame.value));
      if recorded.Fail? {
        return Some(OwnerCause(recorded.error));
      }
      RecordAppends(before, OwnedFrame(role, frame.value));
      var prepared := device.Call(PrepareFrame(owner.generation, role, frame.value));
      if prepared.Refused? {
        return Some(BackendCause(prepared.error));
      }
      i := i + 1;
    }
    return None;
  }

  lemma RecordAppends(ledger: Ledger, frame: OwnedFrame)
    ensures A.RecordFrame(ledger, frame).1.Pass? ==> A.RecordFrame(ledger, frame).0 == ledger + [frame]
  {
  }

  method InstallLinks<S, E>(owner: AddressSpaceOwner, device: Device<S, E>) returns (installed: nat, error: Option<E>)
    requires owner.Valid() && Complete(owner.ledger.Contents())
    modifies device
    ensures (device.machine, installed, error)
            == InstallAll(device.step, old(device.machine), owner.ledger.Contents(), 0)
  {
    hide Complete, Invoke;
    ghost var ledger := owner.ledger.Contents();
    installed := 0;
    while installed < |BUILD_LINKS|
      invariant 0 <= installed <= |BUILD_LINKS|
      invariant owner.Valid() && owner.ledger.Contents() == ledger
      invariant InstallAll(device.step, device.machine, ledger, installed)
             == InstallAll(device.step, old(device.machine), ledger, 0)
    {
      var link := BUILD_LINKS[installed];
      var parent := owner.ledger.FrameFor(link.parent);
      var child := owner.ledger.FrameFor(link.child);
      BothFound(ledger, link);
      var reply := device.Call(InstallLink(link, parent.value, child.value));
      if reply.Refused? {
        return installed, Some(reply.error);
      }
      installed := installed + 1;
    }
    return installed, None;
  }

  /** Construction as the crate runs it is the function Construct; a finished owner is handed out. */
  method ConstructAddressSpace<S, E>(generation: u64, device: Device<S, E>)
    returns (result: BuildResult<E>, owner: AddressSpaceOwner?)
    modifies device
    ensures (device.machine, result) == Construct(device.step, old(device.machine), generation)
    ensures result.Built? ==> owner != null && fresh(owner) && fresh(owner.ledger) && fresh(owner.ledger.frames)
                              && owner.Valid() && owner.Value() == result.owner
  {
    hide Complete, AllocateAll, InstallAll, Unwind, A.FrameFor;
    if generation == 0 {
      return BuildFailed(OwnerCause(InvalidGeneration), None, []), null;
    }
    var building := new AddressSpaceOwner.Begin(generation);
    var failure := AllocateRoles(building, device);
    if failure.Some? {
      result := RollbackBuild(failure.value, building, 0, device);
      return result, null;
    }
    FullIsComplete(building.ledger.Contents());
    var installed, refused := InstallLinks(building, device);
    if refused.Some? {
      result := RollbackBuild(BackendCause(refused.value), building, installed, device);
      return result, null;
    }
    var root := building.ledger.FrameFor(Root);
    var published := building.Publish(root.value);
    assert published.Pass?;
    return Built(Owner(generation, true, Inactive, root, building.ledger.frames[..building.ledger.len])), building;
  }

  /** A checked teardown is the function Teardown; the generation dies before anything is undone. */
  method TeardownChecked<S, E>(owner: AddressSpaceOwner, device: Device<S, E>) returns (result: TeardownResult<E>)
    requires owner.Valid() && (owner.state == Inactive && owner.live ==> Published(owner.Value()))
    modifies device, owner, owner.ledger`len, owner.ledger.frames
    ensures owner.Valid()
    ensures (device.machine, result) == Teardown(device.step, old(device.machine), old(owner.Value()))
    ensures owner.Value() == match result
                             case TornDown(dead) => dead
                             case OwnerRefused(_, kept) => kept
                             case BackendRefused(_, stale) => stale
  {
    hide Complete, Unwind, A.FrameFor;
    if owner.state != Inactive || !owner.live {
      return OwnerRefused(
          WrongState,
          Owner(owner.generation, owner.live, owner.state, owner.root, owner.ledger.frames[..owner.ledger.len]));
    }
    FullIsComplete(owner.ledger.Contents());
    owner.live := false;
    var error := UnwindFrames(owner, |BUILD_LINKS|, device);
    if error.Some? {
      return BackendRefused(
          error.value,
          Owner(owner.generation, owner.live, owner.state, owner.root, owner.ledger.frames[..owner.ledger.len]));
    }
    owner.root := None;
    owner.state := Dead;
    return TornDown(Owner(owner.generation, owner.live, owner.state, None, owner.ledger.frames[..owner.ledger.len]));
  }

  method ConstructAddressSpacePair<S, E>(g1: u64, g2: u64, device: Device<S, E>)
    returns (result: PairResult<E>, first: AddressSpaceOwner?, second: AddressSpaceOwner?)
    modifies device
    ensures (device.machine, result) == ConstructPair(device.step, old(device.machine), g1, g2)
    ensures result.BuiltPair? ==>
              && first != null && fresh(first) && first.Valid() && first.Value() == result.first
              && second != null && fresh(second) && second.Valid() && second.Value() == result.second
  {
    hide Construct, Teardown;
    var r1, o1 := ConstructAddressSpace(g1, device);
    if r1.BuildFailed? {
      return FirstFailed(r1), null, null;
    }
    ghost var m1 := device.machine;
    BuiltIsPublished(device.step, old(device.machine), g1);
    var r2, o2 := ConstructAddressSpace(g2, device);
    if r2.Built? {
      return BuiltPair(r1.owner, r2.owner), o1, o2;
    }
    var torn := TeardownChecked(o1, device);
    return SecondFailed(r2, torn), null, null;
  }
}
