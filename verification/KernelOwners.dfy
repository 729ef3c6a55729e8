/**
 Tearing an owner down in the kernel: the unlink and return loops over the memory object itself.
 The machine they thread through is a ghost: it adds the trace of calls to the memory's value.
 */
module KernelOwners {
  import opened Words
  import opened PageTables
  import A = AddressSpace
  import opened AddressSpace
  import opened AddressSpaceOwners
  import opened KernelBackend
  import opened KernelMemory

  /** The owner and the memory share nothing. */
  ghost predicate Separate(owner: AddressSpaceOwner, memory: PhysicalMemory) {
    {owner, owner.ledger, owner.ledger.frames} !! memory.Parts()
  }

  /** One call, with the machine that records it. */
  method Call(memory: PhysicalMemory, call: Call, ghost m: KernelMachine)
    returns (reply: Done, ghost m': KernelMachine)
    requires memory.allocator.Shape() && memory.Value() == m.state
    modifies memory`window, memory`memory, memory.allocator`freeLen, memory.allocator.free
    ensures memory.allocator.Shape() && memory.Value() == m'.state && (m', reply) == Invoke(Step, m, call)
  {
    hide Step;
    m' := Invoke(Step, m, call).0;
    reply := memory.Serve(call);
  }

  /** Removes the first `links` links, last first. */
  method RemoveLinks(owner: AddressSpaceOwner, links: nat, memory: PhysicalMemory, ghost m: KernelMachine)
    returns (error: Option<IsolationError>, ghost m': KernelMachine)
    requires owner.Valid() && links <= |BUILD_LINKS| && (links > 0 ==> Complete(owner.ledger.Contents()))
    requires memory.allocator.Shape() && memory.Value() == m.state && Separate(owner, memory)
    modifies memory`window, memory`memory, memory.allocator`freeLen, memory.allocator.free
    ensures memory.allocator.Shape() && memory.Value() == m'.state
    ensures (m', error) == RemoveAll(Step, m, owner.ledger.Contents(), links)
  {
    hide Complete, Invoke, Step;
    ghost var ledger := owner.ledger.Contents();
    var k := links;
    m' := m;
    while k > 0
      invariant 0 <= k <= links
      invariant owner.Valid() && owner.ledger.Contents() == ledger
      invariant memory.allocator.Shape() && memory.Value() == m'.state
      invariant RemoveAll(Step, m', ledger, k) == RemoveAll(Step, m, ledger, links)
    {
      var link := BUILD_LINKS[k - 1];
      var parent := owner.ledger.FrameFor(link.parent);
      var child := owner.ledger.FrameFor(link.child);
      BothFound(ledger, link);
      var reply;
      reply, m' := Call(memory, RemoveLink(link, parent.value, child.value), m');
      if reply.Refused? {
        return Some(reply.error), m';
      }
      k := k - 1;
    }
    return None, m';
  }

  /** Returns frames newest first, dropping each from the ledger only once it is taken. */
  method ReturnFrames(owner: AddressSpaceOwner, memory: PhysicalMemory, ghost m: KernelMachine)
    returns (error: Option<IsolationError>, ghost m': KernelMachine)
    requires owner.Valid() && memory.allocator.Shape() && memory.Value() == m.state && Separate(owner, memory)
    modifies memory`window, memory`memory, memory.allocator`freeLen, memory.allocator.free
    modifies owner.ledger`len, owner.ledger.frames
    ensures owner.Valid() && memory.allocator.Shape() && memory.Value() == m'.state
    ensures (m', owner.ledger.Contents(), error) == ReturnAll(Step, m, old(owner.ledger.Contents()))
  {
    hide Invoke, Step;
    m' := m;
    while owner.ledger.len > 0
      invariant owner.Valid() && memory.allocator.Shape() && memory.Value() == m'.state
      invariant ReturnAll(Step, m', owner.ledger.Contents()) == ReturnAll(Step, m, old(owner.ledger.Contents()))
      decreases owner.ledger.len
    {
      ghost var contents := owner.ledger.Contents();
      var frame := owner.ledger.frames[owner.ledger.len - 1];
      var reply;
      reply, m' := Call(memory, ReturnFrame(frame), m');
      if reply.Refused? {
        return Some(reply.error), m';
      }
      var popped := owner.ledger.Pop();
      assert owner.ledger.Contents() == contents[..|contents| - 1];
    }
    return None, m';
  }

  /** Unlinks, clears, checks, and only then returns frames. */
  method UnwindFrames(owner: AddressSpaceOwner, links: nat, memory: PhysicalMemory, ghost m: KernelMachine)
    returns (error: Option<IsolationError>, ghost m': KernelMachine)
    requires owner.Valid() && links <= |BUILD_LINKS| && (links > 0 ==> Complete(owner.ledger.Contents()))
    requires memory.allocator.Shape() && memory.Value() == m.state && Separate(owner, memory)
    modifies memory`window, memory`memory, memory.allocator`freeLen, memory.allocator.free
    modifies owner.ledger`len, owner.ledger.frames
    ensures owner.Valid() && memory.allocator.Shape() && memory.Value() == m'.state
    ensures (m', owner.ledger.Contents(), error) == Unwind(Step, m, old(owner.ledger.Contents()), links)
  {
    hide Complete, Invoke, RemoveAll, ReturnAll, Step;
    var reply;
    error, m' := RemoveLinks(owner, links, memory, m);
    if error.Some? {
      return;
    }
    var root := owner.ledger.FrameFor(Root);
    if root.Some? {
      reply, m' := Call(memory, ClearSharedEntries(root.value), m');
      if reply.Refused? {
        return Some(reply.error), m';
      }
    }
    reply, m' := Call(memory, ClearTemporaryWindow, m');
    if reply.Refused? {
      return Some(reply.error), m';
    }
    reply, m' := Call(memory, VerifyUnreachable(owner.ledger.frames[..owner.ledger.len]), m');
    if reply.Refused? {
      return Some(reply.error), m';
    }
    error, m' := ReturnFrames(owner, memory, m');
  }

  /** A checked teardown in kernel memory is the function Teardown over the kernel backend. */
  method TeardownInKernel(owner: AddressSpaceOwner, memory: PhysicalMemory)
    returns (torn: bool)
    requires owner.Valid() && (owner.state == Inactive && owner.live ==> Published(owner.Value()))
    requires memory.allocator.Shape() && Separate(owner, memory)
    modifies memory`window, memory`memory, memory.allocator`freeLen, memory.allocator.free
    modifies owner, owner.ledger`len, owner.ledger.frames
    ensures owner.Valid() && memory.allocator.Shape()
    ensures var (m, result) := Teardown(Step, Machine(old(memory.Value()), []), old(owner.Value()));
            && memory.Value() == m.state && (torn <==> result.TornDown?)
            && owner.Value() == match result
                                case TornDown(dead) => dead
                                case OwnerRefused(_, kept) => kept
                                case BackendRefused(_, stale) => stale
  {
    hide Complete, Unwind, A.FrameFor, Step;
    if owner.state != Inactive || !owner.live {
      return false;
    }
    FullIsComplete(owner.ledger.Contents());
    ghost var m := Machine(memory.Value(), []);
    owner.live := false;
    var error;
    error, m := UnwindFrames(owner, |BUILD_LINKS|, memory, m);
    if error.Some? {
      return false;
    }
    owner.root := None;
    owner.state := Dead;
    return true;
  }
}
