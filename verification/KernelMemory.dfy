/**
 The kernel backend as it runs: table edits behind a temporary window entry that is set and
 cleared around each one, and the scans of the reachability check. Every call is proved
 equal to the backend function of module KernelBackend.
 */
module KernelMemory {
  import opened Words
  import opened PageTables
  import opened AddressSpace
  import opened KernelBackend
  import FA = FrameAllocation

  const SUPERVISOR_RW: Flags := Flags(true, false, true)
  const SHARED_PML4_INDICES: seq<TableIndex> := [0, 510, 511]

  class PhysicalMemory {
    const allocator: FA.FrameAllocator
    const ready: bool
    const activeRoot: u64
    const recoveryRoot: u64
    const recovery: Page
    const pool: seq<Page>
    const probes: map<u64, Page>
    var memory: map<u64, Page>
    var window: u64

    ghost function Value(): Kernel
      requires allocator.Shape()
      reads this, allocator, allocator.managed, allocator.free
    {
      Kernel(allocator.Managed(), allocator.Free(), memory, ready, window, activeRoot, recoveryRoot, recovery, pool,
        probes)
    }

    constructor (
      allocator: FA.FrameAllocator, ready: bool, activeRoot: u64, recoveryRoot: u64, recovery: Page,
      pool: seq<Page>, probes: map<u64, Page>, memory: map<u64, Page>)
      requires allocator.Shape()
      ensures this.allocator == allocator
      ensures Value() == Kernel(allocator.Managed(), allocator.Free(), memory, ready, 0, activeRoot, recoveryRoot,
                                recovery, pool, probes)
    {
      this.allocator := allocator;
      this.ready, this.activeRoot, this.recoveryRoot := ready, activeRoot, recoveryRoot;
      this.recovery, this.pool, this.probes := recovery, pool, probes;
      this.memory, this.window := memory, 0;
    }

    /** Everything this object is made of, with itself. */
    ghost function Parts(): set<object> {
      {this, allocator, allocator.managed, allocator.free}
    }

    /** The backend call that `call` names. */
    method Serve(call: Call) returns (reply: Done)
      requires allocator.Shape()
      modifies this`window, this`memory, allocator`freeLen, allocator.free
      ensures allocator.Shape() && (Value(), reply) == Step(old(Value()), call)
    {
      hide Step;
      match call {
        case AllocateFrame(role) => reply := AllocateFrame(role);
        case PrepareFrame(generation, role, frame) => reply := PrepareFrame(generation, role, frame);
        case InstallLink(link, parent, child) => reply := InstallLink(link, parent, child);
        case RemoveLink(link, parent, child) => reply := RemoveLink(link, parent, child);
        case ClearSharedEntries(root) => reply := ClearSharedEntries(root);
        case ClearTemporaryWindow => reply := ClearTemporaryWindow();
        case VerifyUnreachable(frames) => reply := VerifyUnreachable(frames);
        case ReturnFrame(owned) => reply := ReturnFrame(owned);
      }
    }

    /** Points the window at a frame, or says why it cannot. */
    method Open(frame: u64) returns (access: Outcome<IsolationError>)
      requires allocator.Shape()
      modifies this`window
      ensures access == OpenWindow(old(Value()), frame)
      ensures window == if access.Pass? then Entry(frame, SUPERVISOR_RW) else old(window)
    {
      if frame % PAGE_SIZE != 0 {
        return Fail(InvalidMapping);
      }
      if !ready || window != 0 {
        return Fail(TemporaryWindowBusy);
      }
      window := Entry(frame, SUPERVISOR_RW);
      return Pass;
    }

    method AllocateFrame(role: FrameRole) returns (reply: Done)
      requires allocator.Shape()
      modifies allocator`freeLen, allocator.free
      ensures allocator.Shape() && (Value(), reply) == Step(old(Value()), Call.AllocateFrame(role))
    {
      var frame := allocator.AllocateFrame();
      match frame
      case Ok(start) => return Granted(start);
      case Err(_) => return Refused(IsolationError.FrameAllocation);
    }

    method PrepareFrame(generation: u64, role: FrameRole, frame: u64) returns (reply: Done)
      requires allocator.Shape()
      modifies this`window, this`memory
      ensures (Value(), reply) == Step(old(Value()), Call.PrepareFrame(generation, role, frame))
    {
      var access := Open(frame);
      match access {
        case Fail(e) => return Refused(e);
        case Pass =>
      }
      reply := Granted(0);
      var page: Page := ZeroPage();
      if role == Root {
        var i := 0;
        while i < |SHARED_PML4_INDICES|
          invariant 0 <= i <= |SHARED_PML4_INDICES|
          invariant i == 0 ==> page == ZeroPage()
          invariant i == 1 ==> page == ZeroPage()[0 := recovery[0]]
          invariant i == 2 ==> page == ZeroPage()[0 := recovery[0]][510 := recovery[510]]
          invariant i == 3 ==> page == CopyShared(recovery)
        {
          var index := SHARED_PML4_INDICES[i];
          page := page[index := recovery[index]];
          i := i + 1;
        }
      } else if role == Text {
        if generation in probes {
          page := probes[generation];
        } else {
          reply := Refused(InvalidMapping);
        }
      }
      memory := memory[frame := page];
      window := 0;
    }

    method InstallLink(link: LinkSpec, parent: u64, child: u64) returns (reply: Done)
      requires allocator.Shape()
      modifies this`window, this`memory
      ensures (Value(), reply) == Step(old(Value()), Call.InstallLink(link, parent, child))
    {
      var access := Open(parent);
      match access {
        case Fail(e) => return Refused(e);
        case Pass =>
      }
      var table := Read(memory, parent);
      if table[link.index] != 0 {
        window := 0;
        return Refused(DuplicateMapping);
      }
      memory := memory[parent := table[link.index := Entry(child, link.flags)]];
      window := 0;
      return Granted(0);
    }

    method RemoveLink(link: LinkSpec, parent: u64, child: u64) returns (reply: Done)
      requires allocator.Shape()
      modifies this`window, this`memory
      ensures (Value(), reply) == Step(old(Value()), Call.RemoveLink(link, parent, child))
    {
      var access := Open(parent);
      match access {
        case Fail(e) => return Refused(e);
        case Pass =>
      }
      var table := Read(memory, parent);
      var entry := table[link.index];
      if Address(entry) != child || !Present(entry) {
        window := 0;
        return Refused(MissingMapping);
      }
      memory := memory[parent := table[link.index := 0]];
      window := 0;
      return Granted(0);
    }

    method ClearSharedEntries(root: u64) returns (reply: Done)
      requires allocator.Shape()
      modifies this`window, this`memory
      ensures (Value(), reply) == Step(old(Value()), Call.ClearSharedEntries(root))
    {
      var access := Open(root);
      match access {
        case Fail(e) => return Refused(e);
        case Pass =>
      }
      var table: Page := Read(memory, root);
      ghost var before := table;
      var i := 0;
      while i < |SHARED_PML4_INDICES|
        invariant 0 <= i <= |SHARED_PML4_INDICES|
        invariant i == 0 ==> table == before
        invariant i == 1 ==> table == before[0 := 0]
        invariant i == 2 ==> table == before[0 := 0][510 := 0]
        invariant i == 3 ==> table == ClearShared(before)
      {
        table := table[SHARED_PML4_INDICES[i] := 0];
        i := i + 1;
      }
      memory := memory[root := table];
      window := 0;
      return Granted(0);
    }

    method ClearTemporaryWindow() returns (reply: Done)
      requires allocator.Shape()
      modifies this`window
      ensures (Value(), reply) == Step(old(Value()), Call.ClearTemporaryWindow)
    {
      if window == 0 {
        return Granted(0);
      }
      window := 0;
      return Refused(TemporaryWindowLeaked);
    }

    /** Looks through every owned table for an entry left behind. */
    method CheckOwnedTables(frames: Ledger) returns (checked: Outcome<IsolationError>)
      requires allocator.Shape()
      modifies this`window
      ensures checked == CheckTables(old(Value()), frames)
      ensures window == old(window)
    {
      ghost var k := Value();
      var i := 0;
      while i < |frames|
        invariant 0 <= i <= |frames| && Value() == k
        invariant CheckTables(k, frames[i..]) == CheckTables(k, frames)
      {
        assert frames[i..][0] == frames[i] && frames[i..][1..] == frames[i + 1..];
        if IsTable(frames[i].role) {
          var access := Open(frames[i].start);
          match access {
            case Fail(e) => return Fail(e);
            case Pass =>
          }
          var dirty := HasEntry(Read(memory, frames[i].start));
          window := 0;
          if dirty {
            return Fail(ReachableFrame);
          }
        }
        i := i + 1;
      }
      return Pass;
    }

    method VerifyUnreachable(frames: Ledger) returns (reply: Done)
      requires allocator.Shape()
      modifies this`window
      ensures (Value(), reply) == Step(old(Value()), Call.VerifyUnreachable(frames))
    {
      if activeRoot != recoveryRoot || window != 0 {
        return Refused(ReachableFrame);
      }
      var checked := CheckOwnedTables(frames);
      match checked {
        case Fail(e) => return Refused(e);
        case Pass =>
      }
      var named := ScanPool(pool, frames);
      return if named then Refused(ReachableFrame) else Granted(0);
    }

    method ReturnFrame(owned: OwnedFrame) returns (reply: Done)
      requires allocator.Shape()
      modifies allocator`freeLen, allocator.free
      ensures allocator.Shape() && (Value(), reply) == Step(old(Value()), Call.ReturnFrame(owned))
    {
      var returned := allocator.ReturnFrame(owned.start);
      match returned
      case Pass => return Granted(0);
      case Fail(_) => return Refused(FrameReturn);
    }
  }

  method HasEntry(table: Page) returns (dirty: bool)
    ensures dirty <==> table != ZeroPage()
  {
    var i := 0;
    while i < 512
      invariant 0 <= i <= 512
      invariant forall j :: 0 <= j < i ==> table[j] == 0
    {
      if table[i] != 0 {
        return true;
      }
      i := i + 1;
    }
    assert table == ZeroPage();
    return false;
  }

  method NamesFrame(entry: u64, frames: Ledger) returns (named: bool)
    ensures named <==> Names(entry, frames)
  {
    if !Present(entry) {
      return false;
    }
    var i := 0;
    while i < |frames|
      invariant 0 <= i <= |frames|
      invariant forall j :: 0 <= j < i ==> frames[j].start != Address(entry)
    {
      if frames[i].start == Address(entry) {
        return true;
      }
      i := i + 1;
    }
    return false;
  }

  /** Looks through every entry of the bootstrap pool for an owned frame. */
  method ScanPool(pool: seq<Page>, frames: Ledger) returns (named: bool)
    ensures named <==> PoolNames(pool, frames)
  {
    var t := 0;
    while t < |pool|
      invariant 0 <= t <= |pool|
      invariant forall u, j :: 0 <= u < t && 0 <= j < 512 ==> !Names(pool[u][j], frames)
    {
      var i := 0;
      while i < 512
        invariant 0 <= i <= 512
        invariant forall j :: 0 <= j < i ==> !Names(pool[t][j], frames)
      {
        var hit := NamesFrame(pool[t][i], frames);
        if hit {
          return true;
        }
        i := i + 1;
      }
      t := t + 1;
    }
    return false;
  }
}
