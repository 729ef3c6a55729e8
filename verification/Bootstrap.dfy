/**
 The bootstrap page-table builder: a fixed pool of 32 tables, a budget that only grows, and
 4-level mapping into it, proved to be a finite map from page numbers to entries.
 */
module Bootstrap {
  import opened Words
  import opened PageTables

  const POOL_TABLES: nat := 32

  const LINK_FLAGS: Flags := Flags(true, false, false)

  datatype Builder = Builder(base: u64, tables: seq<Page>, used: nat)

  /** The pool is page aligned, inside the entry mask, and within its budget. */
  predicate Placed(b: Builder) {
    && b.base % PAGE_SIZE == 0 && b.base + POOL_TABLES * PAGE_SIZE <= ADDRESS_LIMIT
    && |b.tables| == POOL_TABLES && b.used <= POOL_TABLES
  }

  function TableAddress(b: Builder, t: nat): u64
    requires Placed(b) && t < POOL_TABLES
  {
    b.base + t * PAGE_SIZE
  }

  /** Which table a physical address names, if any. */
  function TableNumber(b: Builder, physical: u64): (t: Option<nat>)
    requires Placed(b)
    ensures t.Some? ==> t.value < POOL_TABLES && physical == TableAddress(b, t.value)
  {
    if physical < b.base || physical >= b.base + POOL_TABLES * PAGE_SIZE || physical % PAGE_SIZE != 0 then None
    else Some((physical - b.base) / PAGE_SIZE)
  }

  function SetEntry(b: Builder, t: nat, i: TableIndex, entry: u64): Builder
    requires Placed(b) && t < POOL_TABLES
  {
    b.(tables := b.tables[t := b.tables[t][i := entry]])
  }

  /** The child table behind a slot, made from the pool when there is none. */
  function EnsureChild(b: Builder, parent: u64, i: TableIndex): (r: (Builder, Result<u64, IsolationError>))
    requires Placed(b)
    ensures Placed(r.0) && r.0.base == b.base
  {
    match TableNumber(b, parent)
    case None => (b, Err(InvalidMapping))
    case Some(t) =>
      var existing := b.tables[t][i];
      if Present(existing) then (b, Ok(Address(existing)))
      else if b.used == POOL_TABLES then (b, Err(BootstrapPoolExhausted))
      else
        var child := TableAddress(b, b.used);
        (SetEntry(b, t, i, Entry(child, LINK_FLAGS)).(used := b.used + 1), Ok(child))
  }

  function LeafSlot(b: Builder, root: u64, address: u64): (r: (Builder, Result<u64, IsolationError>))
    requires Placed(b)
    ensures Placed(r.0) && r.0.base == b.base
  {
    var (b3, pml3) := EnsureChild(b, root, Pml4Index(address));
    match pml3
    case Err(e) => (b3, Err(e))
    case Ok(t3) =>
      var (b2, pml2) := EnsureChild(b3, t3, Pml3Index(address));
      match pml2
      case Err(e) => (b2, Err(e))
      case Ok(t2) => EnsureChild(b2, t2, Pml2Index(address))
  }

  function MapPage(b: Builder, root: u64, address: u64, physical: u64, flags: Flags):
    (r: (Builder, Outcome<IsolationError>))
    requires Placed(b)
    ensures Placed(r.0) && r.0.base == b.base
  {
    if address % PAGE_SIZE != 0 || physical % PAGE_SIZE != 0 then (b, Fail(InvalidMapping))
    else
      var (b1, slot) := LeafSlot(b, root, address);
      match slot
      case Err(e) => (b1, Fail(e))
      case Ok(leaf) =>
        match TableNumber(b1, leaf)
        case None => (b1, Fail(InvalidMapping))
        case Some(t) =>
          if Present(b1.tables[t][Pml1Index(address)]) then (b1, Fail(DuplicateMapping))
          else (SetEntry(b1, t, Pml1Index(address), Entry(physical, flags)), Pass)
  }

  /** The slot's child table as a walk follows it. */
  function Child(b: Builder, t: nat, i: TableIndex): (c: Option<nat>)
    requires Placed(b) && t < POOL_TABLES
    ensures c.Some? ==> c.value < POOL_TABLES
  {
    if Present(b.tables[t][i]) then TableNumber(b, Address(b.tables[t][i])) else None
  }

  /** The last-level table of an address. */
  function LeafTable(b: Builder, root: nat, address: u64): (t: Option<nat>)
    requires Placed(b) && root < POOL_TABLES
    ensures t.Some? ==> t.value < POOL_TABLES
  {
    match Child(b, root, Pml4Index(address))
    case None => None
    case Some(t3) =>
      match Child(b, t3, Pml3Index(address))
      case None => None
      case Some(t2) => Child(b, t2, Pml2Index(address))
  }

  function EntryFor(b: Builder, root: u64, address: u64): Option<u64>
    requires Placed(b)
  {
    match TableNumber(b, root)
    case None => None
    case Some(t) =>
      match LeafTable(b, t, address)
      case None => None
      case Some(leaf) => Some(b.tables[leaf][Pml1Index(address)])
  }

  // The shape every builder keeps ----------------------------------------------------------------

  /** A slot of an inner table is empty or links one allocated table a level down. */
  predicate LinkOk(b: Builder, levels: seq<nat>, t: nat, i: TableIndex)
    requires Placed(b) && |levels| == b.used && t < b.used
  {
    b.tables[t][i] == 0
    || exists c :: 0 < c < b.used && levels[c] + 1 == levels[t]
         && b.tables[t][i] == Entry(TableAddress(b, c), LINK_FLAGS)
  }

  predicate Inner(levels: seq<nat>, t: nat) { t < |levels| && levels[t] > 1 }

  /** Two inner slots with the same link are the same slot. */
  predicate OwnSlot(b: Builder, levels: seq<nat>, t: nat, i: TableIndex, u: nat, j: TableIndex)
    requires Placed(b) && t < POOL_TABLES && u < POOL_TABLES
  {
    Inner(levels, t) && Inner(levels, u) && b.tables[t][i] == b.tables[u][j] != 0 ==> t == u && i == j
  }

  /**
   Table 0 is the root; each allocated table has a level; inner tables link tables one level down,
   no table from two slots; and unallocated tables are blank.
   */
  ghost predicate Tree(b: Builder, levels: seq<nat>) {
    && Placed(b) && 0 < b.used == |levels| && levels[0] == 4
    && (forall t :: 0 <= t < |levels| ==> 1 <= levels[t] <= 4)
    && (forall t :: b.used <= t < POOL_TABLES ==> b.tables[t] == ZeroPage())
    && (forall t, i :: 0 <= t < b.used && 0 <= i < 512 && Inner(levels, t) ==> LinkOk(b, levels, t, i))
    && (forall t, i, u, j | 0 <= t < b.used && 0 <= i < 512 && 0 <= u < b.used && 0 <= j < 512 ::
          OwnSlot(b, levels, t, i, u, j))
  }

  /** What the pool maps at an address. */
  function Mapped(b: Builder, address: u64): Option<u64>
    requires Placed(b)
  {
    match LeafTable(b, 0, address)
    case None => None
    case Some(t) =>
      var entry := b.tables[t][Pml1Index(address)];
      if Present(entry) then Some(entry) else None
  }

  /** The page number a walk uses: bits 12 to 47. */
  function PageNumber(address: u64): nat { address / PAGE_SIZE % 0x10_0000_0000 }

  // Steps ------------------------------------------------------------------------------------------

  lemma LinkFields(b: Builder, c: nat)
    requires Placed(b) && c < POOL_TABLES
    ensures var e := Entry(TableAddress(b, c), LINK_FLAGS);
            e != 0 && Present(e) && Address(e) == TableAddress(b, c) && !User(e)
              && TableNumber(b, Address(e)) == Some(c)
  {
    hide Entry, Present, Address, User, Large, Writable, NoExecute;
    EntryFields(TableAddress(b, c), LINK_FLAGS);
    PresentNotZero(Entry(TableAddress(b, c), LINK_FLAGS));
  }

  lemma PresentNotZero(e: u64)
    requires Present(e)
    ensures e != 0
  {
  }

  /** In an inner table a slot either has no child and is zero, or its child is a level down. */
  lemma ChildBelow(b: Builder, levels: seq<nat>, t: nat, i: TableIndex)
    requires Tree(b, levels) && Inner(levels, t)
    ensures match Child(b, t, i)
            case None => b.tables[t][i] == 0 && !Present(b.tables[t][i])
            case Some(c) => && 0 < c < b.used && levels[c] + 1 == levels[t] && Present(b.tables[t][i])
                            && b.tables[t][i] == Entry(TableAddress(b, c), LINK_FLAGS)
                            && Address(b.tables[t][i]) == TableAddress(b, c)
  {
    hide Entry, Address, TableNumber;
    assert LinkOk(b, levels, t, i);
    if b.tables[t][i] != 0 {
      var c :| 0 < c < b.used && levels[c] + 1 == levels[t] && b.tables[t][i] == Entry(TableAddress(b, c), LINK_FLAGS);
      LinkFields(b, c);
    }
  }

  /** Linking a fresh table at an empty slot. */
  function Grown(b: Builder, t: nat, i: TableIndex): (r: Builder)
    requires Placed(b) && t < b.used < POOL_TABLES
    ensures Placed(r)
  {
    SetEntry(b, t, i, Entry(TableAddress(b, b.used), LINK_FLAGS)).(used := b.used + 1)
  }

  lemma GrownSlots(b: Builder, t: nat, i: TableIndex)
    requires Placed(b) && t < b.used < POOL_TABLES
    ensures forall u, j :: 0 <= u < POOL_TABLES && 0 <= j < 512 ==>
              Grown(b, t, i).tables[u][j]
              == if u == t && j == i then Entry(TableAddress(b, b.used), LINK_FLAGS) else b.tables[u][j]
    ensures forall u :: 0 <= u < POOL_TABLES && u != t ==> Grown(b, t, i).tables[u] == b.tables[u]
  {
  }

  lemma GrownTree(b: Builder, levels: seq<nat>, t: nat, i: TableIndex)
    requires Tree(b, levels) && Inner(levels, t) && b.used < POOL_TABLES && b.tables[t][i] == 0
    ensures Tree(Grown(b, t, i), levels + [levels[t] - 1])
  {
    hide Entry, Grown, TableNumber;
    var b' := Grown(b, t, i);
    var levels' := levels + [levels[t] - 1];
    GrownShape(b, t, i);
    GrownSlots(b, t, i);
    forall u, j | 0 <= u < b'.used && 0 <= j < 512 && Inner(levels', u) ensures LinkOk(b', levels', u, j) {
      GrownLink(b, levels, t, i, u, j);
    }
    forall u, j, v, l | 0 <= u < b'.used && 0 <= j < 512 && 0 <= v < b'.used && 0 <= l < 512
      ensures OwnSlot(b', levels', u, j, v, l)
    {
      GrownOwn(b, levels, t, i, u, j, v, l);
    }
  }

  lemma GrownShape(b: Builder, t: nat, i: TableIndex)
    requires Placed(b) && t < b.used < POOL_TABLES
    ensures var b' := Grown(b, t, i); Placed(b') && b'.used == b.used + 1 && b'.base == b.base
  {
  }

  lemma GrownLink(b: Builder, levels: seq<nat>, t: nat, i: TableIndex, u: nat, j: TableIndex)
    requires Tree(b, levels) && Inner(levels, t) && b.used < POOL_TABLES && u <= b.used
    requires var levels' := levels + [levels[t] - 1]; Inner(levels', u)
    ensures LinkOk(Grown(b, t, i), levels + [levels[t] - 1], u, j)
  {
    hide Entry, Grown, TableNumber;
    var b' := Grown(b, t, i);
    var levels' := levels + [levels[t] - 1];
    GrownShape(b, t, i);
    GrownSlots(b, t, i);
    if u == t && j == i {
      assert levels'[b.used] + 1 == levels'[t];
      assert b'.tables[u][j] == Entry(TableAddress(b', b.used), LINK_FLAGS);
    } else if u < b.used && b.tables[u][j] != 0 {
      assert Inner(levels, u);
      assert LinkOk(b, levels, u, j);
      var c :| 0 < c < b.used && levels[c] + 1 == levels[u] && b.tables[u][j] == Entry(TableAddress(b, c), LINK_FLAGS);
      assert levels'[c] + 1 == levels'[u] && b'.tables[u][j] == Entry(TableAddress(b', c), LINK_FLAGS);
    }
  }

  lemma NotYetLinked(b: Builder, levels: seq<nat>, v: nat, l: TableIndex)
    requires Tree(b, levels) && Inner(levels, v) && b.used < POOL_TABLES
    ensures b.tables[v][l] != Entry(TableAddress(b, b.used), LINK_FLAGS)
  {
    hide Entry, TableNumber, Address, Present;
    LinkFields(b, b.used);
    ChildBelow(b, levels, v, l);
  }

  lemma GrownOwn(
    b: Builder, levels: seq<nat>, t: nat, i: TableIndex, u: nat, j: TableIndex, v: nat, l: TableIndex)
    requires Tree(b, levels) && Inner(levels, t) && b.used < POOL_TABLES && u <= b.used && v <= b.used
    ensures OwnSlot(Grown(b, t, i), levels + [levels[t] - 1], u, j, v, l)
  {
    hide Entry, Grown, TableNumber;
    GrownShape(b, t, i);
    GrownSlots(b, t, i);
    LinkFields(b, b.used);
    if u < b.used && Inner(levels, u) { NotYetLinked(b, levels, u, j); }
    if v < b.used && Inner(levels, v) { NotYetLinked(b, levels, v, l); }
    if u < b.used && v < b.used { assert OwnSlot(b, levels, u, j, v, l); }
  }

  /** The new table is blank and everything else links as before. */
  lemma GrownChild(b: Builder, levels: seq<nat>, t: nat, i: TableIndex, u: nat, j: TableIndex)
    requires Tree(b, levels) && Inner(levels, t) && b.used < POOL_TABLES && b.tables[t][i] == 0 && u < POOL_TABLES
    ensures Child(Grown(b, t, i), u, j) == if u == t && j == i then Some(b.used) else Child(b, u, j)
    ensures Child(b, b.used, j) == None
  {
    hide Entry, Grown, Present, Address;
    GrownShape(b, t, i);
    GrownSlots(b, t, i);
    LinkFields(b, b.used);
    ZeroIsAbsent();
  }

  lemma ZeroIsAbsent()
    ensures !Present(0)
  {
  }

  /** Growing the tree maps nothing and unmaps nothing. */
  lemma GrownMapped(b: Builder, levels: seq<nat>, t: nat, i: TableIndex, a: u64)
    requires Tree(b, levels) && Inner(levels, t) && b.used < POOL_TABLES && b.tables[t][i] == 0
    ensures Mapped(Grown(b, t, i), a) == Mapped(b, a)
  {
    hide Entry, Grown, Present, Address, Child, Pml4Index, Pml3Index, Pml2Index, Pml1Index, TableNumber;
    var b' := Grown(b, t, i);
    GrownShape(b, t, i);
    GrownSlots(b, t, i);
    ZeroIsAbsent();
    var i4, i3, i2 := Pml4Index(a), Pml3Index(a), Pml2Index(a);
    GrownChild(b, levels, t, i, 0, i4);
    ChildBelow(b, levels, 0, i4);
    ChildBelow(b, levels, t, i);
    GrownChild(b, levels, t, i, b.used, i3);
    if Child(b, 0, i4).Some? {
      var t3 := Child(b, 0, i4).value;
      GrownChild(b, levels, t, i, t3, i3);
      ChildBelow(b, levels, t3, i3);
      GrownChild(b, levels, t, i, b.used, i2);
      if Child(b, t3, i3).Some? {
        var t2 := Child(b, t3, i3).value;
        GrownChild(b, levels, t, i, t2, i2);
        ChildBelow(b, levels, t2, i2);
      }
    }
  }

  ghost predicate SameMaps(b: Builder, b': Builder)
    requires Placed(b) && Placed(b')
  {
    forall a: u64 :: Mapped(b', a) == Mapped(b, a)
  }

  /** Links present in the first are the same in the second. */
  ghost predicate KeepsLinks(b: Builder, b': Builder)
    requires Placed(b) && Placed(b')
  {
    forall u, i :: 0 <= u < POOL_TABLES && 0 <= i < 512 && Child(b, u, i).Some? ==> Child(b', u, i) == Child(b, u, i)
  }

  /** One step down: the existing child, a fresh blank one, or exhaustion with nothing changed. */
  lemma EnsureOutcome(b: Builder, levels: seq<nat>, t: nat, i: TableIndex) returns (levels': seq<nat>)
    requires Tree(b, levels) && Inner(levels, t)
    ensures var (b', r) := EnsureChild(b, TableAddress(b, t), i);
            && Tree(b', levels') && levels <= levels' && SameMaps(b, b') && KeepsLinks(b, b')
            && match r {
                 case Err(e) => e == BootstrapPoolExhausted && b' == b && Child(b, t, i) == None
                     && b.used == POOL_TABLES
                 case Ok(child) =>
                   var c := Child(b', t, i);
                   && c.Some? && child == TableAddress(b', c.value)
                   && c.value < |levels'| && levels'[c.value] + 1 == levels[t]
                   && if Child(b, t, i).Some? then b' == b
                      else b'.used == b.used + 1 && forall j :: 0 <= j < 512 ==> Child(b', c.value, j) == None
               }
  {
    hide Entry, Child, Present, Address, Mapped;
    ChildBelow(b, levels, t, i);
    OwnNumber(b, t);
    levels' := levels;
    if Child(b, t, i).None? && b.used < POOL_TABLES {
      levels' := levels + [levels[t] - 1];
      GrownTree(b, levels, t, i);
      GrownKeeps(b, levels, t, i);
    } else {
      NoChange(b);
    }
  }

  lemma OwnNumber(b: Builder, t: nat)
    requires Placed(b) && t < POOL_TABLES
    ensures TableNumber(b, TableAddress(b, t)) == Some(t)
  {
  }

  lemma NoChange(b: Builder)
    requires Placed(b)
    ensures SameMaps(b, b) && KeepsLinks(b, b)
  {
  }

  lemma GrownKeeps(b: Builder, levels: seq<nat>, t: nat, i: TableIndex)
    requires Tree(b, levels) && Inner(levels, t) && b.used < POOL_TABLES && b.tables[t][i] == 0
            && Child(b, t, i) == None
    ensures var b' := Grown(b, t, i);
            && SameMaps(b, b') && KeepsLinks(b, b') && Child(b', t, i) == Some(b.used)
            && forall j :: 0 <= j < 512 ==> Child(b', b.used, j) == None
  {
    hide Entry, Child, Present, Address, Mapped, Grown;
    var b' := Grown(b, t, i);
    forall a: u64 ensures Mapped(b', a) == Mapped(b, a) { GrownMapped(b, levels, t, i, a); }
    forall u, j | 0 <= u < POOL_TABLES && 0 <= j < 512
      ensures Child(b', u, j) == if u == t && j == i then Some(b.used) else Child(b, u, j)
    {
      GrownChild(b, levels, t, i, u, j);
    }
    forall j | 0 <= j < 512 ensures Child(b, b.used, j) == None { GrownChild(b, levels, t, i, b.used, j); }
  }

  /** How many tables an address still needs. */
  function Missing(b: Builder, address: u64): nat
    requires Placed(b)
  {
    match Child(b, 0, Pml4Index(address))
    case None => 3
    case Some(t3) =>
      match Child(b, t3, Pml3Index(address))
      case None => 2
      case Some(t2) => if Child(b, t2, Pml2Index(address)).None? then 1 else 0
  }

  /** Reaching an address's last table: it succeeds exactly when the pool still has the tables. */
  lemma LeafOutcome(b: Builder, levels: seq<nat>, address: u64) returns (levels': seq<nat>)
    requires Tree(b, levels)
    ensures var (b', r) := LeafSlot(b, b.base, address);
            && Tree(b', levels') && SameMaps(b, b')
            && (r.Ok? <==> b.used + Missing(b, address) <= POOL_TABLES)
            && match r {
                 case Err(e) => e == BootstrapPoolExhausted
                 case Ok(leaf) =>
                   var t := LeafTable(b', 0, address);
                   t.Some? && t.value < |levels'| && levels'[t.value] == 1 && leaf == TableAddress(b', t.value)
               }
  {
    hide Entry, Child, Present, Address, Mapped, EnsureChild, Pml4Index, Pml3Index, Pml2Index, TableNumber;
    var i4, i3, i2 := Pml4Index(address), Pml3Index(address), Pml2Index(address);
    assert b.base == TableAddress(b, 0);
    var levels3 := EnsureOutcome(b, levels, 0, i4);
    var (b3, r3) := EnsureChild(b, b.base, i4);
    levels' := levels3;
    if r3.Ok? {
      var t3 := Child(b3, 0, i4).value;
      var levels2 := EnsureOutcome(b3, levels3, t3, i3);
      var (b2, r2) := EnsureChild(b3, r3.value, i3);
      levels' := levels2;
      if r2.Ok? {
        var t2 := Child(b2, t3, i3).value;
        levels' := EnsureOutcome(b2, levels2, t2, i2);
      }
    }
  }

  // Writing a leaf -----------------------------------------------------------------------------------

  /** Addresses that share a last-level table share their upper indices. */
  lemma SameLeaf(b: Builder, levels: seq<nat>, x: u64, y: u64)
    requires Tree(b, levels) && LeafTable(b, 0, x).Some? && LeafTable(b, 0, x) == LeafTable(b, 0, y)
    ensures Pml4Index(x) == Pml4Index(y) && Pml3Index(x) == Pml3Index(y) && Pml2Index(x) == Pml2Index(y)
    ensures LeafTable(b, 0, x).value < b.used && levels[LeafTable(b, 0, x).value] == 1
  {
    hide Entry, Child, Present, Address, Pml4Index, Pml3Index, Pml2Index, TableNumber;
    var x3, y3 := Child(b, 0, Pml4Index(x)).value, Child(b, 0, Pml4Index(y)).value;
    ChildBelow(b, levels, 0, Pml4Index(x));
    ChildBelow(b, levels, 0, Pml4Index(y));
    var x2, y2 := Child(b, x3, Pml3Index(x)).value, Child(b, y3, Pml3Index(y)).value;
    ChildBelow(b, levels, x3, Pml3Index(x));
    ChildBelow(b, levels, y3, Pml3Index(y));
    ChildBelow(b, levels, x2, Pml2Index(x));
    ChildBelow(b, levels, y2, Pml2Index(y));
    LinkFields(b, LeafTable(b, 0, x).value);
    assert OwnSlot(b, levels, x2, Pml2Index(x), y2, Pml2Index(y));
    LinkFields(b, x2);
    assert OwnSlot(b, levels, x3, Pml3Index(x), y3, Pml3Index(y));
    LinkFields(b, x3);
    assert OwnSlot(b, levels, 0, Pml4Index(x), 0, Pml4Index(y));
  }

  /** The four indices and the page number say the same. */
  lemma IndicesOfPage(x: u64, y: u64)
    ensures PageNumber(x) == PageNumber(y)
            <==> && Pml4Index(x) == Pml4Index(y) && Pml3Index(x) == Pml3Index(y)
                 && Pml2Index(x) == Pml2Index(y) && Pml1Index(x) == Pml1Index(y)
  {
    PageOfIndices(x);
    PageOfIndices(y);
  }

  lemma PageOfIndices(a: u64)
    ensures PageNumber(a) == ((Pml4Index(a) * 512 + Pml3Index(a)) * 512 + Pml2Index(a)) * 512 + Pml1Index(a)
  {
    var page := a / 0x1000;
    assert a / 0x20_0000 == page / 512;
    assert a / 0x4000_0000 == page / 512 / 512;
    assert a / 0x80_0000_0000 == page / 512 / 512 / 512;
  }

  /** A leaf write leaves the tree and every path alone. */
  lemma LeafWriteTree(b: Builder, levels: seq<nat>, t: nat, i: TableIndex, entry: u64)
    requires Tree(b, levels) && t < b.used && levels[t] == 1
    ensures Tree(SetEntry(b, t, i, entry), levels)
    ensures forall a: u64 :: LeafTable(SetEntry(b, t, i, entry), 0, a) == LeafTable(b, 0, a)
  {
    hide Entry, Present, Address, Pml4Index, Pml3Index, Pml2Index;
    var b' := SetEntry(b, t, i, entry);
    forall u, j | 0 <= u < b.used && 0 <= j < 512 && Inner(levels, u)
      ensures b'.tables[u] == b.tables[u] && LinkOk(b', levels, u, j) && Child(b', u, j) == Child(b, u, j)
    {
      assert LinkOk(b, levels, u, j);
    }
    forall u, j, v, l | 0 <= u < b.used && 0 <= j < 512 && 0 <= v < b.used && 0 <= l < 512
      ensures OwnSlot(b', levels, u, j, v, l)
    {
      assert OwnSlot(b, levels, u, j, v, l);
    }
    forall a: u64 ensures LeafTable(b', 0, a) == LeafTable(b, 0, a) {
      SamePath(b, b', levels, a);
    }
  }

  lemma SamePath(b: Builder, b': Builder, levels: seq<nat>, a: u64)
    requires Tree(b, levels) && Placed(b')
    requires forall u, j :: 0 <= u < b.used && 0 <= j < 512 && Inner(levels, u) ==> Child(b', u, j) == Child(b, u, j)
    ensures LeafTable(b', 0, a) == LeafTable(b, 0, a)
  {
    hide Entry, Present, Address, Pml4Index, Pml3Index, Pml2Index, Child, TableNumber;
    ChildBelow(b, levels, 0, Pml4Index(a));
    if Child(b, 0, Pml4Index(a)).Some? {
      var t3 := Child(b, 0, Pml4Index(a)).value;
      ChildBelow(b, levels, t3, Pml3Index(a));
    }
  }

  /** Setting one leaf entry maps that page and no other. */
  lemma LeafWriteMaps(b: Builder, levels: seq<nat>, address: u64, entry: u64)
    requires Tree(b, levels) && LeafTable(b, 0, address).Some? && Present(entry)
    ensures var t := LeafTable(b, 0, address).value;
            var b' := SetEntry(b, t, Pml1Index(address), entry);
            && Tree(b', levels) && LeafTable(b', 0, address) == Some(t) && Mapped(b', address) == Some(entry)
            && forall x: u64 :: PageNumber(x) != PageNumber(address) ==> Mapped(b', x) == Mapped(b, x)
  {
    hide Present, LeafTable, Pml4Index, Pml3Index, Pml2Index, Pml1Index, PageNumber, Tree;
    TreePlaced(b, levels);
    var t := LeafTable(b, 0, address).value;
    var b' := SetEntry(b, t, Pml1Index(address), entry);
    SameLeaf(b, levels, address, address);
    LeafWriteTree(b, levels, t, Pml1Index(address), entry);
    forall x: u64 | PageNumber(x) != PageNumber(address) ensures Mapped(b', x) == Mapped(b, x) {
      assert LeafTable(b', 0, x) == LeafTable(b, 0, x);
      IndicesOfPage(x, address);
      if LeafTable(b, 0, x) == Some(t) { SameLeaf(b, levels, x, address); }
    }
  }

  // The finite map -----------------------------------------------------------------------------------

  /** Some assignment of levels fits the pool. */
  ghost predicate Shaped(b: Builder) {
    exists levels :: Tree(b, levels)
  }

  predicate Aligned(address: u64, physical: u64) { address % PAGE_SIZE == 0 && physical % PAGE_SIZE == 0 }

  /** What mapping a page must do, said of the map alone. */
  ghost predicate MapsExactly(b: Builder, b': Builder, address: u64, entry: u64)
    requires Placed(b) && Placed(b')
  {
    && Mapped(b, address) == None && Mapped(b', address) == Some(entry)
    && forall x: u64 :: PageNumber(x) != PageNumber(address) ==> Mapped(b', x) == Mapped(b, x)
  }

  /**
   Mapping a page: on success exactly that page gains exactly that entry; on any failure,
   pool exhaustion halfway down included, no mapping changes. Each outcome has its exact cause.
   */
  lemma MapOutcome(b: Builder, address: u64, physical: u64, flags: Flags)
    requires Shaped(b) && physical < ADDRESS_LIMIT
    ensures Placed(b)
    ensures var (b', r) := MapPage(b, b.base, address, physical, flags);
            && Shaped(b')
            && (r == Fail(InvalidMapping) <==> !Aligned(address, physical))
            && (r == Fail(DuplicateMapping) <==> Aligned(address, physical) && Mapped(b, address).Some?)
            && (r == Fail(BootstrapPoolExhausted) <==>
                  Aligned(address, physical) && b.used + Missing(b, address) > POOL_TABLES)
            && match r {
                 case Pass => MapsExactly(b, b', address, Entry(physical, flags))
                              && EntryFor(b', b.base, address) == Some(Entry(physical, flags))
                 case Fail(e) => SameMaps(b, b') && e in {InvalidMapping, DuplicateMapping, BootstrapPoolExhausted}
               }
  {
    hide Tree, LeafTable, LeafSlot, Entry, Present, Pml1Index, PageNumber, Missing, TableNumber;
    var levels :| Tree(b, levels);
    TreePlaced(b, levels);
    NoChange(b);
    if Aligned(address, physical) {
      var levels' := LeafOutcome(b, levels, address);
      var (b1, r) := LeafSlot(b, b.base, address);
      MappedMissesNothing(b, address);
      if r.Ok? {
        var t := LeafTable(b1, 0, address).value;
        OwnNumber(b1, t);
        OwnNumber(b1, 0);
        EntryPresent(physical, flags);
        assert Mapped(b1, address) == Mapped(b, address);
        LeafWriteMaps(b1, levels', address, Entry(physical, flags));
        var b2 := SetEntry(b1, t, Pml1Index(address), Entry(physical, flags));
        OwnNumber(b2, 0);
      }
    }
  }

  lemma TreePlaced(b: Builder, levels: seq<nat>)
    requires Tree(b, levels)
    ensures Placed(b) && 0 < b.used
  {
  }

  lemma EntryPresent(physical: u64, flags: Flags)
    requires physical % PAGE_SIZE == 0 && physical < ADDRESS_LIMIT
    ensures Present(Entry(physical, flags))
  {
    hide Entry, Present, Address, User, Large, Writable, NoExecute;
    EntryFields(physical, flags);
  }

  lemma MappedMissesNothing(b: Builder, address: u64)
    requires Placed(b)
    ensures Mapped(b, address).Some? ==> Missing(b, address) == 0
  {
  }

  /** The pool's mappings, as a finite map from page numbers to entries. */
  ghost predicate Represents(b: Builder, pages: map<nat, u64>) {
    && Shaped(b) && Placed(b)
    && forall a: u64 :: Mapped(b, a) == if PageNumber(a) in pages then Some(pages[PageNumber(a)]) else None
  }

  datatype Mapping = Mapping(address: u64, physical: u64, flags: Flags)

  /** Mapping a page as an operation on the finite map, given whether the pool had room. */
  function MapInto(pages: map<nat, u64>, call: Mapping, fits: bool): (map<nat, u64>, Outcome<IsolationError>) {
    if !Aligned(call.address, call.physical) then (pages, Fail(InvalidMapping))
    else if PageNumber(call.address) in pages then (pages, Fail(DuplicateMapping))
    else if !fits then (pages, Fail(BootstrapPoolExhausted))
    else (pages[PageNumber(call.address) := Entry(call.physical, call.flags)], Pass)
  }

  lemma MapRefines(b: Builder, pages: map<nat, u64>, call: Mapping)
    requires Represents(b, pages) && call.physical < ADDRESS_LIMIT
    ensures var (b', r) := MapPage(b, b.base, call.address, call.physical, call.flags);
            var (pages', expected) := MapInto(pages, call, b.used + Missing(b, call.address) <= POOL_TABLES);
            r == expected && Represents(b', pages')
  {
    hide Shaped, MapPage, Entry, PageNumber, Mapped, Missing;
    MapOutcome(b, call.address, call.physical, call.flags);
    MappedMissesNothing(b, call.address);
    var (b', r) := MapPage(b, b.base, call.address, call.physical, call.flags);
    if r.Pass? {
      forall a: u64 | PageNumber(a) == PageNumber(call.address) ensures Mapped(b', a) == Mapped(b', call.address) {
        SamePage(b', a, call.address);
      }
    }
  }

  lemma SamePage(b: Builder, x: u64, y: u64)
    requires Placed(b) && PageNumber(x) == PageNumber(y)
    ensures Mapped(b, x) == Mapped(b, y)
  {
    hide Child, PageNumber, Pml4Index, Pml3Index, Pml2Index, Pml1Index, Present;
    IndicesOfPage(x, y);
  }

  // Ranges and runs ----------------------------------------------------------------------------------

  function MapRun(b: Builder, root: u64, calls: seq<Mapping>): (r: (Builder, seq<Outcome<IsolationError>>))
    requires Placed(b)
    ensures Placed(r.0) && r.0.base == b.base && |r.1| == |calls|
    decreases |calls|
  {
    if calls == [] then (b, [])
    else
      var n := |calls| - 1;
      var (b1, before) := MapRun(b, root, calls[..n]);
      var (b2, last) := MapPage(b1, root, calls[n].address, calls[n].physical, calls[n].flags);
      (b2, before + [last])
  }

  /** The entries of the calls that passed. */
  function Recorded(calls: seq<Mapping>, results: seq<Outcome<IsolationError>>): map<nat, u64>
    requires |calls| == |results|
    decreases |calls|
  {
    if calls == [] then map[]
    else
      var n := |calls| - 1;
      var before := Recorded(calls[..n], results[..n]);
      if results[n].Pass? then before[PageNumber(calls[n].address) := Entry(calls[n].physical, calls[n].flags)]
        else before
  }

  /** From a blank root, the pool maps exactly what the passed calls mapped, whatever the calls. */
  lemma {:induction false} RunRefinesMap(b: Builder, calls: seq<Mapping>)
    requires Represents(b, map[])
    requires forall k :: 0 <= k < |calls| ==> calls[k].physical < ADDRESS_LIMIT
    ensures var (b', results) := MapRun(b, b.base, calls);
            Represents(b', Recorded(calls, results))
    decreases |calls|
  {
    hide Represents, MapPage, Entry, PageNumber, Missing;
    RepresentsPlaced(b, map[]);
    if calls != [] {
      var n := |calls| - 1;
      RunRefinesMap(b, calls[..n]);
      var (b1, before) := MapRun(b, b.base, calls[..n]);
      MapRefines(b1, Recorded(calls[..n], before), calls[n]);
      var (b2, results) := MapRun(b, b.base, calls);
      assert results[..n] == before;
    }
  }

  lemma RepresentsPlaced(b: Builder, pages: map<nat, u64>)
    requires Represents(b, pages)
    ensures Placed(b)
  {
  }

  /** A fresh pool with its root taken maps nothing. */
  lemma BlankRepresents(b: Builder)
    requires Placed(b) && b.used == 1 && forall t :: 0 <= t < POOL_TABLES ==> b.tables[t] == ZeroPage()
    ensures Represents(b, map[])
  {
    ZeroIsAbsent();
    assert Tree(b, [4]) by {
      forall t, i, u, j | 0 <= t < b.used && 0 <= i < 512 && 0 <= u < b.used && 0 <= j < 512
        ensures OwnSlot(b, [4], t, i, u, j)
      {
        assert b.tables[t][i] == 0;
      }
    }
  }

  /** The shared slots of a root built this way are never open to user accesses. */
  lemma RootIsSupervisor(b: Builder, i: TableIndex)
    requires Shaped(b)
    ensures Placed(b) && !(Present(b.tables[0][i]) && User(b.tables[0][i]))
  {
    hide Entry, Present, User, TableNumber, Address;
    var levels :| Tree(b, levels);
    ChildBelow(b, levels, 0, i);
    if Child(b, 0, i).Some? { LinkFields(b, Child(b, 0, i).value); }
  }

  /** Page `i` of a range. */
  function RangePage(v: u64, p: u64, flags: Flags, i: nat): Mapping
    requires v + i * PAGE_SIZE <= U64_MAX && p + i * PAGE_SIZE <= U64_MAX
  {
    Mapping(v + i * PAGE_SIZE, p + i * PAGE_SIZE, flags)
  }

  /** Maps pages `i` to `n` of a range, stopping at the first that fails. */
  function MapPages(b: Builder, root: u64, v: u64, p: u64, flags: Flags, n: nat, i: nat):
    (r: (Builder, Outcome<IsolationError>))
    requires Placed(b) && i <= n && v + n * PAGE_SIZE <= U64_MAX && p + n * PAGE_SIZE <= U64_MAX
    ensures Placed(r.0) && r.0.base == b.base
    decreases n - i
  {
    if i == n then (b, Pass)
    else
      var page := RangePage(v, p, flags, i);
      var (b1, mapped) := MapPage(b, root, page.address, page.physical, flags);
      if mapped.Fail? then (b1, mapped) else MapPages(b1, root, v, p, flags, n, i + 1)
  }

  function MapRange(b: Builder, root: u64, v: u64, p: u64, length: u64, flags: Flags):
    (Builder, Outcome<IsolationError>)
    requires Placed(b) && v + length <= U64_MAX && p + length <= U64_MAX
  {
    if length == 0 || v % PAGE_SIZE != 0 || p % PAGE_SIZE != 0 || length % PAGE_SIZE != 0 then
      (b, Fail(InvalidKernelLayout))
    else MapPages(b, root, v, p, flags, length / PAGE_SIZE, 0)
  }

  /** The map with the first `k` pages of a range added. */
  function WithRange(pages: map<nat, u64>, v: u64, p: u64, flags: Flags, k: nat): map<nat, u64>
    requires v + k * PAGE_SIZE <= U64_MAX && p + k * PAGE_SIZE <= U64_MAX
  {
    if k == 0 then pages
    else
      var last := RangePage(v, p, flags, k - 1);
      WithRange(pages, v, p, flags, k - 1)[PageNumber(last.address) := Entry(last.physical, flags)]
  }

  /** A range maps its whole length, or a proper prefix of it and nothing else. */
  lemma {:induction false} RangeMaps(b: Builder, pages: map<nat, u64>, v: u64, p: u64, flags: Flags, n: nat, i: nat)
    requires i <= n && v + n * PAGE_SIZE <= U64_MAX && p + n * PAGE_SIZE <= ADDRESS_LIMIT
    requires Represents(b, WithRange(pages, v, p, flags, i))
    ensures Placed(b)
    ensures var (b', r) := MapPages(b, b.base, v, p, flags, n, i);
            if r.Pass? then Represents(b', WithRange(pages, v, p, flags, n))
            else exists k :: i <= k < n && Represents(b', WithRange(pages, v, p, flags, k))
    decreases n - i
  {
    hide Represents, MapPage, Entry, PageNumber, Missing;
    RepresentsPlaced(b, WithRange(pages, v, p, flags, i));
    if i < n {
      var page := RangePage(v, p, flags, i);
      var before := WithRange(pages, v, p, flags, i);
      MapRefines(b, before, page);
      var (b1, mapped) := MapPage(b, b.base, page.address, page.physical, flags);
      if mapped.Pass? {
        RangeMaps(b1, pages, v, p, flags, n, i + 1);
      }
    }
  }
}
