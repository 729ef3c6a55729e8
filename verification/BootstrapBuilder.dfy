/**
 The bootstrap builder as the kernel runs it: 32 tables edited in place and a budget, each
 method proved equal to the functions of module Bootstrap.
 */
module BootstrapPool {
  import opened Words
  import opened PageTables
  import B = Bootstrap
  import opened Bootstrap

  class BootstrapBuilder {
    const base: u64
    const tables: array<Page>
    var used: nat

    ghost predicate Valid()
      reads this, tables
    {
      tables.Length == POOL_TABLES && Placed(Value())
    }

    ghost function Value(): Builder
      reads this, tables
    {
      Builder(base, tables[..], used)
    }

    constructor (base: u64)
      requires base % PAGE_SIZE == 0 && base + POOL_TABLES * PAGE_SIZE <= ADDRESS_LIMIT
      ensures Valid() && fresh(tables) && this.base == base && used == 0
      ensures forall t :: 0 <= t < POOL_TABLES ==> tables[t] == ZeroPage()
    {
      this.base := base;
      tables := new Page[POOL_TABLES](_ => ZeroPage());
      used := 0;
    }

    /** Claims the next table of the budget. */
    method AllocateTable() returns (table: Result<u64, IsolationError>)
      requires Valid()
      modifies this`used
      ensures Valid()
      ensures if old(used) == POOL_TABLES then table == Err(BootstrapPoolExhausted) && used == old(used)
              else table == Ok(TableAddress(old(Value()), old(used))) && used == old(used) + 1
    {
      if used == POOL_TABLES {
        return Err(BootstrapPoolExhausted);
      }
      var index := used;
      used := used + 1;
      return Ok(base + index * PAGE_SIZE);
    }

    /** Which table of the pool an address names. */
    method FindTable(physical: u64) returns (table: Result<nat, IsolationError>)
      requires Valid()
      ensures table == match TableNumber(Value(), physical)
                       case Some(t) => Ok(t)
                       case None => Err(InvalidMapping)
    {
      if physical < base || physical >= base + POOL_TABLES * PAGE_SIZE || physical % PAGE_SIZE != 0 {
        return Err(InvalidMapping);
      }
      return Ok((physical - base) / PAGE_SIZE);
    }

    method EnsureChild(parent: u64, i: TableIndex) returns (child: Result<u64, IsolationError>)
      requires Valid()
      modifies this`used, tables
      ensures Valid() && (Value(), child) == B.EnsureChild(old(Value()), parent, i)
    {
      hide Present, Address, Entry;
      var table := FindTable(parent);
      match table {
        case Err(e) => return Err(e);
        case Ok(t) =>
          var existing := tables[t][i];
          if Present(existing) {
            return Ok(Address(existing));
          }
          child := AllocateTable();
          match child {
            case Err(_) => return;
            case Ok(address) => tables[t] := tables[t][i := Entry(address, LINK_FLAGS)];
          }
      }
    }

    method LeafSlot(root: u64, address: u64) returns (leaf: Result<u64, IsolationError>)
      requires Valid()
      modifies this`used, tables
      ensures Valid() && (Value(), leaf) == B.LeafSlot(old(Value()), root, address)
    {
      hide B.EnsureChild, Pml4Index, Pml3Index, Pml2Index;
      var pml3 := EnsureChild(root, Pml4Index(address));
      match pml3 {
        case Err(e) => return Err(e);
        case Ok(t3) =>
          var pml2 := EnsureChild(t3, Pml3Index(address));
          match pml2 {
            case Err(e) => return Err(e);
            case Ok(t2) => leaf := EnsureChild(t2, Pml2Index(address));
          }
      }
    }

    method MapPage(root: u64, address: u64, physical: u64, flags: Flags) returns (mapped: Outcome<IsolationError>)
      requires Valid()
      modifies this`used, tables
      ensures Valid() && (Value(), mapped) == B.MapPage(old(Value()), root, address, physical, flags)
    {
      hide B.LeafSlot, Pml1Index, Present, Entry;
      if address % PAGE_SIZE != 0 || physical % PAGE_SIZE != 0 {
        return Fail(InvalidMapping);
      }
      var slot := LeafSlot(root, address);
      match slot {
        case Err(e) => return Fail(e);
        case Ok(leaf) =>
          var table := FindTable(leaf);
          match table {
            case Err(e) => return Fail(e);
            case Ok(t) =>
              if Present(tables[t][Pml1Index(address)]) {
                return Fail(DuplicateMapping);
              }
              tables[t] := tables[t][Pml1Index(address) := Entry(physical, flags)];
              return Pass;
          }
      }
    }

    method MapRange(root: u64, v: u64, p: u64, length: u64, flags: Flags) returns (mapped: Outcome<IsolationError>)
      requires Valid() && v + length <= U64_MAX && p + length <= U64_MAX
      modifies this`used, tables
      ensures Valid() && (Value(), mapped) == B.MapRange(old(Value()), root, v, p, length, flags)
    {
      hide B.MapPage;
      if length == 0 || v % PAGE_SIZE != 0 || p % PAGE_SIZE != 0 || length % PAGE_SIZE != 0 {
        return Fail(InvalidKernelLayout);
      }
      var pages := length / PAGE_SIZE;
      assert pages * PAGE_SIZE == length;
      var i := 0;
      while i < pages
        invariant 0 <= i <= pages && Valid()
        invariant MapPages(Value(), root, v, p, flags, pages, i) == MapPages(old(Value()), root, v, p, flags, pages, 0)
      {
        mapped := MapPage(root, v + i * PAGE_SIZE, p + i * PAGE_SIZE, flags);
        if mapped.Fail? {
          return;
        }
        i := i + 1;
      }
      return Pass;
    }

    method EntryFor(root: u64, address: u64) returns (entry: Option<u64>)
      requires Valid()
      ensures entry == B.EntryFor(Value(), root, address)
    {
      hide Present, Address, Pml4Index, Pml3Index, Pml2Index, Pml1Index;
      var table := FindTable(root);
      match table {
        case Err(_) => return None;
        case Ok(t4) =>
          var t3 := Descend(t4, Pml4Index(address));
          if t3.None? {
            return None;
          }
          var t2 := Descend(t3.value, Pml3Index(address));
          if t2.None? {
            return None;
          }
          var t1 := Descend(t2.value, Pml2Index(address));
          if t1.None? {
            return None;
          }
          return Some(tables[t1.value][Pml1Index(address)]);
      }
    }

    method Descend(t: nat, i: TableIndex) returns (child: Option<nat>)
      requires Valid() && t < POOL_TABLES
      ensures child == Child(Value(), t, i)
    {
      if !Present(tables[t][i]) {
        return None;
      }
      var table := FindTable(Address(tables[t][i]));
      match table
      case Err(_) => return None;
      case Ok(c) => return Some(c);
    }
  }
}
