/**
 Page-table words of x86-64 4-level paging (Intel SDM volume 3A, section 4.5): the fields of
 an entry, the four index fields of an address, and the translation a user access gets.
 */
module PageTables {
  import opened Words

  const ADDRESS_LIMIT: int := 0x10_0000_0000_0000
  const NO_EXECUTE_BIT: int := 0x8000_0000_0000_0000

  function ZeroPage(): (page: seq<u64>)
    ensures |page| == 512 && forall i :: 0 <= i < 512 ==> page[i] == 0
  {
    seq(512, _ => 0)
  }

  /** One page of memory as its 512 words. */
  type Page = page: seq<u64> | |page| == 512 witness ZeroPage()

  type TableIndex = i: nat | i < 512

  function Pml4Index(address: nat): TableIndex { address / 0x80_0000_0000 % 512 }
  function Pml3Index(address: nat): TableIndex { address / 0x4000_0000 % 512 }
  function Pml2Index(address: nat): TableIndex { address / 0x20_0000 % 512 }
  function Pml1Index(address: nat): TableIndex { address / 0x1000 % 512 }

  datatype IsolationError =
    | InvalidKernelLayout | BootstrapPoolExhausted | InvalidMapping | DuplicateMapping | MissingMapping
    | TemporaryWindowBusy | TemporaryWindowLeaked | ReachableFrame | FrameAllocation | FrameReturn

  predicate Present(entry: u64) { entry % 2 == 1 }
  predicate Writable(entry: u64) { entry / 2 % 2 == 1 }
  predicate User(entry: u64) { entry / 4 % 2 == 1 }
  predicate Large(entry: u64) { entry / 128 % 2 == 1 }
  predicate NoExecute(entry: u64) { entry / NO_EXECUTE_BIT == 1 }

  /** The entry under the mask of physical address bits 12 to 51. */
  function Address(entry: u64): (address: u64)
    ensures address % PAGE_SIZE == 0 && address < ADDRESS_LIMIT
  {
    entry / PAGE_SIZE % 0x100_0000_0000 * PAGE_SIZE
  }

  /** Sets one bit of a word. */
  function OrBit(word: u64, bit: u64): (r: u64)
    requires bit == 1 || bit == 2 || bit == 4 || bit == 0x8000_0000_0000_0000
    ensures r == word || r == word + bit
  {
    if word / bit % 2 == 1 then word else assert word + bit <= U64_MAX; word + bit
  }

  /** Permissions of an entry beside its present bit. */
  datatype Flags = Flags(writable: bool, user: bool, noExecute: bool)

  /** `address` combined bitwise with the present bit and the permissions. */
  function Entry(address: u64, flags: Flags): u64 {
    var present := OrBit(address, 1);
    var writable := if flags.writable then OrBit(present, 2) else present;
    var user := if flags.user then OrBit(writable, 4) else writable;
    if flags.noExecute then OrBit(user, NO_EXECUTE_BIT) else user
  }

  /** An aligned address inside the mask and the permissions are read back from the entry. */
  lemma EntryFields(address: u64, flags: Flags)
    requires address % PAGE_SIZE == 0 && address < ADDRESS_LIMIT
    ensures var e := Entry(address, flags);
            && Present(e) && Address(e) == address && !Large(e)
            && Writable(e) == flags.writable && User(e) == flags.user && NoExecute(e) == flags.noExecute
  {
    hide Entry, Sum, Present, Address, Large, Writable, User, NoExecute;
    EntryIsSum(address, flags);
    SumFields(address / PAGE_SIZE, flags);
  }

  /** The word with the given page number and permissions, every field in its place. */
  function Sum(page: nat, flags: Flags): int {
    page * 4096 + 1 + (if flags.writable then 2 else 0) + (if flags.user then 4 else 0)
    + if flags.noExecute then NO_EXECUTE_BIT else 0
  }

  lemma EntryIsSum(address: u64, flags: Flags)
    requires address % PAGE_SIZE == 0 && address < ADDRESS_LIMIT
    ensures Entry(address, flags) == Sum(address / PAGE_SIZE, flags)
  {
    var page := address / PAGE_SIZE;
    assert address == page * 4096;
    assert OrBit(address, 1) == address + 1;
    assert OrBit(address + 1, 2) == address + 3;
    assert OrBit(address + 1, 4) == address + 5;
    assert OrBit(address + 3, 4) == address + 7;
  }

  lemma SumFields(page: nat, flags: Flags)
    requires page < 0x100_0000_0000
    ensures var e := Sum(page, flags);
            && 0 <= e <= U64_MAX
            && Present(e) && Address(e) == page * PAGE_SIZE && !Large(e)
            && Writable(e) == flags.writable && User(e) == flags.user && NoExecute(e) == flags.noExecute
  {
    var w, u, high := if flags.writable then 1 else 0, if flags.user then 1 else 0, if flags.noExecute then 1 else 0;
    var rest := page * 512 + high * 0x1000_0000_0000_0000;
    HighFields(page, 1 + w * 2 + u * 4, high);
    LowFields(rest, 1, w, u);
    assert Sum(page, flags) == page * 4096 + (1 + w * 2 + u * 4) + high * NO_EXECUTE_BIT;
    assert Sum(page, flags) == rest * 8 + u * 4 + w * 2 + 1;
  }

  lemma HighFields(page: nat, low: nat, high: nat)
    requires page < 0x100_0000_0000 && low < 8 && high < 2
    ensures var e := page * 4096 + low + high * NO_EXECUTE_BIT;
            e / PAGE_SIZE % 0x100_0000_0000 == page && e / NO_EXECUTE_BIT == high && e / 128 % 2 == 0
  {
    var e := page * 4096 + low + high * NO_EXECUTE_BIT;
    PageField(page, low, high);
    Quotient(e, high, page * 4096 + low, NO_EXECUTE_BIT);
    Quotient(e, page * 32 + high * 0x100_0000_0000_0000, low, 128);
    Quotient(page * 32 + high * 0x100_0000_0000_0000, page * 16 + high * 0x80_0000_0000_0000, 0, 2);
  }

  lemma PageField(page: nat, low: nat, high: nat)
    requires page < 0x100_0000_0000 && low < 8 && high < 2
    ensures (page * 4096 + low + high * NO_EXECUTE_BIT) / PAGE_SIZE % 0x100_0000_0000 == page
  {
    var e := page * 4096 + low + high * NO_EXECUTE_BIT;
    Quotient(e, page + high * 0x8_0000_0000_0000, low, 4096);
    Quotient(page + high * 0x8_0000_0000_0000, high * 2048, page, 0x100_0000_0000);
  }

  lemma Quotient(n: nat, q: nat, r: nat, d: nat)
    requires 0 < d && r < d && n == q * d + r
    ensures n / d == q && n % d == r
  {
    var k := n / d - q;
    assert n == n / d * d + n % d;
    assert k * d == r - n % d;
    Multiple(k, d);
  }

  lemma Multiple(k: int, d: int)
    requires 0 < d
    ensures k >= 1 ==> k * d >= d
    ensures k <= -1 ==> k * d <= -d
  {
    if k >= 1 {
      assert (k - 1) * d >= 0;
    }
    if k <= -1 {
      assert (k + 1) * d <= 0;
    }
  }

  lemma LowFields(rest: nat, b0: nat, b1: nat, b2: nat)
    requires b0 < 2 && b1 < 2 && b2 < 2
    ensures var e := rest * 8 + b2 * 4 + b1 * 2 + b0;
            e % 2 == b0 && e / 2 % 2 == b1 && e / 4 % 2 == b2
  {
    var e := rest * 8 + b2 * 4 + b1 * 2 + b0;
    Quotient(e, rest * 4 + b2 * 2 + b1, b0, 2);
    Quotient(rest * 4 + b2 * 2 + b1, rest * 2 + b2, b1, 2);
    Quotient(e, rest * 2 + b2, b1 * 2 + b0, 4);
    Quotient(rest * 2 + b2, rest, b2, 2);
  }
}
