/** Per-core STREAM and COW faults of coreinit/pagefault_aarch64.c: the three
    translation tables, the fault handler, and the CPU that walks, faults and
    retries. Translation-cache maintenance is not modelled: a walk always sees
    the tables as they are. */
module PageFault {
  import opened Words

  const PAGE: nat := 0x1000
  const REGION: nat := 0x20_0000
  const GIB: nat := 0x4000_0000
  const VA_LIMIT: nat := 0x80_0000_0000
  const RAM_BASE: nat := 0x4000_0000
  const RAM_END: nat := 0x8000_0000
  const RAM_PAGE: nat := 0x4_0000
  const RAM_PAGE_END: nat := 0x8_0000
  const ENTRIES: nat := 512
  const MAX_STREAMED: nat := 16
  const MAX_COW: nat := 16
  const COW_POOL: nat := 4

  /** A descriptor, bit field by bit field: VALID is bit 0, `table` is bit 1 (a
      table above level 3, a page at level 3), READ_ONLY is bit 7, the output frame
      is bits 12-47 (ADDR_MASK). The attributes are the memory type index (bits
      2-4), the shareability (bits 8-9), the access flag (bit 10), PXN (bit 53)
      and UXN (bit 54). Every other bit is zero in every word the code builds. */
  datatype Attributes = Attributes(memory: nat, shareable: nat, accessed: bool, pxn: bool, uxn: bool)

  datatype Descriptor = Descriptor(valid: bool, table: bool, readOnly: bool, attributes: Attributes, frame: nat)

  /** NORMAL_MEMORY, INNER_SHAREABLE, ACCESS_FLAG and UXN. */
  const FLAGS := Attributes(1, 3, true, false, true)
  const NO_FLAGS := Attributes(0, 0, false, false, false)

  type Page = p: seq<byte> | |p| == PAGE witness seq(PAGE, _ => 0)

  /** One core: its tables, the pf_ fields of its core_state and physical memory
      by frame. `l1Frame`, `l2Frame`, `l3Frame` and `pool` say where the core's
      own storage lies; the tables themselves are kept apart from `mem`. */
  datatype Core = Core(
    l1: seq<Descriptor>, l2: seq<Descriptor>, l3: seq<Descriptor>,
    l1Frame: nat, l2Frame: nat, l3Frame: nat, pool: seq<nat>,
    splitBase: nat, haveSplit: bool, ready: bool,
    streamed: seq<nat>, cow: seq<nat>, cowUsed: nat,
    mem: map<nat, Page>)

  // ---------------------------------------------------------------- the walk

  datatype Walked = Leaf(level: nat, d: Descriptor, pa: nat) | Miss(level: nat)

  ghost predicate Sized(c: Core) { |c.l1| == ENTRIES && |c.l2| == ENTRIES && |c.l3| == ENTRIES && |c.pool| == COW_POOL }

  function L2Index(va: nat): (i: nat) ensures i < ENTRIES { (va / REGION) % ENTRIES }

  function L3Index(va: nat): (i: nat) ensures i < ENTRIES { (va / PAGE) % ENTRIES }

  /** The hardware's walk with a 4 KiB granule, starting at level 1. */
  function Walk(c: Core, va: nat): Walked
    requires |c.l1| == ENTRIES && |c.l2| == ENTRIES && |c.l3| == ENTRIES && va < VA_LIMIT
  {
    var d1 := c.l1[va / GIB];
    if !d1.valid then Miss(1)
    else if !d1.table then Leaf(1, d1, d1.frame / 0x4_0000 * GIB + va % GIB)
    else if d1.frame != c.l2Frame then Miss(1)
    else
      var d2 := c.l2[L2Index(va)];
      if !d2.valid then Miss(2)
      else if !d2.table then Leaf(2, d2, d2.frame / 0x200 * REGION + va % REGION)
      else if d2.frame != c.l3Frame then Miss(2)
      else
        var d3 := c.l3[L3Index(va)];
        if d3.valid && d3.table then Leaf(3, d3, d3.frame * PAGE + va % PAGE) else Miss(3)
  }

  /** What a walk means for the program: an address and its attributes. */
  datatype Translation = To(pa: nat, readOnly: bool, attributes: Attributes) | Nowhere

  function Translate(c: Core, va: nat): Translation
    requires |c.l1| == ENTRIES && |c.l2| == ENTRIES && |c.l3| == ENTRIES && va < VA_LIMIT
  {
    match Walk(c, va)
    case Leaf(_, d, pa) => To(pa, d.readOnly, d.attributes)
    case Miss(_) => Nowhere
  }

  // ---------------------------------------------------------------- splitting

  /** The block descriptor of the RAM gigabyte, as arch_mmu_enable_identity_map leaves it. */
  const RAM_BLOCK := Descriptor(true, false, false, FLAGS, RAM_PAGE)

  function Block(i: nat): Descriptor { Descriptor(true, false, false, FLAGS, RAM_PAGE + i * 0x200) }

  function TableAt(frame: nat): Descriptor { Descriptor(true, true, false, NO_FLAGS, frame) }

  function PageEntry(base: nat, i: nat): Descriptor { Descriptor(true, true, false, FLAGS, base / PAGE + i) }

  const SPLIT_STORES: nat := 1026

  /** pagefault_split_region after its first k table stores: the level-2 blocks,
      the level-1 table entry, the level-3 pages, then the level-2 table entry. */
  function SplitStores(c: Core, base: nat, k: nat): (c': Core)
    requires |c.l1| == ENTRIES && |c.l2| == ENTRIES && |c.l3| == ENTRIES && k <= SPLIT_STORES
    ensures |c'.l1| == ENTRIES && |c'.l2| == ENTRIES && |c'.l3| == ENTRIES
    decreases k
  {
    if k == 0 then c
    else
      var p := SplitStores(c, base, k - 1);
      if k <= 512 then p.(l2 := p.l2[k - 1 := Block(k - 1)])
      else if k == 513 then p.(l1 := p.l1[1 := TableAt(c.l2Frame)])
      else if k <= 1025 then p.(l3 := p.l3[k - 514 := PageEntry(base, k - 514)])
      else p.(l2 := p.l2[L2Index(base) := TableAt(c.l3Frame)])
  }

  /** The guards of pagefault_split_region. */
  predicate MaySplit(c: Core, base: nat)
    requires |c.l1| == ENTRIES
  {
    && c.ready && base % REGION == 0 && RAM_BASE <= base < RAM_END && !c.haveSplit
    && c.l1[1].valid && !c.l1[1].table
  }

  /** What holds part way through the stores. */
  ghost predicate Splitting(c: Core, p: Core, base: nat, k: nat) {
    && Sized(p) && Sized(c) && p.l2Frame == c.l2Frame && p.l3Frame == c.l3Frame
    && (forall i :: 0 <= i < ENTRIES && i != 1 ==> p.l1[i] == c.l1[i])
    && (k < 513 ==> p.l1[1] == c.l1[1])
    && (k >= 513 ==> p.l1[1] == TableAt(c.l2Frame))
    && (forall i :: 0 <= i < ENTRIES && i < k && (k < 1026 || i != L2Index(base)) ==> p.l2[i] == Block(i))
    && (k == 1026 ==> p.l2[L2Index(base)] == TableAt(c.l3Frame))
    && (forall i :: 0 <= i < ENTRIES && i + 513 < k ==> p.l3[i] == PageEntry(base, i))
  }

  lemma {:induction false} SplitProgress(c: Core, base: nat, k: nat)
    requires Sized(c) && k <= SPLIT_STORES
    ensures Splitting(c, SplitStores(c, base, k), base, k)
    decreases k
  {
    if k > 0 { SplitProgress(c, base, k - 1); }
  }

  lemma BlockAddress(va: nat)
    requires RAM_BASE <= va < RAM_END
    ensures va / GIB == 1 && RAM_BASE + va % GIB == va
    ensures RAM_BASE + L2Index(va) * REGION + va % REGION == va
  {
  }

  lemma PageAddress(va: nat, base: nat)
    requires RAM_BASE <= va < RAM_END && RAM_BASE <= base < RAM_END && base % REGION == 0
    ensures L2Index(va) == L2Index(base) <==> base <= va < base + REGION
    ensures base <= va < base + REGION ==> (base / PAGE + L3Index(va)) * PAGE + va % PAGE == va
  {
    assert va == RAM_BASE + L2Index(va) * REGION + va % REGION by { BlockAddress(va); }
    assert base == RAM_BASE + L2Index(base) * REGION by { BlockAddress(base); }
    assert base == base / PAGE * PAGE;
  }

  /** The identity translation of ordinary RAM. */
  function Identity(va: nat): Translation { To(va, false, FLAGS) }

  lemma ThroughBlock1(c: Core, va: nat)
    requires Sized(c) && RAM_BASE <= va < RAM_END && c.l1[1] == RAM_BLOCK
    ensures Translate(c, va) == Identity(va)
  {
    BlockAddress(va);
  }

  lemma ThroughBlock2(c: Core, va: nat)
    requires Sized(c) && RAM_BASE <= va < RAM_END && c.l1[1] == TableAt(c.l2Frame)
    requires c.l2[L2Index(va)] == Block(L2Index(va))
    ensures Translate(c, va) == Identity(va)
  {
    BlockAddress(va);
    assert (RAM_PAGE + L2Index(va) * 0x200) / 0x200 == 0x200 + L2Index(va);
  }

  lemma ThroughPage(c: Core, va: nat)
    requires Sized(c) && RAM_BASE <= va < RAM_END && c.l1[1] == TableAt(c.l2Frame)
    requires c.l2[L2Index(va)] == TableAt(c.l3Frame)
    ensures var d := c.l3[L3Index(va)];
            Walk(c, va) == if d.valid && d.table then Leaf(3, d, d.frame * PAGE + va % PAGE) else Miss(3)
  {
    BlockAddress(va);
  }

  /** After every single store of a split, every RAM address still translates to
      itself with the same attributes. */
  lemma SplitKeepsTranslation(c: Core, base: nat, k: nat, va: nat)
    requires Sized(c) && MaySplit(c, base) && c.l1[1] == RAM_BLOCK && k <= SPLIT_STORES
    requires RAM_BASE <= va < RAM_END
    ensures Translate(SplitStores(c, base, k), va) == Translate(c, va) == Identity(va)
  {
    SplitProgress(c, base, k);
    var p := SplitStores(c, base, k);
    ThroughBlock1(c, va);
    if k < 513 {
      ThroughBlock1(p, va);
    } else if k < 1026 || L2Index(va) != L2Index(base) {
      ThroughBlock2(p, va);
    } else {
      ThroughPage(p, va);
      PageAddress(va, base);
    }
  }

  /** Addresses outside the gigabyte are not even looked up through the new tables. */
  lemma SplitSparesOthers(c: Core, base: nat, k: nat, va: nat)
    requires Sized(c) && k <= SPLIT_STORES && va < VA_LIMIT && va / GIB != 1
    requires !c.l1[va / GIB].table
    ensures Translate(SplitStores(c, base, k), va) == Translate(c, va)
  {
    SplitProgress(c, base, k);
  }

  /** The outcome of pagefault_split_region. */
  function Split(c: Core, base: nat): (Core, bool)
    requires |c.l1| == ENTRIES && |c.l2| == ENTRIES && |c.l3| == ENTRIES
  {
    if MaySplit(c, base) then
      (SplitStores(c, base, SPLIT_STORES).(splitBase := base, haveSplit := true), true)
    else (c, false)
  }

  // ---------------------------------------------------------------- marking pages

  /** page_entry: the address lies in the split region. */
  predicate InSplit(c: Core, addr: nat) {
    c.haveSplit && c.splitBase <= addr < c.splitBase + REGION
  }

  function Entry(c: Core, addr: nat): Descriptor
    requires |c.l3| == ENTRIES
  {
    c.l3[L3Index(addr)]
  }

  function SetEntry(c: Core, addr: nat, d: Descriptor): Core
    requires |c.l3| == ENTRIES
  {
    c.(l3 := c.l3[L3Index(addr) := d])
  }

  function Register(pages: seq<nat>, addr: nat): seq<nat> {
    if addr in pages then pages else pages + [addr]
  }

  predicate MayMark(c: Core, addr: nat, pages: seq<nat>, max: nat)
    requires |c.l3| == ENTRIES
  {
    c.ready && InSplit(c, addr) && Entry(c, addr).valid && (addr in pages || |pages| != max)
  }

  function MarkAbsent(c: Core, addr: nat): (Core, bool)
    requires |c.l3| == ENTRIES
  {
    if !MayMark(c, addr, c.streamed, MAX_STREAMED) then (c, false)
    else
      var d := Entry(c, addr);
      (SetEntry(c, addr, d.(valid := false)).(streamed := Register(c.streamed, addr)), true)
  }

  function MarkCow(c: Core, addr: nat): (Core, bool)
    requires |c.l3| == ENTRIES
  {
    if !MayMark(c, addr, c.cow, MAX_COW) then (c, false)
    else
      var d := Entry(c, addr);
      (SetEntry(c, addr, d.(readOnly := true)).(cow := Register(c.cow, addr)), true)
  }

  // ---------------------------------------------------------------- faulting and retrying

  /** A data abort at EL1: the fault status code, the WnR bit, the address. */
  datatype Fault = Fault(status: nat, write: bool, far: nat)

  function Fetch(c: Core, frame: nat): Page {
    if frame in c.mem then c.mem[frame] else seq(PAGE, _ => 0)
  }

  predicate Resumes(c: Core, f: Fault, page: nat)
    requires |c.l3| == ENTRIES
  {
    c.ready && InSplit(c, page) && 4 <= f.status <= 7 && page in c.streamed && !Entry(c, page).valid
  }

  predicate Copies(c: Core, f: Fault, page: nat)
    requires |c.l3| == ENTRIES
  {
    && c.ready && InSplit(c, page) && 12 <= f.status <= 15 && f.write && page in c.cow
    && Entry(c, page).readOnly && c.cowUsed < COW_POOL
  }

  /** pagefault_aarch64_handle: the core that retries, or None for the halt. */
  function Handle(c: Core, f: Fault): Option<Core>
    requires |c.l3| == ENTRIES && |c.pool| == COW_POOL
  {
    var page := f.far / PAGE * PAGE;
    var d := Entry(c, page);
    if Resumes(c, f, page) then Some(SetEntry(c, page, d.(valid := true)))
    else if Copies(c, f, page) then
      var dst := c.pool[c.cowUsed];
      Some(SetEntry(c, page, d.(readOnly := false, frame := dst))
           .(mem := c.mem[dst := Fetch(c, d.frame)], cowUsed := c.cowUsed + 1))
    else None
  }

  /** One attempt at a load or store: the physical address, or the fault taken. */
  datatype Attempt = Hit(pa: nat) | Trap(fault: Fault)

  function Try(c: Core, va: nat, write: bool): Attempt
    requires |c.l1| == ENTRIES && |c.l2| == ENTRIES && |c.l3| == ENTRIES && va < VA_LIMIT
  {
    match Walk(c, va)
    case Miss(l) => Trap(Fault(4 + l, write, va))
    case Leaf(l, d, pa) =>
      if !d.attributes.accessed then Trap(Fault(8 + l, write, va))
      else if write && d.readOnly then Trap(Fault(12 + l, write, va))
      else Hit(pa)
  }

  datatype Outcome = Done(core: Core, pa: nat, faults: nat) | Halted | StillFaulting

  /** Walk, fault, handle, retry, allowing `limit` faults. */
  function Access(c: Core, va: nat, write: bool, limit: nat): Outcome
    requires |c.l1| == ENTRIES && |c.l2| == ENTRIES && |c.l3| == ENTRIES && |c.pool| == COW_POOL && va < VA_LIMIT
    decreases limit
  {
    match Try(c, va, write)
    case Hit(pa) => Done(c, pa, 0)
    case Trap(f) =>
      if limit == 0 then StillFaulting
      else
        match Handle(c, f)
        case None => Halted
        case Some(c') =>
          match Access(c', va, write, limit - 1)
          case Done(r, pa, n) => Done(r, pa, n + 1)
          case other => other
  }

  function Load(c: Core, pa: nat): byte { Fetch(c, pa / PAGE)[pa % PAGE] }

  function Store(c: Core, pa: nat, b: byte): Core {
    c.(mem := c.mem[pa / PAGE := Fetch(c, pa / PAGE)[pa % PAGE := b]])
  }
}
