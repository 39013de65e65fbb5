/** Where a marked page halts the core: marks made through an unaligned address, and a copy
    pool that is used up; each with a reachable core on which it happens. */
module PageMarks {
  import opened Words
  import opened PageFault
  import opened PageView
  import opened PageRuns

  // ---------------------------------------------------------------- unaligned marks

  /** The page-aligned form of an address, which is what the handler looks up. */
  function PageAddr(addr: nat): nat { addr / PAGE * PAGE }

  ghost predicate OneOfPage(c: Core, addr: nat, va: nat) {
    && CoreOk(c) && RAM_BASE <= addr < RAM_END && RAM_BASE <= va < RAM_END && va / PAGE == addr / PAGE
  }

  /** An access through a valid entry completes, unless it is a store to a read-only page
      that is not recorded or for which no pool page is left. */
  lemma ValidEntryCompletesIff(c: Core, va: nat, write: bool, limit: nat)
    requires Sized(c) && TablesOk(c) && RAM_BASE <= va < RAM_END && InSplit(c, va) && 1 <= limit
    requires Entry(c, va).valid && Entry(c, va).table && Entry(c, va).attributes == FLAGS
    ensures var r := Access(c, va, write, limit);
            && (r.Done? <==> (write && Entry(c, va).readOnly ==> PageAddr(va) in c.cow && c.cowUsed < COW_POOL))
            && (!r.Done? ==> r == Halted)
  {
    PageOf(c, va);
    TryInside(c, va, write);
    var h := Handle(c, Fault(15, write, va));
    if write && Entry(c, va).readOnly && h.Some? {
      TryInside(h.value, va, write);
    }
  }

  /** pagefault_mark_absent records the address it is given, while the handler looks up the
      page. So an access to the page completes afterwards exactly when the address was
      page-aligned or the page had been recorded before, and a store to a page also marked
      for copying finds a pool page. */
  lemma UnalignedMarkHaltsIff(c: Core, addr: nat, va: nat, write: bool, limit: nat)
    requires OneOfPage(c, addr, va) && MarkAbsent(c, addr).1 && 2 <= limit
    ensures var r := Access(MarkAbsent(c, addr).0, va, write, limit);
            && (r.Done? <==> && (addr % PAGE == 0 || PageAddr(addr) in c.streamed)
                             && (write && Entry(c, addr).readOnly ==> c.cowUsed < COW_POOL))
            && (!r.Done? ==> r == Halted)
  {
    var c' := MarkAbsent(c, addr).0;
    PageOf(c, addr);
    PageOf(c, va);
    assert EntryOk(c, L3Index(addr));
    TryInside(c', va, write);
    assert PageAddr(va) in c'.streamed <==> addr % PAGE == 0 || PageAddr(va) in c.streamed;
    if PageAddr(va) in c'.streamed {
      var h := Handle(c', Fault(7, write, va)).value;
      OneFaultEarlier(c', va, write, limit);
      ValidEntryCompletesIff(h, va, write, limit - 1);
    }
  }

  /** pagefault_mark_cow has the same trait: afterwards every load completes, and a store
      exactly when the address was page-aligned or the page had been recorded before, and a
      pool page is left. */
  lemma UnalignedCowHaltsIff(c: Core, addr: nat, va: nat, limit: nat)
    requires OneOfPage(c, addr, va) && MarkCow(c, addr).1 && 1 <= limit
    ensures Access(MarkCow(c, addr).0, va, false, limit).Done?
    ensures var r := Access(MarkCow(c, addr).0, va, true, limit);
            && (r.Done? <==> (addr % PAGE == 0 || PageAddr(addr) in c.cow) && c.cowUsed < COW_POOL)
            && (!r.Done? ==> r == Halted)
  {
    var c' := MarkCow(c, addr).0;
    PageOf(c, addr);
    PageOf(c, va);
    assert EntryOk(c, L3Index(addr));
    assert PageAddr(va) in c'.cow <==> addr % PAGE == 0 || PageAddr(va) in c.cow;
    ValidEntryCompletesIff(c', va, false, limit);
    ValidEntryCompletesIff(c', va, true, limit);
  }

  // ---------------------------------------------------------------- reachable cores

  function ZeroPage(frame: nat): Page { seq(PAGE, _ => 0) }

  /** A core at boot, with its own storage below RAM. */
  function BootCore(): Core {
    var none := seq(ENTRIES, _ => Descriptor(false, false, false, NO_FLAGS, 0));
    Core(BootTable(0), none, none, 10, 11, 12, [20, 21, 22, 23], 0, false, true, [], [], 0,
         map p: nat | p < RAM_PAGE_END :: ZeroPage(p))
  }

  lemma BootCoreOk()
    ensures CoreOk(BootCore()) && Represents(BootCore(), View(BootCore().mem, map[], {}))
  {
    BootRefines(BootCore(), 0);
  }

  /** The first region is split, nothing is absent, and n pages were marked and then copied. */
  ghost predicate Stage(c: Core, v: View, n: nat) {
    && CoreOk(c) && Represents(c, v) && c.ready && c.haveSplit && c.splitBase == RAM_BASE
    && c.streamed == [] && |c.cow| == n && c.cowUsed == n && c.pool == [20, 21, 22, 23]
    && c.l1Frame == 10 && c.l2Frame == 11 && c.l3Frame == 12
    && forall a :: a in c.cow ==> a < RAM_BASE + n * PAGE
  }

  lemma SplitStage()
    ensures Do(BootCore(), SplitRegion(RAM_BASE)).1 == Flag(true)
    ensures Stage(Do(BootCore(), SplitRegion(RAM_BASE)).0, View(BootCore().mem, map[], {}), 0)
  {
    var c := BootCore();
    BootCoreOk();
    SplitIsInvisible(c, View(c.mem, map[], {}), RAM_BASE);
    SplitFrame(c, RAM_BASE, SPLIT_STORES);
  }

  /** The n-th page of the region. */
  function Nth(n: nat): nat { RAM_PAGE + n }

  lemma NthIsUser(c: Core, v: View, n: nat)
    requires Stage(c, v, n) && n <= COW_POOL
    ensures User(c, Nth(n)) && InSplitPage(c, Nth(n)) && Nth(n) * PAGE !in c.cow
    ensures Entry(c, Nth(n) * PAGE).valid && !Marked(c, Nth(n))
  {
    PageOf(c, Nth(n) * PAGE);
    assert EntryOk(c, L3Index(Nth(n) * PAGE));
  }

  lemma MarkNext(c: Core, v: View, n: nat)
    requires Stage(c, v, n) && n <= COW_POOL
    ensures Allowed(c, Cow(Nth(n))) && Do(c, Cow(Nth(n))).1 == Flag(true)
    ensures var c' := Do(c, Cow(Nth(n))).0;
            && CoreOk(c') && Represents(c', v.(marked := v.marked + {Nth(n)}))
            && c'.cow == c.cow + [Nth(n) * PAGE]
            && c' == c.(l3 := c'.l3, cow := c'.cow)
  {
    NthIsUser(c, v, n);
    MarkCowMarks(c, v, Nth(n));
  }

  /** A store to a marked page spends one pool page and leaves the layout alone. */
  lemma StoreMarked(c: Core, v: View, p: nat)
    requires CoreOk(c) && Represents(c, v) && User(c, p) && p in v.marked && c.cowUsed < COW_POOL
    ensures Allowed(c, Write(p * PAGE, 0)) && Do(c, Write(p * PAGE, 0)).1 == Unit && Holds(v, p)
    ensures var c' := Do(c, Write(p * PAGE, 0)).0;
            && CoreOk(c') && Represents(c', WriteView(v, p, 0, 0)) && c'.cowUsed == c.cowUsed + 1
            && c' == c.(l3 := c'.l3, mem := c'.mem, cowUsed := c'.cowUsed)
  {
    WriteRefines(c, v, p * PAGE, 0, LIMIT);
    AccessFrame(c, p * PAGE, true, LIMIT);
  }

  lemma StoreNext(c: Core, v: View, n: nat, c1: Core) returns (v': View)
    requires Stage(c, v, n) && n < COW_POOL && c1 == Do(c, Cow(Nth(n))).0
    ensures Sized(c1) && Allowed(c1, Write(Nth(n) * PAGE, 0))
    ensures Stage(Do(c1, Write(Nth(n) * PAGE, 0)).0, v', n + 1)
  {
    var v1 := v.(marked := v.marked + {Nth(n)});
    MarkNext(c, v, n);
    NthIsUser(c, v, n);
    StoreMarked(c1, v1, Nth(n));
    v' := WriteView(v1, Nth(n), 0, 0);
  }

  datatype Trace = Trace(cs: seq<Core>, ops: seq<Op>, replies: seq<Reply>)

  ghost predicate FromBoot(t: Trace) { IsRun(t.cs, t.ops, t.replies) && t.cs[0] == BootCore() }

  ghost function Last(t: Trace): Core
    requires FromBoot(t)
  {
    t.cs[|t.ops|]
  }

  lemma Extend(t: Trace, op: Op) returns (t': Trace)
    requires FromBoot(t) && Allowed(Last(t), op) && Sized(Do(Last(t), op).0)
    ensures FromBoot(t') && Last(t') == Do(Last(t), op).0
  {
    var (c', r) := Do(Last(t), op);
    t' := Trace(t.cs + [c'], t.ops + [op], t.replies + [r]);
  }

  /** A run from boot that has spent n pool pages. */
  lemma {:induction false} SpendPool(n: nat) returns (t: Trace, v: View)
    requires n <= COW_POOL
    ensures FromBoot(t) && Stage(Last(t), v, n)
  {
    if n == 0 {
      SplitStage();
      BootCoreOk();
      t := Extend(Trace([BootCore()], [], []), SplitRegion(RAM_BASE));
      v := View(BootCore().mem, map[], {});
    } else {
      t, v := SpendPool(n - 1);
      var c, u := Last(t), v;
      MarkNext(c, u, n - 1);
      v := StoreNext(c, u, n - 1, Do(c, Cow(Nth(n - 1))).0);
      t := Extend(t, Cow(Nth(n - 1)));
      t := Extend(t, Write(Nth(n - 1) * PAGE, 0));
    }
  }

  /** After four copies a fifth mark is still accepted, and the store to that page halts. */
  lemma PoolRunsOut() returns (t: Trace, va: nat)
    ensures FromBoot(t) && |t.ops| > 0 && t.ops[|t.ops| - 1] == Cow(va / PAGE) && t.replies[|t.ops| - 1] == Flag(true)
    ensures va < VA_LIMIT && Access(Last(t), va, true, LIMIT) == Halted
  {
    var v;
    t, v := SpendPool(COW_POOL);
    var c := Last(t);
    va := Nth(COW_POOL) * PAGE;
    MarkNext(c, v, COW_POOL);
    NthIsUser(c, v, COW_POOL);
    var (c', r) := Do(c, Cow(Nth(COW_POOL)));
    WriteHalts(c', v.(marked := v.marked + {Nth(COW_POOL)}), va, LIMIT);
    t := Trace(t.cs + [c'], t.ops + [Cow(Nth(COW_POOL))], t.replies + [r]);
  }

  /** On the core that has just split its first region, marks one byte into the first page
      are accepted; then no access to the absent page completes, and no store to the
      copy-on-write one. */
  lemma UnalignedMarksHalt()
    ensures var c, addr := Do(BootCore(), SplitRegion(RAM_BASE)).0, RAM_BASE + 1;
            && Sized(c) && MarkAbsent(c, addr).1 && MarkCow(c, addr).1
            && (forall write :: Access(MarkAbsent(c, addr).0, RAM_BASE, write, LIMIT) == Halted)
            && Access(MarkCow(c, addr).0, RAM_BASE, true, LIMIT) == Halted
  {
    SplitStage();
    var c, addr := Do(BootCore(), SplitRegion(RAM_BASE)).0, RAM_BASE + 1;
    PageOf(c, addr);
    assert EntryOk(c, L3Index(addr));
    forall write
      ensures Access(MarkAbsent(c, addr).0, RAM_BASE, write, LIMIT) == Halted
    {
      UnalignedMarkHaltsIff(c, addr, RAM_BASE, write, LIMIT);
    }
    UnalignedCowHaltsIff(c, addr, RAM_BASE, LIMIT);
  }
}
