/** Whole runs of one core: any sequence of splits, marks, loads and stores by
    this core, and changes to shared pages by the others. */
module PageRuns {
  import opened Words
  import opened PageFault
  import opened PageView

  datatype Op =
    | SplitRegion(base: nat)
    | Absent(p: nat)
    | Cow(p: nat)
    | Read(va: nat)
    | Write(va: nat, b: byte)
    | Elsewhere(p: nat, page: Page)   // another core rewrites a shared page

  datatype Reply = Flag(ok: bool) | Got(b: byte) | Unit | Stuck

  /** The two faults the handler can resolve are enough; see ReadRefines and WriteRefines. */
  const LIMIT: nat := 2

  function Do(c: Core, op: Op): (Core, Reply)
    requires |c.l1| == ENTRIES && |c.l2| == ENTRIES && |c.l3| == ENTRIES && |c.pool| == COW_POOL
  {
    match op
    case SplitRegion(base) => var (c', ok) := Split(c, base); (c', Flag(ok))
    case Absent(p) => var (c', ok) := MarkAbsent(c, p * PAGE); (c', Flag(ok))
    case Cow(p) => var (c', ok) := MarkCow(c, p * PAGE); (c', Flag(ok))
    case Read(va) =>
      if va >= VA_LIMIT then (c, Stuck)
      else
        var r := Access(c, va, false, LIMIT);
        if r.Done? then (r.core, Got(Load(r.core, r.pa))) else (c, Stuck)
    case Write(va, b) =>
      if va >= VA_LIMIT then (c, Stuck)
      else
        var r := Access(c, va, true, LIMIT);
        if r.Done? then (Store(r.core, r.pa, b), Unit) else (c, Stuck)
    case Elsewhere(p, page) => (c.(mem := c.mem[p := page]), Unit)
  }

  /** The program stays on user pages, and the pool has a page when one is needed. */
  ghost predicate Allowed(c: Core, op: Op)
    requires |c.l3| == ENTRIES
  {
    match op
    case SplitRegion(_) => true
    case Absent(p) => User(c, p)
    case Cow(p) => User(c, p)
    case Read(va) => RAM_BASE <= va < RAM_END && User(c, va / PAGE)
    case Write(va, _) =>
      RAM_BASE <= va < RAM_END && User(c, va / PAGE) && (Marked(c, va / PAGE) ==> c.cowUsed < COW_POOL)
    case Elsewhere(p, _) => User(c, p)
  }

  /** The same step on the plain memory. Splitting and STREAM marks are invisible;
      whether a COW mark was accepted is taken from the reply. */
  function DoView(v: View, op: Op, reply: Reply): View {
    match op
    case Cow(p) => if reply == Flag(true) then v.(marked := v.marked + {p}) else v
    case Write(va, b) =>
      if va / PAGE in v.mine || va / PAGE in v.shared then WriteView(v, va / PAGE, va % PAGE, b) else v
    case Elsewhere(p, page) => v.(shared := v.shared[p := page])
    case _ => v
  }

  ghost predicate Matches(v: View, op: Op, reply: Reply) {
    match op
    case Read(va) => Holds(v, va / PAGE) && reply == Got(ReadView(v, va / PAGE, va % PAGE))
    case Write(_, _) => reply == Unit
    case _ => reply != Stuck
  }

  // ---------------------------------------------------------------- steps

  lemma SplitEntries(c: Core, base: nat)
    requires Sized(c) && MaySplit(c, base)
    ensures var c' := Split(c, base).0;
            && c'.mem == c.mem && c'.pool == c.pool && c'.cowUsed == c.cowUsed && c'.ready
            && c'.haveSplit && c'.splitBase == base && Splitting(c, c', base, SPLIT_STORES)
            && c'.l1Frame == c.l1Frame
  {
    SplitProgress(c, base, SPLIT_STORES);
    SplitFrame(c, base, SPLIT_STORES);
  }

  lemma {:induction false} SplitFrame(c: Core, base: nat, k: nat)
    requires |c.l1| == ENTRIES && |c.l2| == ENTRIES && |c.l3| == ENTRIES && k <= SPLIT_STORES
    ensures var c' := SplitStores(c, base, k); c' == c.(l1 := c'.l1, l2 := c'.l2, l3 := c'.l3)
    decreases k
  {
    if k > 0 { SplitFrame(c, base, k - 1); }
  }

  lemma SplitIsInvisible(c: Core, v: View, base: nat)
    requires CoreOk(c) && Represents(c, v)
    ensures CoreOk(Split(c, base).0) && Represents(Split(c, base).0, v)
  {
    if MaySplit(c, base) {
      SplitEntries(c, base);
      var c' := Split(c, base).0;
      assert forall i: nat :: i < ENTRIES ==> c'.l3[i] == PageEntry(base, i);
      forall i: nat | i < ENTRIES
        ensures EntryOk(c', i) && !Private(c', i)
      {
        assert c'.l3[i] == PageEntry(base, i);
      }
      forall p: nat | User(c', p)
        ensures Shows(c', v, p)
      {
        assert Shows(c, v, p);
        if InSplitPage(c', p) { PageOf(c', p * PAGE); }
      }
    }
  }

  lemma ElsewhereKeeps(c: Core, v: View, p: nat, page: Page)
    requires CoreOk(c) && Represents(c, v) && User(c, p)
    ensures var c' := c.(mem := c.mem[p := page]);
            CoreOk(c') && Represents(c', v.(shared := v.shared[p := page]))
  {
    var c', v' := c.(mem := c.mem[p := page]), v.(shared := v.shared[p := page]);
    forall i: nat | i < ENTRIES && c.haveSplit
      ensures EntryOk(c', i) && Private(c', i) == Private(c, i)
    {
      assert EntryOk(c, i);
    }
    forall q: nat | User(c', q)
      ensures Shows(c', v', q)
    {
      assert Shows(c, v, q);
      if Copied(c, q) {
        PageOf(c, q * PAGE);
        assert EntryOk(c, L3Index(q * PAGE));
      }
    }
  }

  /** One step of the core is one step of the plain memory, with the same reply. */
  lemma StepRefines(c: Core, v: View, op: Op)
    requires CoreOk(c) && Represents(c, v) && Allowed(c, op)
    ensures var (c', reply) := Do(c, op);
            CoreOk(c') && Represents(c', DoView(v, op, reply)) && Matches(v, op, reply)
  {
    match op
    case SplitRegion(base) => SplitIsInvisible(c, v, base);
    case Absent(p) => MarkAbsentInvisible(c, v, p);
    case Cow(p) => MarkCowMarks(c, v, p);
    case Read(va) => ReadRefines(c, v, va, LIMIT);
    case Write(va, b) =>
      assert Shows(c, v, va / PAGE);
      WriteRefines(c, v, va, b, LIMIT);
    case Elsewhere(p, page) => ElsewhereKeeps(c, v, p, page);
  }

  // ---------------------------------------------------------------- start-up

  /** The level-1 table arch_mmu_enable_identity_map builds at the default RAM
      base, for the kernel entry it is handed. */
  function BootTable(kernelEntry: nat): seq<Descriptor> {
    var device := Descriptor(true, false, false, Attributes(0, 0, true, true, true), 0);
    var t := seq(ENTRIES, i => if i == 1 then RAM_BLOCK
                               else if i == 0 || i == 2 || i == 3 then device.(frame := i * RAM_PAGE)
                               else Descriptor(false, false, false, NO_FLAGS, 0));
    var k := kernelEntry / GIB;
    if k < 4 then t[k := Descriptor(true, false, false, FLAGS, k * RAM_PAGE)] else t
  }

  /** A core starts out as plain memory with nothing private and nothing marked,
      whatever block the kernel was loaded in. */
  lemma BootRefines(c: Core, kernelEntry: nat)
    requires LayoutOk(c) && !c.haveSplit && c.l1 == BootTable(kernelEntry)
    ensures CoreOk(c) && Represents(c, View(c.mem, map[], {}))
  {
    forall p: nat | User(c, p)
      ensures Shows(c, View(c.mem, map[], {}), p)
    {
    }
  }

  // ---------------------------------------------------------------- runs

  ghost predicate IsRun(cs: seq<Core>, ops: seq<Op>, replies: seq<Reply>) {
    && |cs| == |ops| + 1 && |replies| == |ops|
    && (forall n :: 0 <= n < |cs| ==> Sized(cs[n]))
    && (forall n :: 0 <= n < |ops| ==> Allowed(cs[n], ops[n]) && (cs[n + 1], replies[n]) == Do(cs[n], ops[n]))
  }

  /** The plain memory after the first n steps. */
  function ViewAfter(v: View, ops: seq<Op>, replies: seq<Reply>, n: nat): View
    requires n <= |ops| && n <= |replies|
    decreases n
  {
    if n == 0 then v else DoView(ViewAfter(v, ops, replies, n - 1), ops[n - 1], replies[n - 1])
  }

  /** Every run of the core is a run of the plain memory: no access gets stuck, and
      every load returns what the plain memory holds at that moment. */
  lemma {:induction false} RunRefines(cs: seq<Core>, ops: seq<Op>, replies: seq<Reply>, v: View, n: nat)
    requires IsRun(cs, ops, replies) && CoreOk(cs[0]) && Represents(cs[0], v) && n <= |ops|
    ensures CoreOk(cs[n]) && Represents(cs[n], ViewAfter(v, ops, replies, n))
    ensures forall k :: 0 <= k < n ==> Matches(ViewAfter(v, ops, replies, k), ops[k], replies[k])
  {
    if n > 0 {
      RunRefines(cs, ops, replies, v, n - 1);
      StepRefines(cs[n - 1], ViewAfter(v, ops, replies, n - 1), ops[n - 1]);
    }
  }

  ghost predicate Diverted(v: View, p: nat) { p in v.marked || p in v.mine }

  /** Once a page is marked, this core's own stores leave the shared page alone. */
  lemma {:induction false} OriginalKeptView(v: View, ops: seq<Op>, replies: seq<Reply>, a: nat, b: nat, p: nat)
    requires a <= b <= |ops| && b <= |replies| && Diverted(ViewAfter(v, ops, replies, a), p)
    requires p in ViewAfter(v, ops, replies, a).shared
    requires forall k :: a <= k < b ==> !(ops[k].Elsewhere? && ops[k].p == p)
    ensures var (x, y) := (ViewAfter(v, ops, replies, a), ViewAfter(v, ops, replies, b));
            Diverted(y, p) && p in y.shared && y.shared[p] == x.shared[p]
    decreases b - a
  {
    if a < b { OriginalKeptView(v, ops, replies, a, b - 1, p); }
  }

  /** The same on the machine: from a successful COW mark on, no store of this core
      changes the marked page's own frame. */
  lemma OriginalKept(cs: seq<Core>, ops: seq<Op>, replies: seq<Reply>, v: View, a: nat, b: nat, p: nat)
    requires IsRun(cs, ops, replies) && CoreOk(cs[0]) && Represents(cs[0], v) && a < b <= |ops|
    requires ops[a] == Cow(p) && replies[a] == Flag(true)
    requires forall k :: a < k < b ==> !(ops[k].Elsewhere? && ops[k].p == p)
    ensures Fetch(cs[b], p) == Fetch(cs[a + 1], p)
  {
    RunRefines(cs, ops, replies, v, a + 1);
    RunRefines(cs, ops, replies, v, b);
    RunIsFramed(cs, ops, replies);
    RunFrame(cs, ops, replies, a, a + 1);
    RunFrame(cs, ops, replies, a, b);
    assert Shows(cs[a + 1], ViewAfter(v, ops, replies, a + 1), p);
    assert Shows(cs[b], ViewAfter(v, ops, replies, b), p);
    OriginalKeptView(v, ops, replies, a + 1, b, p);
  }

  /** Accesses touch only the level-3 table, memory and the pool counter. */
  lemma {:induction false} AccessFrame(c: Core, va: nat, write: bool, limit: nat)
    requires Sized(c) && va < VA_LIMIT
    ensures var r := Access(c, va, write, limit);
            r.Done? ==> r.core == c.(l3 := r.core.l3, mem := r.core.mem, cowUsed := r.core.cowUsed)
    decreases limit
  {
    var t := Try(c, va, write);
    if t.Trap? && limit > 0 && Handle(c, t.fault).Some? {
      HandleFrame(c, t.fault);
      OneFaultEarlier(c, va, write, limit);
      AccessFrame(Handle(c, t.fault).value, va, write, limit - 1);
    }
  }

  lemma HandleFrame(c: Core, f: Fault)
    requires Sized(c)
    ensures var h := Handle(c, f);
            h.Some? ==>
              Sized(h.value) && h.value == c.(l3 := h.value.l3, mem := h.value.mem, cowUsed := h.value.cowUsed)
  {
  }

  ghost predicate SameLayout(c: Core, c': Core) {
    c'.pool == c.pool && c'.l1Frame == c.l1Frame && c'.l2Frame == c.l2Frame && c'.l3Frame == c.l3Frame
  }

  /** The layout is fixed, and a split is final. */
  ghost predicate Framed(c: Core, op: Op, reply: Reply, c': Core) {
    && SameLayout(c, c')
    && (c.haveSplit ==> c'.haveSplit && c'.splitBase == c.splitBase && (op.SplitRegion? ==> reply == Flag(false)))
  }

  lemma StepFrame(c: Core, op: Op)
    requires Sized(c) && Allowed(c, op)
    ensures Framed(c, op, Do(c, op).1, Do(c, op).0)
  {
    match op
    case SplitRegion(base) => SplitFrame(c, base, SPLIT_STORES);
    case Read(va) => AccessFrame(c, va, false, LIMIT);
    case Write(va, b) => AccessFrame(c, va, true, LIMIT);
    case _ =>
  }

  ghost predicate FramedRun(cs: seq<Core>, ops: seq<Op>, replies: seq<Reply>) {
    && |cs| == |ops| + 1 && |replies| == |ops|
    && forall n :: 0 <= n < |ops| ==> Framed(cs[n], ops[n], replies[n], cs[n + 1])
  }

  lemma RunIsFramed(cs: seq<Core>, ops: seq<Op>, replies: seq<Reply>)
    requires IsRun(cs, ops, replies)
    ensures FramedRun(cs, ops, replies)
  {
    forall n | 0 <= n < |ops|
      ensures Framed(cs[n], ops[n], replies[n], cs[n + 1])
    {
      StepFrame(cs[n], ops[n]);
    }
  }

  lemma {:induction false} RunFrame(cs: seq<Core>, ops: seq<Op>, replies: seq<Reply>, a: nat, b: nat)
    requires FramedRun(cs, ops, replies) && a <= b <= |ops|
    ensures SameLayout(cs[a], cs[b])
    ensures cs[a].haveSplit ==> cs[b].haveSplit && cs[b].splitBase == cs[a].splitBase
    ensures cs[a].haveSplit ==> forall k :: a <= k < b && ops[k].SplitRegion? ==> replies[k] == Flag(false)
    decreases b - a
  {
    if a < b { RunFrame(cs, ops, replies, a, b - 1); }
  }

  /** In every run at most one region is ever split. */
  lemma OneSplit(cs: seq<Core>, ops: seq<Op>, replies: seq<Reply>, a: nat, b: nat)
    requires IsRun(cs, ops, replies) && a < b < |ops|
    requires ops[a].SplitRegion? && ops[b].SplitRegion? && replies[a] == Flag(true)
    ensures replies[b] == Flag(false)
  {
    RunIsFramed(cs, ops, replies);
    RunFrame(cs, ops, replies, a + 1, b + 1);
  }
}
