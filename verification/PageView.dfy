/** What the fault machinery amounts to: one core's accesses behave like accesses
    to a plain memory in which a STREAM mark does nothing and a COW mark gives the
    core a private copy at its first write. */
module PageView {
  import opened Words
  import opened PageFault

  // ---------------------------------------------------------------- the core's invariant

  function AddrOf(c: Core, i: nat): nat { c.splitBase + i * PAGE }

  ghost predicate Private(c: Core, i: nat)
    requires |c.l3| == ENTRIES && i < ENTRIES
  {
    c.l3[i].frame != c.splitBase / PAGE + i
  }

  ghost predicate EntryOk(c: Core, i: nat)
    requires |c.l3| == ENTRIES && i < ENTRIES
  {
    var d := c.l3[i];
    && d.table && d.attributes == FLAGS
    && (!d.valid ==> AddrOf(c, i) in c.streamed)
    && (d.readOnly ==> AddrOf(c, i) in c.cow)
    && (Private(c, i) ==> exists n :: 0 <= n < c.cowUsed && n < |c.pool| && c.pool[n] == d.frame)
  }

  ghost predicate LayoutOk(c: Core) {
    && Sized(c) && c.cowUsed <= COW_POOL
    && (forall n, m :: 0 <= n < m < |c.pool| ==> c.pool[n] != c.pool[m])
    && (forall p :: RAM_PAGE <= p < RAM_PAGE_END ==> p in c.mem)
    && (forall n :: 0 <= n < |c.pool| ==> c.pool[n] in c.mem)
  }

  ghost predicate TablesOk(c: Core)
    requires Sized(c)
  {
    if !c.haveSplit then c.l1[1] == RAM_BLOCK
    else
      && c.ready && c.splitBase % REGION == 0 && RAM_BASE <= c.splitBase < RAM_END
      && c.l1[1] == TableAt(c.l2Frame)
      && (forall i :: 0 <= i < ENTRIES ==>
            c.l2[i] == if i == L2Index(c.splitBase) then TableAt(c.l3Frame) else Block(i))
  }

  ghost predicate EntriesOk(c: Core)
    requires Sized(c)
  {
    c.haveSplit ==>
      && (forall i: nat :: i < ENTRIES ==> EntryOk(c, i))
      && (forall i: nat, j: nat :: i < j < ENTRIES && Private(c, i) && Private(c, j) ==> c.l3[i].frame != c.l3[j].frame)
  }

  ghost predicate CoreOk(c: Core) { LayoutOk(c) && TablesOk(c) && EntriesOk(c) }

  /** Pages the program may touch: RAM that is not the core's own copy pool or tables. */
  ghost predicate User(c: Core, p: nat) {
    RAM_PAGE <= p < RAM_PAGE_END && p !in c.pool && p != c.l1Frame && p != c.l2Frame && p != c.l3Frame
  }

  // ---------------------------------------------------------------- the plain memory

  /** The shared pages, this core's private copies, and the pages it has marked. */
  datatype View = View(shared: map<nat, Page>, mine: map<nat, Page>, marked: set<nat>)

  ghost predicate Holds(v: View, p: nat) { p in v.mine || p in v.shared }

  function Visible(v: View, p: nat): Page
    requires p in v.mine || p in v.shared
  {
    if p in v.mine then v.mine[p] else v.shared[p]
  }

  function ReadView(v: View, p: nat, off: nat): byte
    requires (p in v.mine || p in v.shared) && off < PAGE
  {
    Visible(v, p)[off]
  }

  function WriteView(v: View, p: nat, off: nat, b: byte): View
    requires (p in v.mine || p in v.shared) && off < PAGE
  {
    if p in v.mine || p in v.marked then
      v.(mine := v.mine[p := Visible(v, p)[off := b]], marked := v.marked - {p})
    else v.(shared := v.shared[p := v.shared[p][off := b]])
  }

  // ---------------------------------------------------------------- the relation

  ghost predicate InSplitPage(c: Core, p: nat) { InSplit(c, p * PAGE) }

  ghost predicate Marked(c: Core, p: nat)
    requires |c.l3| == ENTRIES
  {
    InSplitPage(c, p) && Entry(c, p * PAGE).readOnly
  }

  ghost predicate Copied(c: Core, p: nat)
    requires |c.l3| == ENTRIES
  {
    InSplitPage(c, p) && Entry(c, p * PAGE).frame != p
  }

  ghost predicate Shows(c: Core, v: View, p: nat)
    requires |c.l3| == ENTRIES
  {
    && p in v.shared && v.shared[p] == Fetch(c, p)
    && (p in v.marked <==> Marked(c, p))
    && (p in v.mine <==> Copied(c, p))
    && (p in v.mine ==> v.mine[p] == Fetch(c, Entry(c, p * PAGE).frame))
  }

  ghost predicate Represents(c: Core, v: View) {
    Sized(c) && forall p :: User(c, p) ==> Shows(c, v, p)
  }

  // ---------------------------------------------------------------- arithmetic of pages

  lemma PageOf(c: Core, va: nat)
    requires Sized(c) && TablesOk(c) && c.haveSplit && RAM_BASE <= va < RAM_END
    ensures InSplit(c, va) <==> InSplitPage(c, va / PAGE)
    ensures InSplit(c, va) ==>
              && L3Index(va) == L3Index(va / PAGE * PAGE)
              && AddrOf(c, L3Index(va)) == va / PAGE * PAGE
              && va / PAGE == c.splitBase / PAGE + L3Index(va)
              && L2Index(va) == L2Index(c.splitBase)
    ensures !InSplit(c, va) ==> L2Index(va) != L2Index(c.splitBase)
  {
    PageAddress(va, c.splitBase);
  }

  // ---------------------------------------------------------------- accesses

  /** Outside the split region, and in it once the entry allows the access, the
      walk reaches the page that backs the address. */
  lemma TryOutside(c: Core, va: nat, write: bool)
    requires Sized(c) && TablesOk(c) && RAM_BASE <= va < RAM_END && !InSplit(c, va)
    ensures Try(c, va, write) == Hit(va)
  {
    if c.haveSplit {
      PageOf(c, va);
      ThroughBlock2(c, va);
    } else {
      ThroughBlock1(c, va);
    }
  }

  lemma TryInside(c: Core, va: nat, write: bool)
    requires Sized(c) && TablesOk(c) && RAM_BASE <= va < RAM_END && InSplit(c, va)
    requires Entry(c, va).table && Entry(c, va).attributes == FLAGS
    ensures var d := Entry(c, va);
            Try(c, va, write) ==
            if !d.valid then Trap(Fault(7, write, va))
            else if write && d.readOnly then Trap(Fault(15, write, va))
            else Hit(d.frame * PAGE + va % PAGE)
  {
    PageOf(c, va);
    ThroughPage(c, va);
  }

  /** Two pages of the split region have different entries. */
  lemma EntryOwner(c: Core, p: nat, q: nat)
    requires Sized(c) && TablesOk(c) && InSplitPage(c, p) && InSplitPage(c, q) && p != q
    requires RAM_PAGE <= p < RAM_PAGE_END && RAM_PAGE <= q < RAM_PAGE_END
    ensures L3Index(p * PAGE) != L3Index(q * PAGE)
  {
    PageOf(c, p * PAGE);
    PageOf(c, q * PAGE);
  }

  /** Changing one entry's low bits, and recording its page, keeps the core good. */
  lemma SetKeepsCore(c: Core, p: nat, valid: bool, readOnly: bool, c': Core)
    requires CoreOk(c) && RAM_PAGE <= p < RAM_PAGE_END && InSplitPage(c, p)
    requires c' == SetEntry(c, p * PAGE, Entry(c, p * PAGE).(valid := valid, readOnly := readOnly))
                   .(streamed := c'.streamed, cow := c'.cow)
    requires forall a :: a in c.streamed ==> a in c'.streamed
    requires forall a :: a in c.cow ==> a in c'.cow
    requires !valid ==> p * PAGE in c'.streamed
    requires readOnly ==> p * PAGE in c'.cow
    ensures CoreOk(c')
  {
    PageOf(c, p * PAGE);
    forall i: nat | i < ENTRIES
      ensures EntryOk(c', i)
    {
      assert EntryOk(c, i);
    }
    assert forall i: nat :: i < ENTRIES ==> Private(c', i) == Private(c, i) && c'.l3[i].frame == c.l3[i].frame;
  }

  /** ... and shows the same memory, up to the mark on that page. */
  lemma SetKeepsView(c: Core, v: View, p: nat, valid: bool, readOnly: bool, c': Core)
    requires CoreOk(c) && Represents(c, v) && RAM_PAGE <= p < RAM_PAGE_END && InSplitPage(c, p)
    requires c' == SetEntry(c, p * PAGE, Entry(c, p * PAGE).(valid := valid, readOnly := readOnly))
                   .(streamed := c'.streamed, cow := c'.cow)
    ensures Represents(c', v.(marked := if readOnly then v.marked + {p} else v.marked - {p}))
  {
    var v' := v.(marked := if readOnly then v.marked + {p} else v.marked - {p});
    forall q: nat | User(c', q)
      ensures Shows(c', v', q)
    {
      assert Shows(c, v, q);
      if q != p && InSplitPage(c, q) {
        EntryOwner(c, p, q);
      }
    }
  }

  lemma SameMark(v: View, p: nat)
    ensures p in v.marked ==> v.(marked := v.marked + {p}) == v
    ensures p !in v.marked ==> v.(marked := v.marked - {p}) == v
  {
    assert p in v.marked ==> v.marked + {p} == v.marked;
    assert p !in v.marked ==> v.marked - {p} == v.marked;
  }

  // ---------------------------------------------------------------- marks

  /** A STREAM mark changes nothing the program can see. */
  lemma MarkAbsentInvisible(c: Core, v: View, p: nat)
    requires CoreOk(c) && Represents(c, v) && User(c, p)
    ensures var c' := MarkAbsent(c, p * PAGE).0; CoreOk(c') && Represents(c', v)
  {
    var c' := MarkAbsent(c, p * PAGE).0;
    if MarkAbsent(c, p * PAGE).1 {
      PageOf(c, p * PAGE);
      assert EntryOk(c, L3Index(p * PAGE)) && Shows(c, v, p);
      SetKeepsCore(c, p, false, Entry(c, p * PAGE).readOnly, c');
      SetKeepsView(c, v, p, false, Entry(c, p * PAGE).readOnly, c');
      SameMark(v, p);
    }
  }

  /** A COW mark is just that. */
  lemma MarkCowMarks(c: Core, v: View, p: nat)
    requires CoreOk(c) && Represents(c, v) && User(c, p)
    ensures var (c', ok) := MarkCow(c, p * PAGE);
            CoreOk(c') && Represents(c', if ok then v.(marked := v.marked + {p}) else v)
  {
    var (c', ok) := MarkCow(c, p * PAGE);
    if ok {
      PageOf(c, p * PAGE);
      assert EntryOk(c, L3Index(p * PAGE));
      SetKeepsCore(c, p, true, true, c');
      SetKeepsView(c, v, p, true, true, c');
    }
  }

  // ---------------------------------------------------------------- handling a fault

  lemma ResumeKeeps(c: Core, v: View, va: nat, write: bool)
    requires CoreOk(c) && Represents(c, v) && RAM_BASE <= va < RAM_END && User(c, va / PAGE)
    requires InSplit(c, va) && !Entry(c, va).valid
    ensures var h := Handle(c, Fault(7, write, va));
            && h.Some? && CoreOk(h.value) && Represents(h.value, v)
            && h.value == SetEntry(c, va, Entry(c, va).(valid := true))
            && h.value.cowUsed == c.cowUsed
  {
    var p := va / PAGE;
    PageOf(c, va);
    assert EntryOk(c, L3Index(va)) && Shows(c, v, p);
    var c' := Handle(c, Fault(7, write, va)).value;
    SetKeepsCore(c, p, true, Entry(c, va).readOnly, c');
    SetKeepsView(c, v, p, true, Entry(c, va).readOnly, c');
    SameMark(v, p);
  }

  lemma CopyKeepsCore(c: Core, va: nat)
    requires CoreOk(c) && RAM_BASE <= va < RAM_END && User(c, va / PAGE) && InSplit(c, va)
    requires Entry(c, va).valid && Entry(c, va).readOnly && c.cowUsed < COW_POOL
    ensures var h := Handle(c, Fault(15, true, va));
            && h.Some? && CoreOk(h.value) && h.value.cowUsed == c.cowUsed + 1
            && h.value == SetEntry(c, va, Entry(c, va).(readOnly := false, frame := c.pool[c.cowUsed]))
                          .(mem := c.mem[c.pool[c.cowUsed] := Fetch(c, Entry(c, va).frame)], cowUsed := c.cowUsed + 1)
  {
    PageOf(c, va);
    var k := L3Index(va);
    assert EntryOk(c, k);
    var c' := Handle(c, Fault(15, true, va)).value;
    assert c.pool[c.cowUsed] != va / PAGE;
    forall i: nat | i < ENTRIES
      ensures EntryOk(c', i) && (i != k && Private(c', i) ==> c'.l3[i].frame != c.pool[c.cowUsed])
    {
      assert EntryOk(c, i);
    }
    assert forall i: nat :: i < ENTRIES && i != k ==> c'.l3[i] == c.l3[i] && Private(c', i) == Private(c, i);
  }

  lemma CopyKeepsView(c: Core, v: View, va: nat)
    requires CoreOk(c) && Represents(c, v) && RAM_BASE <= va < RAM_END && User(c, va / PAGE) && InSplit(c, va)
    requires Entry(c, va).valid && Entry(c, va).readOnly && c.cowUsed < COW_POOL
    ensures var p := va / PAGE;
            && Shows(c, v, p) && Handle(c, Fault(15, true, va)).Some?
            && Represents(Handle(c, Fault(15, true, va)).value,
                          v.(mine := v.mine[p := Visible(v, p)], marked := v.marked - {p}))
  {
    CopyKeepsCore(c, va);
    PageOf(c, va);
    var p := va / PAGE;
    var c' := Handle(c, Fault(15, true, va)).value;
    assert Shows(c, v, p);
    var v' := v.(mine := v.mine[p := Visible(v, p)], marked := v.marked - {p});
    forall q: nat | User(c', q)
      ensures Shows(c', v', q)
    {
      assert Shows(c, v, q);
      if q != p && InSplitPage(c, q) {
        EntryOwner(c, p, q);
        PageOf(c, q * PAGE);
        assert EntryOk(c, L3Index(q * PAGE));
      }
    }
  }

  // ---------------------------------------------------------------- loads and stores

  /** The frame that backs a page right now. */
  ghost function Backing(c: Core, p: nat): nat
    requires |c.l3| == ENTRIES
  {
    if InSplitPage(c, p) then Entry(c, p * PAGE).frame else p
  }

  /** Where an access that needs no fault lands. */
  lemma HitIsBacking(c: Core, va: nat, write: bool)
    requires CoreOk(c) && RAM_BASE <= va < RAM_END && Try(c, va, write).Hit?
    ensures Try(c, va, write).pa == Backing(c, va / PAGE) * PAGE + va % PAGE
    ensures write ==> !Marked(c, va / PAGE)
  {
    if InSplit(c, va) {
      PageOf(c, va);
      assert EntryOk(c, L3Index(va));
      TryInside(c, va, write);
    } else {
      if c.haveSplit { PageOf(c, va); }
      TryOutside(c, va, write);
    }
  }

  lemma LoadShows(c: Core, v: View, va: nat, write: bool)
    requires CoreOk(c) && Represents(c, v) && RAM_BASE <= va < RAM_END && User(c, va / PAGE) && Try(c, va, write).Hit?
    ensures Shows(c, v, va / PAGE) && Load(c, Try(c, va, write).pa) == ReadView(v, va / PAGE, va % PAGE)
  {
    HitIsBacking(c, va, write);
    assert Shows(c, v, va / PAGE);
  }

  lemma StoreKeepsView(c: Core, v: View, va: nat, b: byte)
    requires CoreOk(c) && Represents(c, v) && RAM_BASE <= va < RAM_END && User(c, va / PAGE) && Try(c, va, true).Hit?
    ensures Shows(c, v, va / PAGE)
    ensures var c' := Store(c, Try(c, va, true).pa, b);
            CoreOk(c') && Represents(c', WriteView(v, va / PAGE, va % PAGE, b))
  {
    HitIsBacking(c, va, true);
    var p := va / PAGE;
    assert Shows(c, v, p);
    var c' := Store(c, Try(c, va, true).pa, b);
    forall i: nat | i < ENTRIES && c.haveSplit
      ensures EntryOk(c', i) && Private(c', i) == Private(c, i)
    {
      assert EntryOk(c, i);
    }
    SameMark(v, p);
    var v' := WriteView(v, p, va % PAGE, b);
    forall q: nat | User(c', q)
      ensures Shows(c', v', q)
    {
      assert Shows(c, v, q);
      if q != p {
        BackingApart(c, p, q);
      }
    }
  }

  /** Different pages never share a backing frame, and only a page's own entry
      can lead to its shared frame. */
  lemma BackingApart(c: Core, p: nat, q: nat)
    requires CoreOk(c) && User(c, p) && User(c, q) && p != q
    ensures Backing(c, p) != Backing(c, q) && Backing(c, p) != q
  {
    if InSplitPage(c, p) {
      PageOf(c, p * PAGE);
      assert EntryOk(c, L3Index(p * PAGE));
    }
    if InSplitPage(c, q) {
      PageOf(c, q * PAGE);
      assert EntryOk(c, L3Index(q * PAGE));
    }
  }

  /** A load completes after at most one fault and yields the visible byte. */
  lemma ReadRefines(c: Core, v: View, va: nat, limit: nat)
    requires CoreOk(c) && Represents(c, v) && RAM_BASE <= va < RAM_END && User(c, va / PAGE) && 1 <= limit
    ensures Shows(c, v, va / PAGE)
    ensures var r := Access(c, va, false, limit);
            && r.Done? && r.faults <= 1 && CoreOk(r.core) && Represents(r.core, v) && r.core.cowUsed == c.cowUsed
            && Load(r.core, r.pa) == ReadView(v, va / PAGE, va % PAGE)
  {
    assert Shows(c, v, va / PAGE);
    if !InSplit(c, va) {
      TryOutside(c, va, false);
      LoadShows(c, v, va, false);
    } else {
      PageOf(c, va);
      assert EntryOk(c, L3Index(va));
      TryInside(c, va, false);
      if !Entry(c, va).valid {
        ResumeKeeps(c, v, va, false);
        var c' := Handle(c, Fault(7, false, va)).value;
        TryInside(c', va, false);
        LoadShows(c', v, va, false);
      } else {
        LoadShows(c, v, va, false);
      }
    }
  }

  /** The store completed after at most `most` faults and did to the plain memory
      what a store does; it spent a pool page exactly if the page was marked. */
  ghost predicate Written(c: Core, v: View, va: nat, b: byte, r: Outcome, most: nat) {
    && Holds(v, va / PAGE) && r.Done? && r.faults <= most && CoreOk(Store(r.core, r.pa, b))
    && Represents(Store(r.core, r.pa, b), WriteView(v, va / PAGE, va % PAGE, b))
    && r.core.cowUsed == c.cowUsed + (if va / PAGE in v.marked then 1 else 0)
  }

  lemma OneFaultEarlier(c: Core, va: nat, write: bool, limit: nat)
    requires Sized(c) && va < VA_LIMIT && Try(c, va, write).Trap? && 1 <= limit
    ensures var h := Handle(c, Try(c, va, write).fault);
            h.Some? ==>
              var r := Access(h.value, va, write, limit - 1);
              Access(c, va, write, limit) == if r.Done? then Done(r.core, r.pa, r.faults + 1) else r
  {
  }

  /** A store to a page whose entry is valid: at most the copying fault. */
  lemma WriteValid(c: Core, v: View, va: nat, b: byte, limit: nat)
    requires CoreOk(c) && Represents(c, v) && RAM_BASE <= va < RAM_END && User(c, va / PAGE) && 1 <= limit
    requires InSplit(c, va) ==> Entry(c, va).valid
    requires va / PAGE in v.marked ==> c.cowUsed < COW_POOL
    ensures Shows(c, v, va / PAGE)
    ensures Written(c, v, va, b, Access(c, va, true, limit), 1)
  {
    var p := va / PAGE;
    assert Shows(c, v, p);
    if !InSplit(c, va) {
      if c.haveSplit { PageOf(c, va); }
      TryOutside(c, va, true);
      StoreKeepsView(c, v, va, b);
    } else {
      PageOf(c, va);
      assert EntryOk(c, L3Index(va));
      TryInside(c, va, true);
      if Entry(c, va).readOnly {
        CopyKeepsCore(c, va);
        CopyKeepsView(c, v, va);
        var c' := Handle(c, Fault(15, true, va)).value;
        var v' := v.(mine := v.mine[p := Visible(v, p)], marked := v.marked - {p});
        TryInside(c', va, true);
        StoreKeepsView(c', v', va, b);
        assert WriteView(v', p, va % PAGE, b) == WriteView(v, p, va % PAGE, b);
      } else {
        StoreKeepsView(c, v, va, b);
      }
    }
  }

  /** A store completes after at most two faults, provided the pool has a page
      left when one is needed, and does to the plain memory what a store does. */
  lemma WriteRefines(c: Core, v: View, va: nat, b: byte, limit: nat)
    requires CoreOk(c) && Represents(c, v) && RAM_BASE <= va < RAM_END && User(c, va / PAGE) && 2 <= limit
    requires va / PAGE in v.marked ==> c.cowUsed < COW_POOL
    ensures Shows(c, v, va / PAGE)
    ensures Written(c, v, va, b, Access(c, va, true, limit), 2)
  {
    assert Shows(c, v, va / PAGE);
    if InSplit(c, va) && !Entry(c, va).valid {
      PageOf(c, va);
      assert EntryOk(c, L3Index(va));
      TryInside(c, va, true);
      ResumeKeeps(c, v, va, true);
      OneFaultEarlier(c, va, true, limit);
      WriteValid(Handle(c, Fault(7, true, va)).value, v, va, b, limit - 1);
    } else {
      WriteValid(c, v, va, b, limit);
    }
  }

  /** Without a pool page left, a store to a marked page halts the core, whatever
      the number of retries allowed. */
  lemma WriteHalts(c: Core, v: View, va: nat, limit: nat)
    requires CoreOk(c) && Represents(c, v) && RAM_BASE <= va < RAM_END && User(c, va / PAGE) && 2 <= limit
    requires va / PAGE in v.marked && c.cowUsed == COW_POOL
    ensures Access(c, va, true, limit) == Halted
  {
    assert Shows(c, v, va / PAGE);
    PageOf(c, va);
    assert EntryOk(c, L3Index(va));
    TryInside(c, va, true);
    if !Entry(c, va).valid {
      ResumeKeeps(c, v, va, true);
      TryInside(Handle(c, Fault(7, true, va)).value, va, true);
    }
  }

  /** Whatever fault an access takes, the handler leaves a good core behind. */
  lemma TrapKeepsCore(c: Core, va: nat, write: bool)
    requires CoreOk(c) && RAM_BASE <= va < RAM_END && User(c, va / PAGE) && Try(c, va, write).Trap?
    ensures var h := Handle(c, Try(c, va, write).fault);
            h.Some? ==> CoreOk(h.value) && forall p :: User(h.value, p) <==> User(c, p)
  {
    if !InSplit(c, va) {
      TryOutside(c, va, write);
    } else {
      PageOf(c, va);
      assert EntryOk(c, L3Index(va));
      TryInside(c, va, write);
      if !Entry(c, va).valid {
        SetKeepsCore(c, va / PAGE, true, Entry(c, va).readOnly, Handle(c, Fault(7, write, va)).value);
      } else if c.cowUsed < COW_POOL {
        CopyKeepsCore(c, va);
      }
    }
  }
}
