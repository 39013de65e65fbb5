/** The per-core page-fault object: the pf_ fields of struct core_state updated in
    place, and the CPU's walk-fault-retry loop around its handler. */
module PageFaultCore {
  import opened Words
  import opened PageFault
  import opened PageView

  class ArmCore {
    const l1: array<Descriptor>
    const l2: array<Descriptor>
    const l3: array<Descriptor>
    const streamed: array<nat>
    const cow: array<nat>
    const l1Frame: nat
    const l2Frame: nat
    const l3Frame: nat
    const pool: seq<nat>
    var splitBase: nat
    var haveSplit: bool
    var ready: bool
    var streamedCount: nat
    var cowCount: nat
    var cowUsed: nat
    var mem: map<nat, Page>

    ghost predicate Valid()
      reads this
    {
      && l1.Length == ENTRIES && l2.Length == ENTRIES && l3.Length == ENTRIES && |pool| == COW_POOL
      && l1 != l2 && l1 != l3 && l2 != l3 && streamed != cow
      && streamed.Length == MAX_STREAMED && cow.Length == MAX_COW
      && streamedCount <= MAX_STREAMED && cowCount <= MAX_COW
    }

    ghost function State(): Core
      reads this, l1, l2, l3, streamed, cow
      requires Valid()
    {
      Core(l1[..], l2[..], l3[..], l1Frame, l2Frame, l3Frame, pool, splitBase, haveSplit, ready,
           streamed[..streamedCount], cow[..cowCount], cowUsed, mem)
    }

    constructor (l1Frame: nat, l2Frame: nat, l3Frame: nat, pool: seq<nat>, mem: map<nat, Page>)
      requires |pool| == COW_POOL
      ensures Valid() && fresh(l1) && fresh(l2) && fresh(l3) && fresh(streamed) && fresh(cow)
      ensures !haveSplit && !ready && State().streamed == [] && State().cow == [] && cowUsed == 0
      ensures this.pool == pool && this.mem == mem
      ensures this.l1Frame == l1Frame && this.l2Frame == l2Frame && this.l3Frame == l3Frame
    {
      l1 := new Descriptor[ENTRIES](_ => Descriptor(false, false, false, NO_FLAGS, 0));
      l2 := new Descriptor[ENTRIES](_ => Descriptor(false, false, false, NO_FLAGS, 0));
      l3 := new Descriptor[ENTRIES](_ => Descriptor(false, false, false, NO_FLAGS, 0));
      streamed := new nat[MAX_STREAMED](_ => 0);
      cow := new nat[MAX_COW](_ => 0);
      this.l1Frame, this.l2Frame, this.l3Frame, this.pool, this.mem := l1Frame, l2Frame, l3Frame, pool, mem;
      splitBase, haveSplit, ready, streamedCount, cowCount, cowUsed := 0, false, false, 0, 0, 0;
    }

    /** pagefault_split_region: every table store of the loop bodies is one store of
        SplitStores, so the translation survives each of them. */
    method SplitRegion(base: nat) returns (ok: bool)
      requires Valid()
      modifies `splitBase, `haveSplit, l1, l2, l3
      ensures Valid() && (State(), ok) == Split(old(State()), base)
    {
      if !ready || base % REGION != 0 || base < RAM_BASE || base >= RAM_END || haveSplit
         || !l1[1].valid || l1[1].table {
        return false;
      }
      ghost var c := State();
      StoreTables(c, base);
      splitBase := base;
      haveSplit := true;
      return true;
    }

    method StoreTables(ghost c: Core, base: nat)
      requires Valid() && State() == c
      modifies l1, l2, l3
      ensures State() == SplitStores(c, base, SPLIT_STORES)
    {
      FillBlocks(c, base);
      l1[1] := TableAt(l2Frame);
      LastStore(c, base, 513);
      FillPages(c, base);
      LastStore(c, base, 1026);
      l2[L2Index(base)] := TableAt(l3Frame);
    }

    static lemma LastStore(c: Core, base: nat, k: nat)
      requires |c.l1| == ENTRIES && |c.l2| == ENTRIES && |c.l3| == ENTRIES && 512 < k <= SPLIT_STORES
      ensures var p := SplitStores(c, base, k - 1);
              && SplitStores(c, base, k) == (
                if k == 513 then p.(l1 := p.l1[1 := TableAt(c.l2Frame)])
                else if k <= 1025 then p.(l3 := p.l3[k - 514 := PageEntry(base, k - 514)])
                else p.(l2 := p.l2[L2Index(base) := TableAt(c.l3Frame)]))
    {
    }

    method FillBlocks(ghost c: Core, base: nat)
      requires Valid() && State() == c
      modifies l2
      ensures State() == SplitStores(c, base, 512)
    {
      var i := 0;
      while i < 512
        invariant 0 <= i <= 512 && State() == SplitStores(c, base, i)
      {
        l2[i] := Block(i);
        i := i + 1;
      }
    }

    method FillPages(ghost c: Core, base: nat)
      requires Valid() && |c.l1| == ENTRIES && |c.l2| == ENTRIES && |c.l3| == ENTRIES
               && State() == SplitStores(c, base, 513)
      modifies l3
      ensures State() == SplitStores(c, base, 1025)
    {
      var i := 0;
      while i < 512
        invariant 0 <= i <= 512 && State() == SplitStores(c, base, 513 + i)
      {
        LastStore(c, base, 514 + i);
        l3[i] := PageEntry(base, i);
        i := i + 1;
      }
    }

    method Contains(pages: array<nat>, count: nat, page: nat) returns (found: bool)
      requires count <= pages.Length
      ensures found == (page in pages[..count])
    {
      var i := 0;
      while i < count
        invariant 0 <= i <= count && page !in pages[..i]
      {
        if pages[i] == page {
          return true;
        }
        i := i + 1;
      }
      return false;
    }

    /** A full table drops the address silently. */
    method RegisterStreamedPage(addr: nat)
      requires Valid()
      modifies `streamedCount, streamed
      ensures Valid()
      ensures addr in old(State().streamed) || |old(State().streamed)| < MAX_STREAMED ==>
                State() == old(State()).(streamed := Register(old(State().streamed), addr))
      ensures addr !in old(State().streamed) && |old(State().streamed)| == MAX_STREAMED ==> State() == old(State())
    {
      var known := Contains(streamed, streamedCount, addr);
      if !known && streamedCount < MAX_STREAMED {
        streamed[streamedCount] := addr;
        streamedCount := streamedCount + 1;
        assert streamed[..streamedCount] == old(streamed[..streamedCount]) + [addr];
      }
    }

    method RegisterCowPage(addr: nat)
      requires Valid() && (addr in cow[..cowCount] || cowCount < MAX_COW)
      modifies `cowCount, cow
      ensures Valid() && State() == old(State()).(cow := Register(old(State().cow), addr))
    {
      var known := Contains(cow, cowCount, addr);
      if !known {
        cow[cowCount] := addr;
        cowCount := cowCount + 1;
        assert cow[..cowCount] == old(cow[..cowCount]) + [addr];
      }
    }

    method WriteEntry(addr: nat, d: Descriptor)
      requires Valid()
      modifies l3
      ensures Valid() && State() == SetEntry(old(State()), addr, d)
    {
      l3[L3Index(addr)] := d;
    }

    /** page_entry, and the entry is valid. */
    predicate ValidEntry(addr: nat)
      reads this, l3
      requires l3.Length == ENTRIES
    {
      ready && haveSplit && splitBase <= addr < splitBase + REGION && l3[L3Index(addr)].valid
    }

    method MarkPageAbsent(addr: nat) returns (ok: bool)
      requires Valid()
      modifies `streamedCount, streamed, l3
      ensures Valid() && (State(), ok) == MarkAbsent(old(State()), addr)
    {
      var known := Contains(streamed, streamedCount, addr);
      ok := ValidEntry(addr) && (known || streamedCount != MAX_STREAMED);
      assert ok == MayMark(State(), addr, State().streamed, MAX_STREAMED);
      if ok {
        var d := l3[L3Index(addr)];
        RegisterStreamedPage(addr);
        WriteEntry(addr, d.(valid := false));
      }
    }

    method MarkPageCow(addr: nat) returns (ok: bool)
      requires Valid()
      modifies `cowCount, cow, l3
      ensures Valid() && (State(), ok) == MarkCow(old(State()), addr)
    {
      var known := Contains(cow, cowCount, addr);
      ok := ValidEntry(addr) && (known || cowCount != MAX_COW);
      assert ok == MayMark(State(), addr, State().cow, MAX_COW);
      if ok {
        var d := l3[L3Index(addr)];
        RegisterCowPage(addr);
        WriteEntry(addr, d.(readOnly := true));
      }
    }

    /** The handler's byte-by-byte copy. */
    method CopyPage(src: nat, dst: nat)
      requires Valid() && src in mem && dst in mem
      modifies `mem
      ensures mem == old(mem)[dst := old(mem)[src]]
    {
      var i := 0;
      while i < PAGE
        invariant 0 <= i <= PAGE && src in mem && dst in mem
        invariant mem == old(mem)[dst := mem[dst]] && mem[src] == old(mem)[src]
        invariant mem[dst][..i] == mem[src][..i]
      {
        mem := mem[dst := mem[dst][i := mem[src][i]]];
        i := i + 1;
      }
      assert mem[dst] == mem[dst][..PAGE] == mem[src][..PAGE] == mem[src];
    }

    method CanResume(f: Fault, page: nat) returns (yes: bool)
      requires Valid()
      ensures yes == Resumes(State(), f, page)
    {
      var isStreamed := Contains(streamed, streamedCount, page);
      yes := ready && haveSplit && splitBase <= page < splitBase + REGION && 4 <= f.status <= 7 && isStreamed
             && !l3[L3Index(page)].valid;
    }

    method CanCopy(f: Fault, page: nat) returns (yes: bool)
      requires Valid()
      ensures yes == Copies(State(), f, page)
    {
      var isCow := Contains(cow, cowCount, page);
      yes := ready && haveSplit && splitBase <= page < splitBase + REGION && 12 <= f.status <= 15 && f.write && isCow
             && l3[L3Index(page)].readOnly && cowUsed < COW_POOL;
    }

    /** pagefault_aarch64_handle for an EL1 data abort; false stands for the halt. */
    method HandleFault(f: Fault) returns (resumed: bool)
      requires Valid() && BackingHere(State(), f.far / PAGE * PAGE)
      modifies `mem, `cowUsed, l3
      ensures Valid()
      ensures resumed == Handle(old(State()), f).Some?
      ensures State() == if resumed then Handle(old(State()), f).value else old(State())
    {
      var page := f.far / PAGE * PAGE;
      var resume := CanResume(f, page);
      if resume {
        var d := l3[L3Index(page)];
        WriteEntry(page, d.(valid := true));
        return true;
      }
      resumed := CanCopy(f, page);
      if resumed {
        GiveCopy(page);
      }
    }

    /** The copy-on-write branch: copy into the next pool page and point the entry there. */
    method GiveCopy(page: nat)
      requires Valid() && cowUsed < COW_POOL && l3[L3Index(page)].frame in mem && pool[cowUsed] in mem
      modifies `mem, `cowUsed, l3
      ensures var (c, d) := (old(State()), Entry(old(State()), page));
              State() == SetEntry(c, page, d.(readOnly := false, frame := c.pool[c.cowUsed]))
                         .(mem := c.mem[c.pool[c.cowUsed] := Fetch(c, d.frame)], cowUsed := c.cowUsed + 1)
    {
      var d := l3[L3Index(page)];
      var dst := pool[cowUsed];
      cowUsed := cowUsed + 1;
      CopyPage(d.frame, dst);
      l3[L3Index(page)] := d.(readOnly := false, frame := dst);
    }

    /** The handler can read the page it copies and write the pool. */
    static ghost predicate BackingHere(c: Core, page: nat)
      requires Sized(c)
    {
      InSplit(c, page) ==> Entry(c, page).frame in c.mem && forall n :: 0 <= n < COW_POOL ==> c.pool[n] in c.mem
    }

    static lemma BackingPresent(c: Core, va: nat)
      requires CoreOk(c) && RAM_BASE <= va < RAM_END
      ensures BackingHere(c, va / PAGE * PAGE)
    {
      if InSplit(c, va / PAGE * PAGE) {
        PageOf(c, va / PAGE * PAGE);
        assert EntryOk(c, L3Index(va / PAGE * PAGE));
      }
    }

    /** The hardware walk over this core's tables. */
    method TryAccess(va: nat, write: bool) returns (r: Attempt)
      requires Valid() && va < VA_LIMIT
      ensures r == Try(State(), va, write)
    {
      var level, d, pa := 1, l1[va / GIB], 0;
      if !d.valid || (d.table && d.frame != l2Frame) {
        return Trap(Fault(5, write, va));
      }
      if !d.table {
        pa := d.frame / 0x4_0000 * GIB + va % GIB;
      } else {
        level, d := 2, l2[L2Index(va)];
        if !d.valid || (d.table && d.frame != l3Frame) {
          return Trap(Fault(6, write, va));
        }
        if !d.table {
          pa := d.frame / 0x200 * REGION + va % REGION;
        } else {
          level, d := 3, l3[L3Index(va)];
          if !(d.valid && d.table) {
            return Trap(Fault(7, write, va));
          }
          pa := d.frame * PAGE + va % PAGE;
        }
      }
      if !d.attributes.accessed {
        return Trap(Fault(8 + level, write, va));
      }
      if write && d.readOnly {
        return Trap(Fault(12 + level, write, va));
      }
      return Hit(pa);
    }

    /** The CPU executing one load or store: translate, and on a fault run the
        handler and retry. It completes after at most two faults, unless it needs a
        pool page and there is none. */
    method Perform(va: nat, write: bool, ghost v: View) returns (pa: Option<nat>, faults: nat)
      requires Valid() && CoreOk(State()) && Represents(State(), v)
      requires RAM_BASE <= va < RAM_END && User(State(), va / PAGE)
      modifies `mem, `cowUsed, l3
      ensures Valid() && faults <= 2
      ensures pa.None? <==> write && va / PAGE in v.marked && old(cowUsed) == COW_POOL
      ensures pa.Some? ==> Access(old(State()), va, write, 2) == Done(State(), pa.value, faults)
    {
      ghost var c := State();
      Completes(c, v, va, write);
      faults := 0;
      var attempt := TryAccess(va, write);
      while attempt.Trap?
        invariant Valid() && attempt == Try(State(), va, write) && Retrying(c, State(), va, write, faults)
        decreases 2 - faults
      {
        RetryStep(c, State(), va, write, faults);
        var resumed := HandleFault(attempt.fault);
        if !resumed {
          return None, faults;
        }
        faults := faults + 1;
        attempt := TryAccess(va, write);
      }
      return Some(attempt.pa), faults;
    }

    static lemma Completes(c: Core, v: View, va: nat, write: bool)
      requires CoreOk(c) && Represents(c, v) && RAM_BASE <= va < RAM_END && User(c, va / PAGE)
      ensures Retrying(c, c, va, write, 0)
      ensures var r := Access(c, va, write, 2);
              if write && va / PAGE in v.marked && c.cowUsed == COW_POOL then r == Halted else r.Done?
    {
      if !write {
        ReadRefines(c, v, va, 2);
      } else if va / PAGE in v.marked && c.cowUsed == COW_POOL {
        WriteHalts(c, v, va, 2);
      } else {
        WriteRefines(c, v, va, 0, 2);
      }
    }

    /** Core c stands n faults into an access that began at c0. */
    static ghost predicate Retrying(c0: Core, c: Core, va: nat, write: bool, n: nat) {
      && Sized(c0) && CoreOk(c) && RAM_BASE <= va < RAM_END && User(c, va / PAGE) && n <= 2
      && Access(c0, va, write, 2) != StillFaulting
      && Access(c0, va, write, 2) == Later(Access(c, va, write, 2 - n), n)
    }

    static lemma RetryStep(c0: Core, c: Core, va: nat, write: bool, n: nat)
      requires Retrying(c0, c, va, write, n) && Try(c, va, write).Trap?
      ensures var f := Try(c, va, write).fault; var h := Handle(c, f);
              && f.far == va && BackingHere(c, va / PAGE * PAGE)
              && (if h.None? then Access(c0, va, write, 2) == Halted
                  else n < 2 && Retrying(c0, h.value, va, write, n + 1))
    {
      BackingPresent(c, va);
      TrapKeepsCore(c, va, write);
      assert n < 2;
      OneFaultEarlier(c, va, write, 2 - n);
    }

    /** An access seen from n faults earlier. */
    static ghost function Later(r: Outcome, n: nat): Outcome {
      if r.Done? then Done(r.core, r.pa, r.faults + n) else r
    }
  }
}
