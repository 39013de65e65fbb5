/** The memory manager of coreinit/mem_mgr.c: a table of claimed address ranges,
    a fixed-address claim, a first-fit allocator and a free. */
module MemoryManager {
  import opened Words

  const MAX_CLAIMS: nat := 64

  /** One row of g_claims. `End` is the end address as the C computes it, in
      64 bits; `Limit` is the exact one. */
  datatype Claim = Claim(base: u64, size: u64, kind: u64, used: bool) {
    function End(): u64 { Wrap64(base + size) }

    function Limit(): nat { base + size }
  }

  /** The allocatable window, ALLOC_MIN and ALLOC_MAX of smp_layout.h. */
  datatype Window = Window(min: u64, max: u64)

  type Table = seq<Claim>

  ghost predicate Meet(lo: int, hi: int, lo': int, hi': int) { lo < hi' && lo' < hi }

  /** The overlap test of claim_locked and alloc_locked, on 64-bit ends. */
  ghost predicate Collides(t: Table, base: u64, end: u64) {
    exists i :: 0 <= i < |t| && t[i].used && Meet(base, end, t[i].base, t[i].End())
  }

  /** No used claim runs past the end of the address space. */
  ghost predicate NoWrap(t: Table) {
    forall i :: 0 <= i < |t| && t[i].used ==> t[i].Limit() < TWO64
  }

  ghost predicate Disjoint(t: Table) {
    forall i, j :: 0 <= i < j < |t| && t[i].used && t[j].used ==>
                     !Meet(t[i].base, t[i].Limit(), t[j].base, t[j].Limit())
  }

  ghost predicate Positive(t: Table) {
    forall i :: 0 <= i < |t| && t[i].used ==> 0 < t[i].size
  }

  ghost predicate WellFormed(t: Table) { NoWrap(t) && Disjoint(t) && |t| <= MAX_CLAIMS }

  // ---------------------------------------------------------------- claim

  ghost function ClaimOk(t: Table, base: u64, size: u64): bool {
    !Collides(t, base, Wrap64(base + size)) && |t| < MAX_CLAIMS
  }

  ghost function Claimed(t: Table, base: u64, size: u64, kind: u64): Table {
    if ClaimOk(t, base, size) then t + [Claim(base, size, kind, true)] else t
  }

  /** CLAIM keeps the table well formed exactly when the claim it accepts stays
      inside the address space: the code does not check for wrap-around. */
  lemma ClaimKeepsWellFormed(t: Table, base: u64, size: u64, kind: u64)
    requires WellFormed(t)
    ensures WellFormed(Claimed(t, base, size, kind)) <==>
            (ClaimOk(t, base, size) ==> base + size < TWO64)
  {
    var t' := Claimed(t, base, size, kind);
    if ClaimOk(t, base, size) {
      assert t'[|t|] == Claim(base, size, kind, true);
      assert forall i :: 0 <= i < |t| ==> t'[i] == t[i];
      if base + size < TWO64 {
        forall i | 0 <= i < |t| && t[i].used
          ensures !Meet(t[i].base, t[i].Limit(), base, base + size)
        {
          assert !Meet(base, Wrap64(base + size), t[i].base, t[i].End());
        }
      }
    }
  }

  /** Disjointness alone survives an accepted claim exactly when the claim does not wrap
      or every live claim ends at or below its base. */
  lemma ClaimKeepsDisjointIff(t: Table, base: u64, size: u64, kind: u64)
    requires WellFormed(t)
    ensures Disjoint(Claimed(t, base, size, kind)) <==>
            (ClaimOk(t, base, size) ==>
               base + size < TWO64 || forall i :: 0 <= i < |t| && t[i].used ==> t[i].Limit() <= base)
  {
    var t' := Claimed(t, base, size, kind);
    ClaimKeepsWellFormed(t, base, size, kind);
    if ClaimOk(t, base, size) && TWO64 <= base + size {
      assert t'[|t|] == Claim(base, size, kind, true);
      forall i | 0 <= i < |t| && t[i].used
        ensures Meet(t'[i].base, t'[i].Limit(), t'[|t|].base, t'[|t|].Limit()) <==> base < t[i].Limit()
      {
        assert t'[i] == t[i];
      }
    }
  }

  /** A wrapping claim is accepted on top of a live one. */
  lemma WrappingClaimOverlapsLiveOne()
    ensures var t := [Claim(0x2000, 0x1000, 0, true)];
            && WellFormed(t) && ClaimOk(t, 0x1000, TWO64 - 0x1000)
            && !Disjoint([t[0], Claim(0x1000, TWO64 - 0x1000, 0, true)])
  {
    var t := [Claim(0x2000, 0x1000, 0, true)];
    var u := [t[0], Claim(0x1000, TWO64 - 0x1000, 0, true)];
    assert u[0].used && u[1].used && Meet(u[0].base, u[0].Limit(), u[1].base, u[1].Limit());
    assert Wrap64(0x1000 + (TWO64 - 0x1000)) == 0;
  }

  // ---------------------------------------------------------------- alloc

  /** What "free" means, on exact arithmetic: the range lies in the window and
      meets no used claim. */
  ghost predicate Free(t: Table, w: Window, size: u64, a: int) {
    && w.min <= a && a + size <= w.max
    && forall i :: 0 <= i < |t| && t[i].used ==> !Meet(a, a + size, t[i].base, t[i].Limit())
  }

  ghost predicate IsEnd(t: Table, a: int) {
    exists i :: 0 <= i < |t| && t[i].used && a == t[i].End()
  }

  /** The start addresses alloc_locked tries: the window's bottom and the end of
      every used claim, raised to the bottom. */
  ghost predicate IsStart(t: Table, w: Window, a: int) {
    a == w.min || exists i :: 0 <= i < |t| && t[i].used && a == Raise(w, t[i].End())
  }

  function Raise(w: Window, a: u64): u64 { if a < w.min then w.min else a }

  /** The test the code applies to one start address. */
  ghost predicate Fits(t: Table, w: Window, size: u64, a: u64) {
    var end := Wrap64(a + size);
    !(end > w.max || end < a) && !Collides(t, a, end)
  }

  /** The answer of the candidate scan: the lowest start address that fits. */
  ghost predicate Picks(t: Table, w: Window, size: u64, r: Option<u64>) {
    match r
    case Some(a) =>
      && IsStart(t, w, a) && Fits(t, w, size, a)
      && forall b: u64 :: IsStart(t, w, b) && Fits(t, w, size, b) ==> a <= b
    case None =>
      forall b: u64 :: IsStart(t, w, b) ==> !Fits(t, w, size, b)
  }

  ghost predicate LeastFree(t: Table, w: Window, size: u64, r: Option<u64>) {
    match r
    case Some(a) => Free(t, w, size, a) && forall b: int :: Free(t, w, size, b) ==> a <= b
    case None => forall b: int :: !Free(t, w, size, b)
  }

  lemma FitsIsFree(t: Table, w: Window, size: u64, a: u64)
    requires NoWrap(t) && w.min <= a
    ensures Fits(t, w, size, a) <==> Free(t, w, size, a)
  {
    if a + size < TWO64 {
      assert forall i :: 0 <= i < |t| && t[i].used ==> t[i].End() == t[i].Limit();
    }
  }

  /** Sliding a free range down one byte at a time stops at a start address, so
      the start addresses lose no placement. */
  lemma {:induction false} StartBelow(t: Table, w: Window, size: u64, b: int) returns (a: u64)
    requires NoWrap(t) && Free(t, w, size, b)
    ensures IsStart(t, w, a) && Free(t, w, size, a) && a <= b
    decreases b
  {
    if b == w.min {
      a := b;
    } else if Free(t, w, size, b - 1) {
      a := StartBelow(t, w, size, b - 1);
    } else {
      var i :| 0 <= i < |t| && t[i].used && Meet(b - 1, b - 1 + size, t[i].base, t[i].Limit());
      assert !Meet(b, b + size, t[i].base, t[i].Limit());
      assert t[i].End() == b;
      a := b;
    }
  }

  /** First fit over claim ends is optimal: the chosen address is the least free
      one in the window, and failure means there is none. */
  lemma PickIsLeastFree(t: Table, w: Window, size: u64, r: Option<u64>)
    requires NoWrap(t) && Picks(t, w, size, r)
    ensures LeastFree(t, w, size, r)
  {
    if r.Some? {
      FitsIsFree(t, w, size, r.value);
    }
    forall b: int | Free(t, w, size, b)
      ensures r.Some? && r.value <= b
    {
      var a := StartBelow(t, w, size, b);
      FitsIsFree(t, w, size, a);
    }
  }

  /** The answer of ALLOC: a full table refuses whatever the addresses. */
  ghost predicate Answers(t: Table, w: Window, size: u64, r: Option<u64>) {
    if |t| < MAX_CLAIMS then Picks(t, w, size, r) else r.None?
  }

  ghost predicate AllocSpec(t: Table, w: Window, size: u64, kind: u64, r: Option<u64>, t': Table) {
    && Answers(t, w, size, r)
    && t' == (if r.Some? then t + [Claim(r.value, size, kind, true)] else t)
  }

  lemma AllocKeepsWellFormed(t: Table, w: Window, size: u64, kind: u64, r: Option<u64>, t': Table)
    requires WellFormed(t) && AllocSpec(t, w, size, kind, r, t')
    ensures WellFormed(t') && (Positive(t) && 0 < size ==> Positive(t'))
    ensures |t| < MAX_CLAIMS ==> LeastFree(t, w, size, r)
  {
    if r.Some? {
      PickIsLeastFree(t, w, size, r);
      assert t'[|t|] == Claim(r.value, size, kind, true);
      assert forall i :: 0 <= i < |t| ==> t'[i] == t[i];
    } else if |t| < MAX_CLAIMS {
      PickIsLeastFree(t, w, size, r);
    }
  }

  // ---------------------------------------------------------------- free

  function FirstUsed(t: Table, base: u64): Option<nat> {
    FirstUsedFrom(t, base, 0)
  }

  function FirstUsedFrom(t: Table, base: u64, i: nat): (r: Option<nat>)
    requires i <= |t|
    ensures r.Some? ==> i <= r.value < |t| && t[r.value].used && t[r.value].base == base
    ensures r.None? ==> forall k :: i <= k < |t| && t[k].used ==> t[k].base != base
    decreases |t| - i
  {
    if i == |t| then None
    else if t[i].used && t[i].base == base then Some(i)
    else FirstUsedFrom(t, base, i + 1)
  }

  function Freed(t: Table, base: u64): Table {
    match FirstUsed(t, base)
    case Some(i) => t[i := t[i].(used := false)]
    case None => t
  }

  /** The addresses a table covers. */
  ghost predicate Covered(t: Table, a: int) {
    exists i :: 0 <= i < |t| && t[i].used && t[i].base <= a < t[i].Limit()
  }

  /** FREE undoes ALLOC: the same addresses are covered as before, though the
      table row stays spent. */
  lemma FreeUndoesAlloc(t: Table, w: Window, size: u64, kind: u64, a: u64, t': Table)
    requires WellFormed(t) && Positive(t) && 0 < size && AllocSpec(t, w, size, kind, Some(a), t')
    ensures WellFormed(Freed(t', a)) && |Freed(t', a)| == |t| + 1
    ensures forall x: int :: Covered(Freed(t', a), x) <==> Covered(t, x)
    ensures Free(Freed(t', a), w, size, a)
  {
    PickIsLeastFree(t, w, size, Some(a));
    AllocKeepsWellFormed(t, w, size, kind, Some(a), t');
    assert forall i :: 0 <= i < |t| && t[i].used ==> !Meet(a, a + size, t[i].base, t[i].Limit());
    assert FirstUsed(t', a) == Some(|t|) by {
      assert t'[|t|].used && t'[|t|].base == a;
    }
    var f := Freed(t', a);
    assert forall i :: 0 <= i < |t| ==> f[i] == t[i];
    forall x: int
      ensures Covered(f, x) <==> Covered(t, x)
    {
      if Covered(f, x) {
        var i :| 0 <= i < |f| && f[i].used && f[i].base <= x < f[i].Limit();
        assert t[i].used;
      }
      if Covered(t, x) {
        var i :| 0 <= i < |t| && t[i].used && t[i].base <= x < t[i].Limit();
        assert f[i].used;
      }
    }
  }

  // ---------------------------------------------------------------- boot

  /** The regions memory_manager_init_schema claims on x86_64 before and after
      the loader's own allocator region. */
  const APIC := Claim(0xFEE0_0000, 0x1000, 0, true)
  const IOAPIC := Claim(0xFEC0_0000, 0x1000, 0, true)
  const KERNEL := Claim(0x100_0000, 0x40_0000, 1, true)
  const TRAMPOLINE := Claim(0x8000, 0x1000, 1, true)
  const INIT_IMAGE := Claim(0x180_0000, 0x40_0000, 1, true)

  datatype Region = Region(base: u64, size: u64)

  ghost function Add(t: Table, c: Claim): Table { Claimed(t, c.base, c.size, c.kind) }

  /** The claims made before the loader's region is looked at. */
  ghost function Fixed(): Table {
    Add(Add(Add(Add([], APIC), IOAPIC), KERNEL), TRAMPOLINE)
  }

  ghost function BootTable(loader: Option<Region>): Table {
    var held := if loader.Some? && loader.value.base != 0 && loader.value.size != 0
                then Claimed(Fixed(), loader.value.base, loader.value.size, 1) else Fixed();
    Add(held, INIT_IMAGE)
  }

  lemma CollidesAppend(t: Table, c: Claim, base: u64, end: u64)
    requires c.used
    ensures Collides(t + [c], base, end) <==> Collides(t, base, end) || Meet(base, end, c.base, c.End())
  {
    var u := t + [c];
    assert u[|t|] == c;
    assert forall i :: 0 <= i < |t| ==> u[i] == t[i];
  }

  lemma CoveredAppend(t: Table, c: Claim, a: int)
    requires c.used
    ensures Covered(t + [c], a) <==> Covered(t, a) || c.base <= a < c.Limit()
  {
    var u := t + [c];
    assert u[|t|] == c;
    assert forall i :: 0 <= i < |t| ==> u[i] == t[i];
  }

  ghost predicate Protected(t: Table, c: Claim) {
    forall a :: c.base <= a < c.Limit() ==> Covered(t, a)
  }

  ghost predicate Clear(t: Table, c: Claim) {
    && !Collides(t, c.base, c.End())
    && forall a :: c.base <= a < c.Limit() ==> !Covered(t, a)
  }

  lemma FixedTable()
    ensures Fixed() == [APIC, IOAPIC, KERNEL, TRAMPOLINE]
  {
    assert Add([], APIC) == [APIC];
    assert Add([APIC], IOAPIC) == [APIC, IOAPIC];
    assert Add([APIC, IOAPIC], KERNEL) == [APIC, IOAPIC, KERNEL];
  }

  lemma FixedIsClear(t: Table)
    requires |t| == 4 && t[0] == APIC && t[1] == IOAPIC && t[2] == KERNEL && t[3] == TRAMPOLINE
    ensures WellFormed(t) && Clear(t, INIT_IMAGE)
  {
  }

  lemma FixedFacts()
    ensures WellFormed(Fixed()) && Clear(Fixed(), INIT_IMAGE) && |Fixed()| == 4
  {
    FixedTable();
    FixedIsClear(Fixed());
  }

  lemma OwnClaimProtects(t: Table, late: Claim)
    requires late.used
    ensures Protected(t + [late], late)
  {
    forall a | late.base <= a < late.Limit()
      ensures Covered(t + [late], a)
    {
      CoveredAppend(t, late, a);
    }
  }

  lemma OtherClaimProtectsIff(t: Table, region: Claim, late: Claim)
    requires Clear(t, late) && region.used && 0 < late.size
    ensures Protected(t + [region], late) <==> region.base <= late.base && late.Limit() <= region.Limit()
  {
    forall a | late.base <= a < late.Limit()
      ensures Covered(t + [region], a) <==> region.base <= a < region.Limit()
    {
      CoveredAppend(t, region, a);
    }
    assert Covered(t + [region], late.base) <==> region.base <= late.base < region.Limit();
    assert Covered(t + [region], late.Limit() - 1) <==> region.base <= late.Limit() - 1 < region.Limit();
  }

  /** A late claim's addresses are all claimed after an earlier region was tried, exactly when
      the region was refused, does not get in the late claim's way, or contains it. The code
      tests against the region's 64-bit end; what the region covers goes by its exact one. */
  lemma LateClaimProtected(t: Table, region: Claim, late: Claim)
    requires WellFormed(t) && |t| + 1 < MAX_CLAIMS && Clear(t, late)
    requires region.used && late.used && 0 < late.size && late.Limit() < TWO64
    ensures region.Limit() < TWO64 ==> WellFormed(Add(Add(t, region), late))
    ensures Protected(Add(Add(t, region), late), late) <==>
            || Collides(t, region.base, region.End())
            || !Meet(region.base, region.End(), late.base, late.Limit())
            || (region.base <= late.base && late.Limit() <= region.Limit())
  {
    var held := Add(t, region);
    if region.Limit() < TWO64 {
      ClaimKeepsWellFormed(t, region.base, region.size, region.kind);
      ClaimKeepsWellFormed(held, late.base, late.size, late.kind);
    }
    CollidesAppend(t, region, late.base, late.End());
    OwnClaimProtects(held, late);
    OtherClaimProtectsIff(t, region, late);
    assert Add(held, late) == if Collides(held, late.base, late.End()) then held else held + [late];
    assert held == if Collides(t, region.base, region.End()) then t else t + [region];
  }

  /** At boot every claim's failure is ignored, so a loader region can take the
      place of the init image's claim. The image's addresses all end up claimed
      exactly when the loader's region was itself refused, is seen clear of the
      image by the 64-bit test, or contains it. */
  lemma BootProtectsInitImage(loader: Region)
    requires loader.base != 0 && loader.size != 0
    ensures loader.base + loader.size < TWO64 ==> WellFormed(BootTable(Some(loader)))
    ensures Protected(BootTable(Some(loader)), INIT_IMAGE) <==>
            || Collides(Fixed(), loader.base, Wrap64(loader.base + loader.size))
            || !Meet(loader.base, Wrap64(loader.base + loader.size), INIT_IMAGE.base, INIT_IMAGE.Limit())
            || (loader.base <= INIT_IMAGE.base && INIT_IMAGE.Limit() <= loader.base + loader.size)
  {
    FixedFacts();
    LateClaimProtected(Fixed(), Claim(loader.base, loader.size, 1, true), INIT_IMAGE);
  }

  /** A region straddling the image's end leaves the image's first address free. */
  lemma StraddlingLoaderExposesImage()
    ensures var loader := Region(0x1A0_0000, 0x40_0000);
            !Protected(BootTable(Some(loader)), INIT_IMAGE) && !Covered(BootTable(Some(loader)), INIT_IMAGE.base)
  {
    var loader := Region(0x1A0_0000, 0x40_0000);
    var region := Claim(loader.base, loader.size, 1, true);
    FixedTable();
    FixedFacts();
    var t := Fixed();
    assert !Collides(t, region.base, region.End());
    CollidesAppend(t, region, INIT_IMAGE.base, INIT_IMAGE.End());
    CoveredAppend(t, region, INIT_IMAGE.base);
    assert BootTable(Some(loader)) == t + [region];
  }

  lemma ClaimedPositive(t: Table, base: u64, size: u64, kind: u64)
    requires Positive(t) && 0 < size
    ensures Positive(Claimed(t, base, size, kind))
  {
  }

  lemma FixedPositive()
    ensures Positive(Fixed())
  {
    FixedTable();
  }

  /** After boot every claim is positive; without a loader's region, or with one inside the
      address space, the table is also well formed. */
  lemma BootTableGood(loader: Option<Region>)
    ensures Positive(BootTable(loader))
    ensures (loader.Some? ==> loader.value.base + loader.value.size < TWO64) ==> WellFormed(BootTable(loader))
  {
    FixedPositive();
    var t := Fixed();
    if loader.Some? && loader.value.base != 0 && loader.value.size != 0 {
      BootProtectsInitImage(loader.value);
      ClaimedPositive(t, loader.value.base, loader.value.size, 1);
      t := Claimed(t, loader.value.base, loader.value.size, 1);
    } else {
      FixedFacts();
      ClaimKeepsWellFormed(t, INIT_IMAGE.base, INIT_IMAGE.size, INIT_IMAGE.kind);
    }
    ClaimedPositive(t, INIT_IMAGE.base, INIT_IMAGE.size, INIT_IMAGE.kind);
  }

  // ---------------------------------------------------------------- runs

  datatype Call = DoClaim(base: u64, size: u64, kind: u64)
                | DoAlloc(size: u64, kind: u64)
                | DoFree(base: u64)

  ghost predicate Step(t: Table, w: Window, c: Call, t': Table) {
    match c
    case DoClaim(b, s, k) => t' == Claimed(t, b, s, k)
    case DoAlloc(s, k) => exists r :: AllocSpec(t, w, s, k, r, t')
    case DoFree(b) => t' == Freed(t, b)
  }

  /** `ts` is the history of the table over a sequence of calls. */
  ghost predicate IsRun(ts: seq<Table>, w: Window, cs: seq<Call>) {
    && |ts| == |cs| + 1
    && forall i :: 0 <= i < |cs| ==> Step(ts[i], w, cs[i], ts[i + 1])
  }

  ghost predicate InSpace(c: Call) { c.DoClaim? ==> c.base + c.size < TWO64 }

  lemma StepKeepsWellFormed(t: Table, w: Window, c: Call, t': Table)
    requires WellFormed(t) && Step(t, w, c, t') && InSpace(c)
    ensures WellFormed(t') && |t| <= |t'|
  {
    match c {
      case DoClaim(b, s, k) => ClaimKeepsWellFormed(t, b, s, k);
      case DoAlloc(s, k) =>
        var r :| AllocSpec(t, w, s, k, r, t');
        AllocKeepsWellFormed(t, w, s, k, r, t');
      case DoFree(b) =>
    }
  }

  /** In every run whose fixed claims stay inside the address space, live claims
      never overlap, and rows are only ever spent: at most MAX_CLAIMS calls of
      CLAIM or ALLOC can succeed before the manager refuses for good. */
  lemma {:induction false} RunKeepsWellFormed(ts: seq<Table>, w: Window, cs: seq<Call>, n: nat)
    requires IsRun(ts, w, cs) && WellFormed(ts[0]) && n < |ts|
    requires forall i :: 0 <= i < |cs| ==> InSpace(cs[i])
    ensures WellFormed(ts[n]) && |ts[0]| <= |ts[n]|
  {
    if n > 0 {
      RunKeepsWellFormed(ts, w, cs, n - 1);
      StepKeepsWellFormed(ts[n - 1], w, cs[n - 1], ts[n]);
    }
  }

  // ---------------------------------------------------------------- the object

  ghost predicate Sorted(a: seq<u64>) {
    forall i, j :: 0 <= i < j < |a| ==> a[i] <= a[j]
  }

  method Exchange(a: array<u64>, i: nat, m: nat, n: nat)
    requires i < n <= a.Length && m < n
    modifies a
    ensures multiset(a[..n]) == multiset(old(a[..n]))
    ensures a[i] == old(a[m]) && a[m] == old(a[i])
    ensures forall k :: 0 <= k < n && k != i && k != m ==> a[k] == old(a[k])
  {
    ghost var before := a[..n];
    a[i], a[m] := a[m], a[i];
    assert a[..n] == before[i := before[m]][m := before[i]];
  }

  method LeastFrom(a: array<u64>, i: nat, n: nat) returns (m: nat)
    requires i < n <= a.Length
    ensures i <= m < n
    ensures forall q :: i <= q < n ==> a[m] <= a[q]
  {
    m := i;
    var j := i + 1;
    while j < n
      invariant i < j <= n && i <= m < n
      invariant forall q :: i <= q < j ==> a[m] <= a[q]
    {
      if a[j] < a[m] { m := j; }
      j := j + 1;
    }
  }

  /** The selection sort of alloc_locked, on the first n entries. */
  method SelectionSort(a: array<u64>, n: nat)
    requires n <= a.Length
    modifies a
    ensures Sorted(a[..n])
    ensures multiset(a[..n]) == multiset(old(a[..n]))
  {
    var i := 0;
    while i < n
      invariant 0 <= i <= n
      invariant forall p, q :: 0 <= p < i && p < q < n ==> a[p] <= a[q]
      invariant multiset(a[..n]) == multiset(old(a[..n]))
    {
      var m := LeastFrom(a, i, n);
      Exchange(a, i, m, n);
      i := i + 1;
    }
  }

  ghost predicate StartsAre(t: Table, w: Window, s: seq<u64>) {
    forall b: u64 :: IsStart(t, w, b) <==> exists k :: 0 <= k < |s| && b == Raise(w, s[k])
  }

  ghost predicate NoneFit(t: Table, w: Window, size: u64, s: seq<u64>) {
    forall k :: 0 <= k < |s| ==> !Fits(t, w, size, Raise(w, s[k]))
  }

  lemma FirstIsPick(t: Table, w: Window, size: u64, s: seq<u64>, i: nat)
    requires Sorted(s) && StartsAre(t, w, s) && i < |s|
    requires NoneFit(t, w, size, s[..i]) && Fits(t, w, size, Raise(w, s[i]))
    ensures Picks(t, w, size, Some(Raise(w, s[i])))
  {
    assert forall k :: 0 <= k < i ==> s[..i][k] == s[k];
    forall b: u64 | IsStart(t, w, b) && Fits(t, w, size, b)
      ensures Raise(w, s[i]) <= b
    {
      var k :| 0 <= k < |s| && b == Raise(w, s[k]);
    }
  }

  lemma StartsAgree(t: Table, w: Window, gathered: seq<u64>, sorted: seq<u64>)
    requires multiset(gathered) == multiset(sorted)
    requires 0 < |gathered| && gathered[0] == w.min
    requires forall k :: 0 < k < |gathered| ==> IsEnd(t, gathered[k])
    requires forall i :: 0 <= i < |t| && t[i].used ==> t[i].End() in gathered
    ensures StartsAre(t, w, sorted)
  {
    assert forall x :: x in gathered <==> x in multiset(gathered);
    assert forall x :: x in sorted <==> x in multiset(sorted);
    forall b: u64 | IsStart(t, w, b)
      ensures exists k :: 0 <= k < |sorted| && b == Raise(w, sorted[k])
    {
      if b == w.min {
        assert gathered[0] in sorted;
      } else {
        var i :| 0 <= i < |t| && t[i].used && b == Raise(w, t[i].End());
        assert t[i].End() in sorted;
      }
    }
    forall k | 0 <= k < |sorted|
      ensures IsStart(t, w, Raise(w, sorted[k]))
    {
      assert sorted[k] in gathered;
      var j :| 0 <= j < |gathered| && gathered[j] == sorted[k];
    }
  }

  class Manager {
    const claims: array<Claim>
    const window: Window
    var count: nat

    ghost predicate Valid()
      reads this
    {
      claims.Length == MAX_CLAIMS && count <= MAX_CLAIMS
    }

    ghost function Contents(): Table
      reads this, claims
      requires Valid()
    {
      claims[..count]
    }

    constructor (window: Window)
      ensures Valid() && fresh(claims) && this.window == window && Contents() == []
    {
      this.window := window;
      claims := new Claim[MAX_CLAIMS](_ => Claim(0, 0, 0, false));
      count := 0;
    }

    method ScanOverlap(base: u64, end: u64) returns (hit: bool)
      requires Valid()
      ensures hit == Collides(Contents(), base, end)
    {
      var i := 0;
      while i < count
        invariant 0 <= i <= count
        invariant forall k :: 0 <= k < i && claims[k].used ==> !Meet(base, end, claims[k].base, claims[k].End())
      {
        if claims[i].used && base < claims[i].End() && claims[i].base < end {
          assert Contents()[i].used;
          return true;
        }
        i := i + 1;
      }
      return false;
    }

    method ClaimLocked(base: u64, size: u64, kind: u64) returns (ok: bool)
      requires Valid()
      modifies `count, claims
      ensures Valid()
      ensures ok == ClaimOk(old(Contents()), base, size)
      ensures Contents() == Claimed(old(Contents()), base, size, kind)
    {
      var hit := ScanOverlap(base, Wrap64(base + size));
      if hit || count >= MAX_CLAIMS {
        return false;
      }
      claims[count] := Claim(base, size, kind, true);
      count := count + 1;
      return true;
    }

    /** memory_manager_init_schema on x86_64; the loader's region comes from the
        boot description when there is one. */
    method InitSchema(loader: Option<Region>)
      requires Valid()
      modifies `count, claims
      ensures Valid() && Contents() == BootTable(loader)
    {
      count := 0;
      var ok := ClaimLocked(APIC.base, APIC.size, APIC.kind);
      ok := ClaimLocked(IOAPIC.base, IOAPIC.size, IOAPIC.kind);
      ok := ClaimLocked(KERNEL.base, KERNEL.size, KERNEL.kind);
      ok := ClaimLocked(TRAMPOLINE.base, TRAMPOLINE.size, TRAMPOLINE.kind);
      if loader.Some? && loader.value.base != 0 && loader.value.size != 0 {
        ok := ClaimLocked(loader.value.base, loader.value.size, 1);
      }
      ok := ClaimLocked(INIT_IMAGE.base, INIT_IMAGE.size, INIT_IMAGE.kind);
    }

    method CollectStarts(starts: array<u64>) returns (n: nat)
      requires Valid() && starts.Length == MAX_CLAIMS + 1
      modifies starts
      ensures 0 < n <= starts.Length
      ensures starts[0] == window.min
      ensures forall k :: 0 < k < n ==> IsEnd(Contents(), starts[k])
      ensures forall i :: 0 <= i < count && claims[i].used ==> claims[i].End() in starts[..n]
    {
      starts[0] := window.min;
      n := 1;
      var i := 0;
      while i < count
        invariant 0 <= i <= count && 0 < n <= i + 1
        invariant starts[0] == window.min
        invariant forall k :: 0 < k < n ==> IsEnd(Contents(), starts[k])
        invariant forall j :: 0 <= j < i && claims[j].used ==> claims[j].End() in starts[..n]
      {
        if claims[i].used {
          ghost var before := starts[..n];
          starts[n] := claims[i].End();
          assert Contents()[i].used;
          assert starts[..n + 1] == before + [claims[i].End()];
          n := n + 1;
        }
        i := i + 1;
      }
    }

    /** alloc_locked: gather the start addresses, sort them, take the first that fits. */
    method AllocLocked(size: u64, kind: u64) returns (r: Option<u64>)
      requires Valid()
      modifies `count, claims
      ensures Valid()
      ensures AllocSpec(old(Contents()), window, size, kind, r, Contents())
    {
      var starts := new u64[MAX_CLAIMS + 1];
      var n := CollectStarts(starts);
      ghost var gathered := starts[..n];
      SelectionSort(starts, n);
      StartsAgree(Contents(), window, gathered, starts[..n]);
      r := FirstFit(starts, n, size, kind);
    }

    method FirstFit(starts: array<u64>, n: nat, size: u64, kind: u64) returns (r: Option<u64>)
      requires Valid() && n <= starts.Length
      requires Sorted(starts[..n]) && StartsAre(Contents(), window, starts[..n])
      modifies `count, claims
      ensures Valid()
      ensures AllocSpec(old(Contents()), window, size, kind, r, Contents())
    {
      ghost var t, s := Contents(), starts[..n];
      var i := 0;
      while i < n
        invariant 0 <= i <= n && Valid() && Contents() == t
        invariant |t| < MAX_CLAIMS ==> NoneFit(t, window, size, s[..i])
      {
        var start := if starts[i] < window.min then window.min else starts[i];
        var end := Wrap64(start + size);
        assert start == Raise(window, s[i]) && s[..i + 1] == s[..i] + [s[i]];
        if !(end > window.max || end < start) {
          var hit := ScanOverlap(start, end);
          if !hit {
            var ok := ClaimLocked(start, size, kind);
            if ok {
              FirstIsPick(t, window, size, s, i);
              return Some(start);
            }
          }
        }
        i := i + 1;
      }
      assert s[..n] == s;
      return None;
    }

    method FreeLocked(base: u64) returns (ok: bool)
      requires Valid()
      modifies claims
      ensures Valid()
      ensures ok == FirstUsed(old(Contents()), base).Some?
      ensures Contents() == Freed(old(Contents()), base)
    {
      var i := 0;
      while i < count
        invariant 0 <= i <= count && Valid() && Contents() == old(Contents())
        invariant FirstUsed(Contents(), base) == FirstUsedFrom(Contents(), base, i)
      {
        if claims[i].used && claims[i].base == base {
          claims[i] := claims[i].(used := false);
          return true;
        }
        i := i + 1;
      }
      return false;
    }
  }
}
