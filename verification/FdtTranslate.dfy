/** What fdt_reg_to_cpu_addr computes, said with windows: every bus on the way up passes an
    address through its first window that contains it, or stops it (Devicetree Specification,
    section 2.3.8). */
module FdtTranslate {
  import opened Words
  import opened Fdt
  import opened FdtTree
  import opened FdtProps
  import opened FdtReg

  // ---------------------------------------------------------------- one bus

  /** The bus is the last node of the path; without ranges, or with an empty one, it maps one
      to one. */
  ghost predicate OneToOne(f: Fdt, path: seq<Node>)
    requires 0 < |path|
  {
    var p := FirstProp(f, path[|path| - 1].items, RANGES);
    p.None? || Be32(f.b, p.value + 4) == 0
  }

  ghost function BusWidths(f: Fdt, path: seq<Node>): Widths
    requires 0 < |path|
  {
    var t := path[|path| - 1];
    RangeWidths(CellsIn(f, FirstProp(f, t.items, ADDRESS_CELLS)), CellsIn(f, FirstProp(f, t.items, SIZE_CELLS)),
                TreeCells(f, path[..|path| - 1], None, None).0)
  }

  predicate OneOrTwo(n: u32) { n == 1 || n == 2 }

  ghost predicate PlainWidths(w: Widths) { OneOrTwo(w.child) && OneOrTwo(w.parent) && OneOrTwo(w.length) }

  /** The windows its ranges property lists. */
  ghost function BusWindows(f: Fdt, path: seq<Node>): seq<Window>
    requires 0 < |path| && !OneToOne(f, path) && PlainWidths(BusWidths(f, path))
  {
    var p, w := FirstProp(f, path[|path| - 1].items, RANGES).value, BusWidths(f, path);
    Windows(f, p, w, Quotient(Be32(f.b, p + 4), w.Entry()))
  }

  /** Counts of one or two cells, and no window runs past the end of either address space. */
  ghost predicate PlainBus(f: Fdt, path: seq<Node>)
    requires 0 < |path|
  {
    OneToOne(f, path) || (PlainWidths(BusWidths(f, path)) && Straight(BusWindows(f, path)))
  }

  /** x leaves the first of the windows that contain it as y. */
  ghost predicate FirstWindow(ws: seq<Window>, x: int, y: int) {
    exists k :: 0 <= k < |ws| && Contains(ws[k], x) && (forall j :: 0 <= j < k ==> !Contains(ws[j], x))
                && y - ws[k].parent == x - ws[k].child
  }

  ghost predicate Passes(f: Fdt, path: seq<Node>, x: int, y: int)
    requires 0 < |path| && PlainBus(f, path)
  {
    if OneToOne(f, path) then y == x else FirstWindow(BusWindows(f, path), x, y)
  }

  /** The bus has windows and none of them contains x. */
  ghost predicate Stops(f: Fdt, path: seq<Node>, x: int)
    requires 0 < |path| && PlainBus(f, path)
  {
    !OneToOne(f, path) && forall k :: 0 <= k < |BusWindows(f, path)| ==> !Contains(BusWindows(f, path)[k], x)
  }

  lemma FirstWindowUnique(ws: seq<Window>, x: int, y: int, z: int)
    requires FirstWindow(ws, x, y) && FirstWindow(ws, x, z)
    ensures y == z
  {
  }

  lemma PlainEntry(w: Widths)
    requires PlainWidths(w)
    ensures 12 <= w.Entry() <= 24
  {
  }

  lemma BusIsMap(f: Fdt, path: seq<Node>, x: u64)
    requires 0 < |path| && !OneToOne(f, path) && PlainWidths(BusWidths(f, path))
    ensures ThroughBus(f, path, x) == MapFrom(BusWindows(f, path), 0, x)
  {
    PlainEntry(BusWidths(f, path));
  }

  /** The code's step through a bus, in these terms. */
  lemma BusIffWindows(f: Fdt, path: seq<Node>, x: u64)
    requires 0 < |path| && PlainBus(f, path)
    ensures ThroughBus(f, path, x).None? <==> Stops(f, path, x)
    ensures ThroughBus(f, path, x).Some? ==> Passes(f, path, x, ThroughBus(f, path, x).value)
  {
    if !OneToOne(f, path) {
      BusIsMap(f, path, x);
      MapIsFirstWindow(BusWindows(f, path), 0, x);
    }
  }

  lemma PassesUnique(f: Fdt, path: seq<Node>, x: u64, y: int)
    requires 0 < |path| && PlainBus(f, path) && Passes(f, path, x, y)
    ensures ThroughBus(f, path, x) == Some(y)
  {
    BusIffWindows(f, path, x);
    if !OneToOne(f, path) {
      var ws := BusWindows(f, path);
      var k :| 0 <= k < |ws| && Contains(ws[k], x);
      FirstWindowUnique(ws, x, y, ThroughBus(f, path, x).value);
    }
  }

  // ---------------------------------------------------------------- the way up

  ghost predicate Plain(f: Fdt, path: seq<Node>) {
    forall k :: 1 < k <= |path| ==> PlainBus(f, path[..k])
  }

  lemma PlainUp(f: Fdt, path: seq<Node>)
    requires 1 < |path| && Plain(f, path)
    ensures PlainBus(f, path) && Plain(f, path[..|path| - 1])
  {
    assert path[..|path|] == path;
    var up := path[..|path| - 1];
    assert forall k :: 0 <= k <= |up| ==> up[..k] == path[..k];
  }

  /** Passed through every bus from the last node of the path to the root's child, a becomes b. */
  ghost predicate Carries(f: Fdt, path: seq<Node>, a: int, b: int)
    requires 0 < |path| && Plain(f, path)
    decreases |path|
  {
    if |path| == 1 then a == b
    else
      PlainUp(f, path);
      exists y :: Passes(f, path, a, y) && Carries(f, path[..|path| - 1], y, b)
  }

  /** On the way up, a arrives as x at the bus that ends path[..k]. */
  ghost predicate Reaches(f: Fdt, path: seq<Node>, a: int, k: nat, x: int)
    requires 0 < |path| && Plain(f, path)
    decreases |path|
  {
    if k == |path| then x == a
    else if |path| == 1 then false
    else
      PlainUp(f, path);
      exists y :: Passes(f, path, a, y) && Reaches(f, path[..|path| - 1], y, k, x)
  }

  /** Some bus on the way has windows, and none of them contains the address that arrives. */
  ghost predicate Stuck(f: Fdt, path: seq<Node>, a: int)
    requires 0 < |path| && Plain(f, path)
  {
    exists k: nat, x: int :: 1 < k <= |path| && Reaches(f, path, a, k, x) && Stops(f, path[..k], x)
  }

  lemma {:induction false} PathCarriesIff(f: Fdt, path: seq<Node>, a: u64, b: int)
    requires 0 < |path| && Plain(f, path)
    ensures (ThroughPath(f, path, a).Some? && ThroughPath(f, path, a).value == b) <==> Carries(f, path, a, b)
    decreases |path|
  {
    if |path| > 1 {
      PlainUp(f, path);
      BusIffWindows(f, path, a);
      var r := ThroughBus(f, path, a);
      if r.Some? { PathCarriesIff(f, path[..|path| - 1], r.value, b); }
      if Carries(f, path, a, b) {
        var y :| Passes(f, path, a, y) && Carries(f, path[..|path| - 1], y, b);
        PassesUnique(f, path, a, y);
      }
    }
  }

  lemma StuckBelow(f: Fdt, path: seq<Node>, a: u64, y: u64)
    requires 1 < |path| && Plain(f, path) && ThroughBus(f, path, a) == Some(y)
    ensures Plain(f, path[..|path| - 1])
    ensures Stuck(f, path, a) <==> Stuck(f, path[..|path| - 1], y)
  {
    var up := path[..|path| - 1];
    PlainUp(f, path);
    BusIffWindows(f, path, a);
    assert path[..|path|] == path;
    assert forall k :: 0 <= k <= |up| ==> up[..k] == path[..k];
    if Stuck(f, path, a) {
      var k: nat, x: int :| 1 < k <= |path| && Reaches(f, path, a, k, x) && Stops(f, path[..k], x);
      var z :| Passes(f, path, a, z) && Reaches(f, up, z, k, x);
      PassesUnique(f, path, a, z);
    }
    if Stuck(f, up, y) {
      var k: nat, x: int :| 1 < k <= |up| && Reaches(f, up, y, k, x) && Stops(f, up[..k], x);
      assert Reaches(f, path, a, k, x);
    }
  }

  lemma {:induction false} PathStuckIff(f: Fdt, path: seq<Node>, a: u64)
    requires 0 < |path| && Plain(f, path)
    ensures ThroughPath(f, path, a).None? <==> Stuck(f, path, a)
    decreases |path|
  {
    if |path| > 1 {
      PlainUp(f, path);
      BusIffWindows(f, path, a);
      var r := ThroughBus(f, path, a);
      if r.Some? {
        StuckBelow(f, path, a, r.value);
        PathStuckIff(f, path[..|path| - 1], r.value);
      } else {
        assert path[..|path|] == path;
        assert Reaches(f, path, a, |path|, a) && Stops(f, path[..|path|], a);
      }
    }
  }

  // ---------------------------------------------------------------- reg entries

  /** The bytes of one read lie in the value of the property at p. */
  predicate InValue(f: Fdt, p: nat, at: int, n: nat) { p + 12 <= at && at + n <= p + 12 + Be32(f.b, p + 4) }

  function ReadSize(cells: u32): nat { if cells == 1 then 4 else 8 }

  function EntrySize(ac: u32, sc: u32): u32 { Wrap32((ac + sc) * 4) }

  /** How far into an entry the code reads. */
  function ReadSpan(ac: u32, sc: u32): nat {
    var second := if sc == 0 then 0 else Wrap32(ac * 4) + ReadSize(sc);
    if second < ReadSize(ac) then ReadSize(ac) else second
  }

  /** Every byte the code reads for the index-th entry belongs to the property. */
  predicate ReadsInside(f: Fdt, p: nat, ac: u32, sc: u32, index: u32) {
    var e := p + 12 + index * EntrySize(ac, sc);
    InValue(f, p, e, ReadSize(ac)) && (sc != 0 ==> InValue(f, p, e + Wrap32(ac * 4), ReadSize(sc)))
  }

  lemma Times(index: nat, entry: nat)
    ensures (index + 1) * entry == index * entry + entry && index * entry >= 0
    ensures entry >= 4 ==> index * entry >= 4 * index
  {
    assert entry >= 4 ==> index * (entry - 4) >= 0;
  }

  lemma InsideIffSpan(f: Fdt, p: nat, ac: u32, sc: u32, index: u32)
    ensures ReadsInside(f, p, ac, sc, index) <==>
            index * EntrySize(ac, sc) + ReadSpan(ac, sc) <= Be32(f.b, p + 4)
  {
    Times(index, EntrySize(ac, sc));
  }

  /** Four times a count, wrapped, is no less than four unless it is nothing. */
  lemma WrappedQuarter(n: nat)
    ensures Wrap32(n * 4) == 0 || Wrap32(n * 4) >= 4
  {
    assert n * 4 == (n / 0x4000_0000) * TWO32 + (n % 0x4000_0000) * 4;
  }

  lemma BoundedBy(index: u32, entry: nat, len: u32)
    requires entry >= 4 && Wrap32(index + 1) * entry <= len
    ensures if index < TWO32 - 1 then index * entry + entry <= len else index * entry > len
  {
    Times(index, entry);
  }

  /** The bounds test keeps the entry inside, or lets the index 2^32 - 1 through. */
  lemma AcceptedIsBounded(f: Fdt, p: nat, ac: u32, sc: u32, index: u32)
    requires EntryIn(f, Some(p), ac, sc, index).Some?
    ensures if index < TWO32 - 1 then index * EntrySize(ac, sc) + EntrySize(ac, sc) <= Be32(f.b, p + 4)
            else index * EntrySize(ac, sc) > Be32(f.b, p + 4)
  {
    WrappedQuarter(ac + sc);
    BoundedBy(index, EntrySize(ac, sc), Be32(f.b, p + 4));
  }

  /** An accepted entry is read inside its property exactly when the index is not 2^32 - 1,
      whose successor wraps in the bounds test, and the reads fit the entry or what follows it. */
  lemma AcceptedReadsInsideIff(f: Fdt, p: nat, ac: u32, sc: u32, index: u32)
    requires EntryIn(f, Some(p), ac, sc, index).Some?
    ensures ReadsInside(f, p, ac, sc, index) <==>
            && index < TWO32 - 1
            && (ReadSpan(ac, sc) <= EntrySize(ac, sc)
                || index * EntrySize(ac, sc) + ReadSpan(ac, sc) <= Be32(f.b, p + 4))
  {
    InsideIffSpan(f, p, ac, sc, index);
    AcceptedIsBounded(f, p, ac, sc, index);
  }

  /** For all counts whose entry size does not wrap, the reads fit the entry, and what is
      accepted is the entries inside the property and the index 2^32 - 1. */
  lemma SmallCountsReadInside(f: Fdt, p: nat, ac: u32, sc: u32, index: u32)
    requires 0 < ac && ac + sc < 0x4000_0000
    ensures ReadSpan(ac, sc) <= EntrySize(ac, sc) == (ac + sc) * 4
    ensures EntryIn(f, Some(p), ac, sc, index).Some? <==>
            index == TWO32 - 1 || (index + 1) * ((ac + sc) * 4) <= Be32(f.b, p + 4)
  {
  }

  /** A count of 2^30 + 1 address cells makes entries of four bytes, of which eight are read. */
  lemma WrappedCountReadsOutside(f: Fdt, p: nat)
    requires Be32(f.b, p + 4) == 4
    ensures EntryIn(f, Some(p), 0x4000_0001, 0, 0).Some? && !ReadsInside(f, p, 0x4000_0001, 0, 0)
  {
  }

  // ---------------------------------------------------------------- the translation

  /** The counts that size the reg of the last node of the path. */
  ghost function RegCells(f: Fdt, path: seq<Node>): (u32, u32)
    requires 0 < |path|
  {
    TreeCells(f, path[..|path| - 1], None, None)
  }

  /** Its reg has an index-th entry. */
  ghost predicate HasEntry(f: Fdt, path: seq<Node>, index: nat)
    requires 0 < |path|
  {
    var p := FirstProp(f, path[|path| - 1].items, REG);
    var (ac, sc) := RegCells(f, path);
    p.Some? && (index + 1) * ((ac + sc) * 4) <= Be32(f.b, p.value + 4)
  }

  function Product(a: nat, b: nat): nat { a * b }

  /** ... with this address and size. */
  ghost function EntryAtIndex(f: Fdt, path: seq<Node>, index: nat): Range
    requires 0 < |path| && HasEntry(f, path, index)
  {
    var p := FirstProp(f, path[|path| - 1].items, REG).value;
    var (ac, sc) := RegCells(f, path);
    var e := p + 12 + Product(index, (ac + sc) * 4);
    Range(Cells(f, e, ac), if sc == 0 then 0 else Cells(f, e + ac * 4, sc))
  }

  ghost predicate PlainReg(f: Fdt, path: seq<Node>, index: u32) {
    && Climbable(f, path) && Plain(f, path) && index < TWO32 - 1
    && OneOrTwo(RegCells(f, path).0) && RegCells(f, path).1 <= 2
  }

  lemma SmallEntry(f: Fdt, p: nat, ac: u32, sc: u32, index: u32)
    requires OneOrTwo(ac) && sc <= 2 && index < TWO32 - 1
    ensures var entry, e := EntryIn(f, Some(p), ac, sc, index), p + 12 + Product(index, (ac + sc) * 4);
            && (entry.Some? <==> (index + 1) * ((ac + sc) * 4) <= Be32(f.b, p + 4))
            && (entry.Some? ==>
                  entry.value == Range(Cells(f, e, ac), if sc == 0 then 0 else Cells(f, e + ac * 4, sc)))
  {
    SmallCountsReadInside(f, p, ac, sc, index);
  }

  lemma EntryIff(f: Fdt, path: seq<Node>, index: u32)
    requires PlainReg(f, path, index)
    ensures var (ac, sc) := RegCells(f, path);
            var entry := EntryIn(f, FirstProp(f, path[|path| - 1].items, REG), ac, sc, index);
            && (entry.Some? <==> HasEntry(f, path, index))
            && (entry.Some? ==> entry.value == EntryAtIndex(f, path, index))
  {
    var p := FirstProp(f, path[|path| - 1].items, REG);
    var (ac, sc) := RegCells(f, path);
    if p.Some? { SmallEntry(f, p.value, ac, sc, index); }
  }

  /** fdt_reg_to_cpu_addr, on buses with one- or two-cell counts and windows that stay inside
      the address spaces. It fails exactly when there is no such entry or some bus on the way
      has windows none of which contains the address that arrives there. Otherwise the result
      is the entry's address carried through the first containing window of every bus, in
      exact arithmetic, with the entry's size. */
  lemma RegTranslates(f: Fdt, path: seq<Node>, index: u32, b: u64, z: u64)
    requires PlainReg(f, path, index)
    ensures RegToCpu(f, path[|path| - 1].off, index).None? <==>
            !HasEntry(f, path, index) || Stuck(f, path, EntryAtIndex(f, path, index).base)
    ensures RegToCpu(f, path[|path| - 1].off, index) == Some(Range(b, z)) <==>
            && HasEntry(f, path, index) && z == EntryAtIndex(f, path, index).size
            && Carries(f, path, EntryAtIndex(f, path, index).base, b)
  {
    EntryIff(f, path, index);
    RegIsThroughPath(f, path, index);
    if HasEntry(f, path, index) {
      PathStuckIff(f, path, EntryAtIndex(f, path, index).base);
      PathCarriesIff(f, path, EntryAtIndex(f, path, index).base, b);
    }
  }

  // ---------------------------------------------------------------- the node's own ranges

  /** The translation of the entry through the enclosing buses alone. */
  ghost function EnclosingOnly(f: Fdt, path: seq<Node>, index: nat): Option<Range>
    requires 1 < |path|
  {
    if !HasEntry(f, path, index) then None
    else
      var e := EntryAtIndex(f, path, index);
      var a := ThroughPath(f, path[..|path| - 1], e.base);
      if a.Some? then Some(Range(a.value, e.size)) else None
  }

  /** Above, y fares as x does. */
  ghost predicate SameAbove(f: Fdt, up: seq<Node>, x: u64, y: u64)
    requires 0 < |up|
  {
    ThroughPath(f, up, x) == ThroughPath(f, up, y)
  }

  /** The code applies the node's own ranges first. That makes no difference exactly when there
      is no entry, no own window, the address is stopped both ways, or the enclosing buses take
      it and what the own window makes of it to the same place. */
  lemma OwnRangesHarmlessIff(f: Fdt, path: seq<Node>, index: u32)
    requires PlainReg(f, path, index) && 1 < |path|
    ensures Plain(f, path[..|path| - 1]) && PlainBus(f, path)
    ensures RegToCpu(f, path[|path| - 1].off, index) == EnclosingOnly(f, path, index) <==>
            || !HasEntry(f, path, index)
            || OneToOne(f, path)
            || (var x, up := EntryAtIndex(f, path, index).base, path[..|path| - 1];
                || (Stops(f, path, x) && Stuck(f, up, x))
                || (exists y: u64 :: Passes(f, path, x, y) && SameAbove(f, up, x, y)))
  {
    PlainUp(f, path);
    EntryIff(f, path, index);
    RegIsThroughPath(f, path, index);
    if HasEntry(f, path, index) {
      var x, up := EntryAtIndex(f, path, index).base, path[..|path| - 1];
      BusIffWindows(f, path, x);
      PathStuckIff(f, up, x);
      if y: u64 :| Passes(f, path, x, y) && SameAbove(f, up, x, y) { PassesUnique(f, path, x, y); }
    }
  }

  /** For a node directly under the root: exactly when it has no own window, or the first one
      containing the address maps it to itself. */
  lemma OwnRangesUnderRootIff(f: Fdt, path: seq<Node>, index: u32)
    requires PlainReg(f, path, index) && |path| == 2
    ensures PlainBus(f, path)
    ensures RegToCpu(f, path[1].off, index) == EnclosingOnly(f, path, index) <==>
            || !HasEntry(f, path, index)
            || OneToOne(f, path)
            || Passes(f, path, EntryAtIndex(f, path, index).base, EntryAtIndex(f, path, index).base)
  {
    PlainUp(f, path);
    EntryIff(f, path, index);
    RegIsThroughPath(f, path, index);
    if HasEntry(f, path, index) {
      var x := EntryAtIndex(f, path, index).base;
      BusIffWindows(f, path, x);
      if Passes(f, path, x, x) { PassesUnique(f, path, x, x); }
    }
  }
}
