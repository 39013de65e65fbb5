/** Cell counts and address translation of lib/fdt.c: a reg entry carried up the tree
    through every bus's ranges (Devicetree Specification, sections 2.3.6 and 2.3.8). */
module FdtReg {
  import opened Words
  import opened Fdt
  import opened FdtTree
  import opened FdtProps

  const ADDRESS_CELLS: Name := [35, 97, 100, 100, 114, 101, 115, 115, 45, 99, 101, 108, 108, 115]
  const SIZE_CELLS: Name := [35, 115, 105, 122, 101, 45, 99, 101, 108, 108, 115]
  const REG: Name := [114, 101, 103]
  const RANGES: Name := [114, 97, 110, 103, 101, 115]

  datatype Range = Range(base: u64, size: u64)

  function Cells(f: Fdt, p: nat, cells: u32): u64 {
    if cells == 1 then Be32(f.b, p) else Be64(f.b, p)
  }

  function Or(a: Option<u32>, d: u32): u32 { if a.Some? then a.value else d }

  // ---------------------------------------------------------------- parents lie lower

  lemma {:induction false} ParentBelowFrom(f: Fdt, p: nat, open: seq<int>, x: nat)
    requires f.Valid() && forall i :: 0 <= i < |open| ==> open[i] < p
    ensures ParentFrom(f, p, open, x) < x
    decreases f.send - p
  {
    if Ok(f, p, 4) {
      if Token(f, p) == BEGIN_NODE {
        var n := NameLen(f, p + 4);
        if n.Some? && p != x { ParentBelowFrom(f, p + 4 + Align4(n.value + 1), open + [p], x); }
      } else if Token(f, p) == END_NODE {
        if |open| > 1 { ParentBelowFrom(f, p + 4, open[..|open| - 1], x); }
      } else if Token(f, p) == PROP {
        if Ok(f, p + 12, Be32(f.b, p + 4)) { ParentBelowFrom(f, p + 12 + Align4(Be32(f.b, p + 4)), open, x); }
      } else if Token(f, p) == NOP {
        ParentBelowFrom(f, p + 4, open, x);
      }
    }
  }

  lemma ParentBelow(f: Fdt, x: nat)
    requires f.Valid()
    ensures ParentOf(f, x) < x
  {
    ParentBelowFrom(f, f.s, [], x);
  }

  // ---------------------------------------------------------------- cell counts

  ghost function CellsIn(f: Fdt, p: Option<nat>): Option<u32> {
    if p.None? || Be32(f.b, p.value + 4) < 4 then None else Some(Be32(f.b, p.value + 12))
  }

  ghost function OwnCells(f: Fdt, off: nat, name: Name): Option<u32>
    requires f.Valid()
  {
    CellsIn(f, PropOf(f, off, name))
  }

  method OwnCellsOf(f: Fdt, off: nat, name: Name) returns (r: Option<u32>)
    requires f.Valid()
    ensures r == OwnCells(f, off, name)
  {
    var p := GetProp(f, off, name);
    if p.None? || Be32(f.b, p.value + 4) < 4 {
      return None;
    }
    return Some(Be32(f.b, p.value + 12));
  }

  /** fdt_parent_cells's climb from node `cur`, with what has been found so far. */
  ghost function CellsUp(f: Fdt, cur: int, ac: Option<u32>, sc: Option<u32>): (u32, u32)
    requires f.Valid()
    decreases if cur < 0 then 0 else cur + 1
  {
    if cur < 0 then (Or(ac, 2), Or(sc, 2))
    else
      var ac' := if ac.Some? then ac else OwnCells(f, cur, ADDRESS_CELLS);
      var sc' := if sc.Some? then sc else OwnCells(f, cur, SIZE_CELLS);
      if ac'.Some? && sc'.Some? then (ac'.value, sc'.value)
      else
        ParentBelow(f, cur);
        CellsUp(f, ParentOf(f, cur), ac', sc')
  }

  ghost function ParentCells(f: Fdt, off: nat): (u32, u32)
    requires f.Valid()
  {
    CellsUp(f, ParentOf(f, off), None, None)
  }

  method ParentCellsOf(f: Fdt, off: nat) returns (addr: u32, size: u32)
    requires f.Valid()
    ensures (addr, size) == ParentCells(f, off)
  {
    var ac: Option<u32>, sc: Option<u32> := None, None;
    var cur := ParentOffset(f, off);
    while cur >= 0
      invariant CellsUp(f, cur, ac, sc) == ParentCells(f, off)
      decreases if cur < 0 then 0 else cur + 1
    {
      if ac.None? {
        ac := OwnCellsOf(f, cur, ADDRESS_CELLS);
      }
      if sc.None? {
        sc := OwnCellsOf(f, cur, SIZE_CELLS);
      }
      if ac.Some? && sc.Some? {
        return ac.value, sc.value;
      }
      ParentBelow(f, cur);
      cur := ParentOffset(f, cur);
    }
    return Or(ac, 2), Or(sc, 2);
  }

  /** The nearest enclosing nodes that declare the counts, 2 when none does. */
  ghost function TreeCells(f: Fdt, up: seq<Node>, ac: Option<u32>, sc: Option<u32>): (u32, u32) {
    if up == [] then (Or(ac, 2), Or(sc, 2))
    else
      var t := up[|up| - 1];
      var ac' := if ac.Some? then ac else CellsIn(f, FirstProp(f, t.items, ADDRESS_CELLS));
      var sc' := if sc.Some? then sc else CellsIn(f, FirstProp(f, t.items, SIZE_CELLS));
      TreeCells(f, up[..|up| - 1], ac', sc')
  }

  lemma {:induction false} FoundStays(f: Fdt, up: seq<Node>, ac: u32, sc: u32)
    ensures TreeCells(f, up, Some(ac), Some(sc)) == (ac, sc)
  {
    if up != [] { FoundStays(f, up[..|up| - 1], ac, sc); }
  }

  ghost predicate Climbable(f: Fdt, path: seq<Node>) {
    IsPath(path) && IsBlob(f, path[0]) && |path| <= MAX_DEPTH + 1
  }

  lemma Shorter(f: Fdt, path: seq<Node>)
    requires Climbable(f, path) && 1 < |path|
    ensures Climbable(f, path[..|path| - 1]) && IsNode(f, path[|path| - 1])
    ensures ParentOf(f, path[|path| - 1].off) == path[|path| - 2].off
  {
    ParentIsParent(f, path);
    PathInside(f, path, |path| - 1);
  }

  lemma {:induction false} CellsUpIsTree(f: Fdt, path: seq<Node>, ac: Option<u32>, sc: Option<u32>)
    requires Climbable(f, path)
    ensures CellsUp(f, path[|path| - 1].off, ac, sc) == TreeCells(f, path, ac, sc)
    decreases |path|
  {
    var t := path[|path| - 1];
    PathInside(f, path, |path| - 1);
    GetPropIsFirst(f, t, ADDRESS_CELLS);
    GetPropIsFirst(f, t, SIZE_CELLS);
    var ac' := if ac.Some? then ac else OwnCells(f, t.off, ADDRESS_CELLS);
    var sc' := if sc.Some? then sc else OwnCells(f, t.off, SIZE_CELLS);
    if ac'.Some? && sc'.Some? {
      FoundStays(f, path[..|path| - 1], ac'.value, sc'.value);
    } else if |path| > 1 {
      Shorter(f, path);
      CellsUpIsTree(f, path[..|path| - 1], ac', sc');
    } else {
      ParentIsParent(f, path);
    }
  }

  /** fdt_parent_cells: each count comes from the nearest enclosing node that
      declares it, the two independently. */
  lemma ParentCellsIsTree(f: Fdt, path: seq<Node>)
    requires Climbable(f, path)
    ensures ParentCells(f, path[|path| - 1].off) == TreeCells(f, path[..|path| - 1], None, None)
  {
    if |path| > 1 {
      Shorter(f, path);
      CellsUpIsTree(f, path[..|path| - 1], None, None);
    } else {
      ParentIsParent(f, path);
    }
  }

  // ---------------------------------------------------------------- one bus

  /** The widths of one ranges entry: child address, parent address, length. */
  datatype Widths = Widths(child: u32, parent: u32, length: u32) {
    function Entry(): u32 { Wrap32((child + parent + length) * 4) }
  }

  /** Zero counts fall back to two cells. */
  function RangeWidths(ownAc: Option<u32>, ownSc: Option<u32>, busAc: u32): Widths {
    var a, s := Or(ownAc, 2), Or(ownSc, 2);
    Widths(if a == 0 then 2 else a, if busAc == 0 then 2 else busAc, if s == 0 then 2 else s)
  }

  datatype Window = Window(child: u64, parent: u64, size: u64)

  function WindowAt(f: Fdt, p: nat, w: Widths, i: nat): Window {
    var e := p + 12 + i * w.Entry();
    Window(Cells(f, e, w.child), Cells(f, e + Wrap32(w.child * 4), w.parent),
           Cells(f, e + Wrap32((w.child + w.parent) * 4), w.length))
  }

  function Quotient(len: nat, entry: nat): nat
    requires 0 < entry
  {
    len / entry
  }

  function Windows(f: Fdt, p: nat, w: Widths, n: nat): seq<Window> {
    seq(n, i requires 0 <= i < n => WindowAt(f, p, w, i))
  }

  predicate Holds(w: Window, a: u64) { w.child <= a < Wrap64(w.child + w.size) }

  /** The first window from the i-th on that holds the address, and where it leads. */
  function MapFrom(ws: seq<Window>, i: nat, a: u64): Option<u64>
    decreases |ws| - i
  {
    if i >= |ws| then None
    else if Holds(ws[i], a) then Some(Wrap64(ws[i].parent + (a - ws[i].child)))
    else MapFrom(ws, i + 1, a)
  }

  /** A property of length zero maps one to one; otherwise the first window decides. */
  function Through(f: Fdt, p: nat, w: Widths, a: u64): Option<u64> {
    var len := Be32(f.b, p + 4);
    if len == 0 then Some(a)
    else if w.Entry() == 0 then None
    else MapFrom(Windows(f, p, w, Quotient(len, w.Entry())), 0, a)
  }

  method TryWindows(f: Fdt, p: nat, w: Widths, a: u64) returns (r: Option<u64>)
    ensures r == Through(f, p, w, a)
  {
    var len := Be32(f.b, p + 4);
    if len == 0 {
      return Some(a);
    }
    if w.Entry() == 0 {
      return None;
    }
    var n, i := Quotient(len, w.Entry()), 0;
    ghost var ws := Windows(f, p, w, n);
    while i < n
      invariant MapFrom(ws, i, a) == MapFrom(ws, 0, a)
    {
      var win := WindowAt(f, p, w, i);
      assert win == ws[i];
      if Holds(win, a) {
        return Some(Wrap64(win.parent + (a - win.child)));
      }
      i := i + 1;
    }
    return None;
  }

  ghost predicate Contains(w: Window, a: int) { w.child <= a < w.child + w.size }

  ghost predicate Straight(ws: seq<Window>) {
    forall k :: 0 <= k < |ws| ==> ws[k].child + ws[k].size < TWO64 && ws[k].parent + ws[k].size < TWO64
  }

  lemma StraightWindow(w: Window, a: u64)
    requires w.child + w.size < TWO64 && w.parent + w.size < TWO64
    ensures Holds(w, a) <==> Contains(w, a)
    ensures Contains(w, a) ==> Wrap64(w.parent + (a - w.child)) == w.parent + (a - w.child)
  {
  }

  /** With windows that do not wrap, an address gets through exactly when some window
      contains it, and keeps its distance from the first such window's base. */
  lemma {:induction false} MapIsFirstWindow(ws: seq<Window>, i: nat, a: u64)
    requires Straight(ws)
    ensures var r := MapFrom(ws, i, a);
            && (r.None? <==> forall k :: i <= k < |ws| ==> !Contains(ws[k], a))
            && (r.Some? ==> exists k :: i <= k < |ws| && Contains(ws[k], a)
                                        && (forall j :: i <= j < k ==> !Contains(ws[j], a))
                                        && r.value - ws[k].parent == a - ws[k].child)
    decreases |ws| - i
  {
    if i < |ws| {
      MapIsFirstWindow(ws, i + 1, a);
      StraightWindow(ws[i], a);
    }
  }

  // ---------------------------------------------------------------- up the tree

  /** The code's climb: apply the ranges of `cur`, go to its parent, stop at the root. */
  ghost function Climb(f: Fdt, cur: nat, a: u64): Option<u64>
    requires f.Valid()
    decreases cur
  {
    ParentBelow(f, cur);
    var parent := ParentOf(f, cur);
    if parent < 0 then Some(a)
    else
      var p := PropOf(f, cur, RANGES);
      if p.None? then Climb(f, parent, a)
      else
        var w := RangeWidths(OwnCells(f, cur, ADDRESS_CELLS), OwnCells(f, cur, SIZE_CELLS), ParentCells(f, cur).0);
        match Through(f, p.value, w, a)
        case Some(a') => if parent == 0 && Be32(f.b, p.value + 4) != 0 then Some(a') else Climb(f, parent, a')
        case None => None
  }

  /** One bus of the tree: the last node of the path. */
  ghost function ThroughBus(f: Fdt, path: seq<Node>, a: u64): Option<u64>
    requires 0 < |path|
  {
    var t := path[|path| - 1];
    match FirstProp(f, t.items, RANGES)
    case None => Some(a)
    case Some(p) =>
      Through(f, p, RangeWidths(CellsIn(f, FirstProp(f, t.items, ADDRESS_CELLS)),
                                CellsIn(f, FirstProp(f, t.items, SIZE_CELLS)),
                                TreeCells(f, path[..|path| - 1], None, None).0), a)
  }

  /** The composition of the buses from the last node of the path up to the root's child. */
  ghost function ThroughPath(f: Fdt, path: seq<Node>, a: u64): Option<u64>
    requires 0 < |path|
  {
    if |path| == 1 then Some(a)
    else
      match ThroughBus(f, path, a)
      case Some(a') => ThroughPath(f, path[..|path| - 1], a')
      case None => None
  }

  /** The code sees the bus the tree has. */
  lemma BusAgrees(f: Fdt, path: seq<Node>)
    requires Climbable(f, path) && 1 < |path|
    ensures var t := path[|path| - 1];
            && PropOf(f, t.off, RANGES) == FirstProp(f, t.items, RANGES)
            && OwnCells(f, t.off, ADDRESS_CELLS) == CellsIn(f, FirstProp(f, t.items, ADDRESS_CELLS))
            && OwnCells(f, t.off, SIZE_CELLS) == CellsIn(f, FirstProp(f, t.items, SIZE_CELLS))
            && ParentCells(f, t.off) == TreeCells(f, path[..|path| - 1], None, None)
  {
    Shorter(f, path);
    GetPropIsFirst(f, path[|path| - 1], RANGES);
    GetPropIsFirst(f, path[|path| - 1], ADDRESS_CELLS);
    GetPropIsFirst(f, path[|path| - 1], SIZE_CELLS);
    ParentCellsIsTree(f, path);
  }

  lemma {:induction false} ClimbIsThroughPath(f: Fdt, path: seq<Node>, a: u64)
    requires Climbable(f, path)
    ensures Climb(f, path[|path| - 1].off, a) == ThroughPath(f, path, a)
    decreases |path|
  {
    if |path| == 1 {
      ParentIsParent(f, path);
    } else {
      Shorter(f, path);
      BusAgrees(f, path);
      NoNodeAtZero(f, path[..|path| - 1]);
      var r := ThroughBus(f, path, a);
      if r.Some? { ClimbIsThroughPath(f, path[..|path| - 1], r.value); }
    }
  }

  /** The header's magic number sits at offset 0, so no node does. */
  lemma NoNodeAtZero(f: Fdt, path: seq<Node>)
    requires Climbable(f, path)
    ensures path[|path| - 1].off != 0
  {
    PathInside(f, path, |path| - 1);
  }

  // ---------------------------------------------------------------- reg entries

  /** The index-th entry of the reg property at token offset p, in C's widths: the
      32-bit products and index + 1 wrap. */
  function EntryIn(f: Fdt, p: Option<nat>, ac: u32, sc: u32, index: u32): Option<Range> {
    if p.None? || ac == 0 then None
    else
      var entry := Wrap32((ac + sc) * 4);
      if entry == 0 || Wrap32(index + 1) * entry > Be32(f.b, p.value + 4) then None
      else
        var e := p.value + 12 + index * entry;
        Some(Range(Cells(f, e, ac), if sc == 0 then 0 else Cells(f, e + Wrap32(ac * 4), sc)))
  }

  ghost function RegToCpu(f: Fdt, off: nat, index: u32): Option<Range>
    requires f.Valid()
  {
    var (ac, sc) := ParentCells(f, off);
    match EntryIn(f, PropOf(f, off, REG), ac, sc, index)
    case None => None
    case Some(r) =>
      match Climb(f, off, r.base)
      case Some(a) => Some(Range(a, r.size))
      case None => None
  }

  method RegToCpuAddr(f: Fdt, off: nat, index: u32) returns (r: Option<Range>)
    requires f.Valid()
    ensures r == RegToCpu(f, off, index)
  {
    var ac, sc := ParentCellsOf(f, off);
    var reg := GetProp(f, off, REG);
    var entry := EntryIn(f, reg, ac, sc, index);
    if entry.None? {
      return None;
    }
    var a := ClimbRanges(f, off, entry.value.base);
    if a.None? {
      return None;
    }
    return Some(Range(a.value, entry.value.size));
  }

  method CrossBus(f: Fdt, cur: nat, p: nat, a: u64) returns (r: Option<u64>)
    requires f.Valid()
    ensures r == Through(f, p, RangeWidths(OwnCells(f, cur, ADDRESS_CELLS), OwnCells(f, cur, SIZE_CELLS),
                                           ParentCells(f, cur).0), a)
  {
    var busAc, _ := ParentCellsOf(f, cur);
    var ownAc := OwnCellsOf(f, cur, ADDRESS_CELLS);
    var ownSc := OwnCellsOf(f, cur, SIZE_CELLS);
    r := TryWindows(f, p, RangeWidths(ownAc, ownSc, busAc), a);
  }

  method ClimbRanges(f: Fdt, off: nat, start: u64) returns (r: Option<u64>)
    requires f.Valid()
    ensures r == Climb(f, off, start)
  {
    var cur: nat, a: u64 := off, start;
    while true
      invariant Climb(f, cur, a) == Climb(f, off, start)
      decreases cur
    {
      ParentBelow(f, cur);
      var parent := ParentOffset(f, cur);
      if parent < 0 {
        return Some(a);
      }
      var p := GetProp(f, cur, RANGES);
      if p.Some? {
        var next := CrossBus(f, cur, p.value, a);
        if next.None? {
          return None;
        }
        a := next.value;
        if parent == 0 && Be32(f.b, p.value + 4) != 0 {
          return Some(a);
        }
      }
      cur := parent;
    }
  }

  /** fdt_reg_to_cpu_addr on the tree: the entry sized by the enclosing counts, then
      every bus from the node itself upward. */
  lemma RegIsThroughPath(f: Fdt, path: seq<Node>, index: u32)
    requires Climbable(f, path)
    ensures var t := path[|path| - 1];
            var cells := TreeCells(f, path[..|path| - 1], None, None);
            var entry := EntryIn(f, FirstProp(f, t.items, REG), cells.0, cells.1, index);
            && (entry.None? ==> RegToCpu(f, t.off, index) == None)
            && (entry.Some? ==>
                  var a := ThroughPath(f, path, entry.value.base);
                  RegToCpu(f, t.off, index) == if a.Some? then Some(Range(a.value, entry.value.size)) else None)
  {
    var t := path[|path| - 1];
    PathInside(f, path, |path| - 1);
    ParentCellsIsTree(f, path);
    GetPropIsFirst(f, t, REG);
    var (ac, sc) := ParentCells(f, t.off);
    var entry := EntryIn(f, PropOf(f, t.off, REG), ac, sc, index);
    if entry.Some? { ClimbIsThroughPath(f, path, entry.value.base); }
  }
}
