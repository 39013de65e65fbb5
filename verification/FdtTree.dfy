/** The tree a structure block spells out (Devicetree Specification, section 5.4),
    and the walkers' agreement with it. A tree node carries the offset of its
    BEGIN_NODE token and the offset just past its END_NODE. */
module FdtTree {
  import opened Words
  import opened Fdt

  datatype Node = Node(off: nat, end: nat, items: Items)

  /** What lies between a node's name and its END_NODE, in order. */
  datatype Items = Done | Nop(rest: Items) | Property(pos: nat, rest: Items) | Child(node: Node, rest: Items)

  // ---------------------------------------------------------------- well-formedness

  /** The property token at p is complete and its name is in the strings block. */
  ghost predicate IsProperty(f: Fdt, p: nat)
    requires f.Valid()
  {
    && Token(f, p) == PROP && AfterProp(f, p).Some? && Be32(f.b, p + 8) < f.strend - f.str
  }

  ghost predicate IsNode(f: Fdt, t: Node)
    requires f.Valid()
    decreases t
  {
    && AfterName(f, t.off).Some?
    && IsItems(f, AfterName(f, t.off).value, t.items, t.end, true)
  }

  /** Properties come before children; NOPs may come anywhere. */
  ghost predicate IsItems(f: Fdt, p: nat, l: Items, end: nat, early: bool)
    requires f.Valid()
    decreases l
  {
    && Ok(f, p, 4)
    && match l
       case Done => Token(f, p) == END_NODE && end == p + 4
       case Nop(r) => Token(f, p) == NOP && IsItems(f, p + 4, r, end, early)
       case Property(pos, r) =>
         early && pos == p && IsProperty(f, p) && IsItems(f, AfterProp(f, p).value, r, end, true)
       case Child(t, r) =>
         t.off == p && IsNode(f, t) && IsItems(f, t.end, r, end, false)
  }

  /** The whole structure block is the tree t, closed by an END token. */
  ghost predicate IsBlob(f: Fdt, t: Node) {
    && f.Valid() && Be32(f.b, 0) == MAGIC && t.off == f.s && IsNode(f, t)
    && Ok(f, t.end, 4) && Token(f, t.end) == END
  }

  function Kids(l: Items): seq<Node> {
    match l
    case Done => []
    case Nop(r) => Kids(r)
    case Property(_, r) => Kids(r)
    case Child(t, r) => [t] + Kids(r)
  }

  function Offset(ts: seq<Node>): int { if ts == [] then NONE else ts[0].off }

  // ---------------------------------------------------------------- skipping

  lemma {:induction false} SkipsItems(f: Fdt, p: nat, l: Items, end: nat, early: bool, depth: int)
    requires f.Valid() && IsItems(f, p, l, end, early) && 1 <= depth
    ensures SkipFrom(f, p, depth) == if depth == 1 then end else SkipFrom(f, end, depth - 1)
    decreases l
  {
    match l
    case Done =>
    case Nop(r) => SkipsItems(f, p + 4, r, end, early, depth);
    case Property(_, r) => SkipsItems(f, AfterProp(f, p).value, r, end, true, depth);
    case Child(t, r) =>
      SkipsNode(f, t, depth);
      SkipsItems(f, t.end, r, end, false, depth);
  }

  /** skip_node lands exactly past the matching END_NODE, at any depth. */
  lemma {:induction false} SkipsNode(f: Fdt, t: Node, depth: int)
    requires f.Valid() && IsNode(f, t) && 0 <= depth
    ensures SkipFrom(f, t.off, depth) == if depth == 0 then t.end else SkipFrom(f, t.end, depth)
    decreases t
  {
    SkipsItems(f, AfterName(f, t.off).value, t.items, t.end, true, depth + 1);
  }

  // ---------------------------------------------------------------- children

  lemma {:induction false} FirstOfItems(f: Fdt, p: nat, l: Items, end: nat, early: bool)
    requires f.Valid() && IsItems(f, p, l, end, early)
    ensures FirstFrom(f, p) == Offset(Kids(l))
    decreases l
  {
    match l
    case Done =>
    case Nop(r) => FirstOfItems(f, p + 4, r, end, early);
    case Property(_, r) => FirstOfItems(f, AfterProp(f, p).value, r, end, true);
    case Child(t, r) =>
  }

  /** fdt_first_child finds the first child. */
  lemma FirstChildIsFirst(f: Fdt, t: Node)
    requires f.Valid() && IsNode(f, t)
    ensures FirstChildOf(f, t.off) == Offset(Kids(t.items))
  {
    FirstOfItems(f, AfterName(f, t.off).value, t.items, t.end, true);
  }

  lemma {:induction false} SiblingOfItems(f: Fdt, p: nat, l: Items, end: nat)
    requires f.Valid() && IsItems(f, p, l, end, false)
    ensures SiblingFrom(f, p) == Offset(Kids(l))
    decreases l
  {
    match l
    case Done =>
    case Nop(r) => SiblingOfItems(f, p + 4, r, end);
    case Child(t, r) =>
  }

  // ---------------------------------------------------------------- extents

  predicate InNode(t: Node, x: int)
    decreases t
  {
    t.off == x || InItems(t.items, x)
  }

  /** x is the offset of a node among these items or below them. */
  predicate InItems(l: Items, x: int)
    decreases l
  {
    match l
    case Done => false
    case Nop(r) => InItems(r, x)
    case Property(_, r) => InItems(r, x)
    case Child(t, r) => InNode(t, x) || InItems(r, x)
  }

  lemma {:induction false} ItemsExtent(f: Fdt, p: nat, l: Items, end: nat, early: bool)
    requires f.Valid() && IsItems(f, p, l, end, early)
    ensures p < end && forall x :: InItems(l, x) ==> p <= x < end
    decreases l
  {
    match l
    case Done =>
    case Nop(r) => ItemsExtent(f, p + 4, r, end, early);
    case Property(_, r) => ItemsExtent(f, AfterProp(f, p).value, r, end, true);
    case Child(t, r) =>
      NodeExtent(f, t);
      ItemsExtent(f, t.end, r, end, false);
  }

  /** A node's descendants lie strictly inside it. */
  lemma {:induction false} NodeExtent(f: Fdt, t: Node)
    requires f.Valid() && IsNode(f, t)
    ensures t.off < t.end && forall x :: InItems(t.items, x) ==> t.off < x < t.end
    ensures forall x :: InNode(t, x) ==> t.off <= x < t.end
    decreases t
  {
    ItemsExtent(f, AfterName(f, t.off).value, t.items, t.end, true);
  }

  // ---------------------------------------------------------------- parents

  /** The tree's own answer to "whose child is x", below open ancestors. */
  function AnswerNode(t: Node, open: seq<int>, x: int): int
    decreases t
  {
    if t.off == x then ParentAnswer(open) else AnswerItems(t.items, open + [t.off], x)
  }

  function AnswerItems(l: Items, open: seq<int>, x: int): int
    decreases l
  {
    match l
    case Done => NONE
    case Nop(r) => AnswerItems(r, open, x)
    case Property(_, r) => AnswerItems(r, open, x)
    case Child(t, r) => if InNode(t, x) then AnswerNode(t, open, x) else AnswerItems(r, open, x)
  }

  /** The scan of fdt_parent_offset over a list of items: it answers inside, or it
      comes out at the end with the enclosing node closed. */
  lemma {:induction false} ScanItems(f: Fdt, p: nat, l: Items, end: nat, early: bool, open: seq<int>, x: nat)
    requires f.Valid() && IsItems(f, p, l, end, early) && 1 <= |open|
    ensures ParentFrom(f, p, open, x) ==
            if InItems(l, x) then AnswerItems(l, open, x)
            else if |open| == 1 then NONE
            else ParentFrom(f, end, open[..|open| - 1], x)
    decreases l
  {
    match l
    case Done =>
    case Nop(r) => ScanItems(f, p + 4, r, end, early, open, x);
    case Property(_, r) => ScanItems(f, AfterProp(f, p).value, r, end, true, open, x);
    case Child(t, r) =>
      ScanNode(f, t, open, x);
      ScanItems(f, t.end, r, end, false, open, x);
  }

  lemma {:induction false} ScanNode(f: Fdt, t: Node, open: seq<int>, x: nat)
    requires f.Valid() && IsNode(f, t)
    ensures ParentFrom(f, t.off, open, x) ==
            if InNode(t, x) then AnswerNode(t, open, x)
            else if open == [] then NONE
            else ParentFrom(f, t.end, open, x)
    decreases t
  {
    if t.off != x {
      ScanItems(f, AfterName(f, t.off).value, t.items, t.end, true, open + [t.off], x);
      assert (open + [t.off])[..|open + [t.off]| - 1] == open;
    }
  }

  /** A way down the tree: each node a child of the one before. */
  ghost predicate IsPath(path: seq<Node>) {
    0 < |path| && forall i :: 0 <= i < |path| - 1 ==> path[i + 1] in Kids(path[i].items)
  }

  function Offsets(path: seq<Node>): (r: seq<int>)
    ensures |r| == |path| && forall i :: 0 <= i < |path| ==> r[i] == path[i].off
  {
    seq(|path|, i requires 0 <= i < |path| => path[i].off)
  }

  lemma {:induction false} KidInItems(l: Items, k: Node)
    requires k in Kids(l)
    ensures forall x :: InNode(k, x) ==> InItems(l, x)
    decreases l
  {
    match l
    case Nop(r) => KidInItems(r, k);
    case Property(_, r) => KidInItems(r, k);
    case Child(t, r) => if k != t { KidInItems(r, k); }
  }

  lemma {:induction false} KidIsNode(f: Fdt, p: nat, l: Items, end: nat, early: bool, k: Node)
    requires f.Valid() && IsItems(f, p, l, end, early) && k in Kids(l)
    ensures IsNode(f, k) && p <= k.off && k.end < end
    decreases l
  {
    match l
    case Nop(r) => KidIsNode(f, p + 4, r, end, early, k);
    case Property(_, r) => KidIsNode(f, AfterProp(f, p).value, r, end, true, k);
    case Child(t, r) =>
      NodeExtent(f, t);
      ItemsExtent(f, t.end, r, end, false);
      if k != t { KidIsNode(f, t.end, r, end, false, k); }
  }

  /** Among items, only the child that holds x is entered for it. */
  lemma {:induction false} AnswerThroughKid(f: Fdt, p: nat, l: Items, end: nat, early: bool, k: Node, open: seq<int>,
                                            x: int)
    requires f.Valid() && IsItems(f, p, l, end, early) && k in Kids(l) && InNode(k, x)
    ensures AnswerItems(l, open, x) == AnswerNode(k, open, x)
    decreases l
  {
    match l
    case Nop(r) => AnswerThroughKid(f, p + 4, r, end, early, k, open, x);
    case Property(_, r) => AnswerThroughKid(f, AfterProp(f, p).value, r, end, true, k, open, x);
    case Child(t, r) =>
      if k != t {
        NodeExtent(f, t);
        KidIsNode(f, t.end, r, end, false, k);
        NodeExtent(f, k);
        AnswerThroughKid(f, t.end, r, end, false, k, open, x);
      }
  }

  lemma {:induction false} PathInside(f: Fdt, path: seq<Node>, i: nat)
    requires f.Valid() && IsPath(path) && IsNode(f, path[0]) && i < |path|
    ensures IsNode(f, path[i])
  {
    if i > 0 {
      PathInside(f, path, i - 1);
      KidIsNode(f, AfterName(f, path[i - 1].off).value, path[i - 1].items, path[i - 1].end, true, path[i]);
    }
  }

  lemma {:induction false} AnswerOnPath(f: Fdt, path: seq<Node>, i: nat)
    requires f.Valid() && IsPath(path) && IsNode(f, path[0]) && i < |path|
    ensures InNode(path[i], path[|path| - 1].off)
    ensures AnswerNode(path[i], Offsets(path[..i]), path[|path| - 1].off) == ParentAnswer(Offsets(path[..|path| - 1]))
    decreases |path| - i
  {
    PathInside(f, path, i);
    var x := path[|path| - 1].off;
    if i < |path| - 1 {
      AnswerOnPath(f, path, i + 1);
      var t, k := path[i], path[i + 1];
      var p := AfterName(f, t.off).value;
      KidInItems(t.items, k);
      NodeExtent(f, t);
      assert Offsets(path[..i]) + [t.off] == Offsets(path[..i + 1]);
      AnswerThroughKid(f, p, t.items, t.end, true, k, Offsets(path[..i + 1]), x);
    }
  }

  /** fdt_parent_offset inverts the child enumeration: the parent of the last node
      of a path from the root is the node before it, as long as that one is within
      the MAX_DEPTH levels the scan remembers. */
  lemma ParentIsParent(f: Fdt, path: seq<Node>)
    requires IsPath(path) && IsBlob(f, path[0])
    ensures ParentOf(f, path[|path| - 1].off) ==
            if |path| == 1 || |path| - 2 >= MAX_DEPTH then NONE else path[|path| - 2].off
  {
    AnswerOnPath(f, path, 0);
    ScanNode(f, path[0], [], path[|path| - 1].off);
    assert Offsets(path[..0]) == [];
  }

  /** fdt_next_sibling steps through a node's children in order, on the levels whose
      parents fdt_parent_offset can name. */
  lemma NextSiblingIsNext(f: Fdt, path: seq<Node>, i: nat)
    requires IsPath(path) && IsBlob(f, path[0])
    requires i < |Kids(path[|path| - 1].items)|
    ensures var t := path[|path| - 1];
            NextSiblingOf(f, t.off, Kids(t.items)[i].off) ==
            if |path| <= MAX_DEPTH then Offset(Kids(t.items)[i + 1..]) else NONE
  {
    var t := path[|path| - 1];
    var k := Kids(t.items)[i];
    var down := path + [k];
    assert IsPath(down) by { assert forall j :: 0 <= j < |path| ==> down[j] == path[j]; }
    ParentIsParent(f, down);
    PathInside(f, down, |path| - 1);
    PathInside(f, down, |path|);
    SkipsNode(f, k, 0);
    AfterKid(f, AfterName(f, t.off).value, t.items, t.end, true, i);
  }

  /** Past the i-th child lie the items of the later ones. */
  lemma {:induction false} AfterKid(f: Fdt, p: nat, l: Items, end: nat, early: bool, i: nat)
    requires f.Valid() && IsItems(f, p, l, end, early) && i < |Kids(l)|
    ensures SiblingFrom(f, Kids(l)[i].end) == Offset(Kids(l)[i + 1..])
    decreases l
  {
    match l
    case Nop(r) => AfterKid(f, p + 4, r, end, early, i);
    case Property(_, r) => AfterKid(f, AfterProp(f, p).value, r, end, true, i);
    case Child(t, r) =>
      if i == 0 {
        SiblingOfItems(f, t.end, r, end);
        assert Kids(l)[1..] == Kids(r);
      } else {
        AfterKid(f, t.end, r, end, false, i - 1);
        assert Kids(l)[i + 1..] == Kids(r)[i..];
      }
  }
}
