/** The read-only device-tree walker of lib/fdt.c. Every scanning loop appears
    twice: as a method that does what the C loop does, and as the tail-recursive
    function it is proved to compute. Blobs are below 2 GiB, so that an offset
    fits the C int and no padding computation wraps. */
module Fdt {
  import opened Words

  const BEGIN_NODE: nat := 1
  const END_NODE: nat := 2
  const PROP: nat := 3
  const NOP: nat := 4
  const END: nat := 9
  const MAGIC: nat := 0xd00dfeed
  const MAX_DEPTH: nat := 16
  const NONE: int := -1   // FDT_ERR_NODE

  /** ctx_t: the blob with the bounds of its structure and strings blocks. */
  datatype Fdt = Fdt(b: seq<byte>, s: nat, send: nat, str: nat, strend: nat) {
    predicate Valid() { s <= send <= |b| && str <= strend <= |b| && |b| < 0x8000_0000 }
  }

  function Be32(b: seq<byte>, p: nat): u32 {
    if p + 4 <= |b| then
      var b0: int, b1: int, b2: int, b3: int := b[p], b[p + 1], b[p + 2], b[p + 3];
      b0 * 0x100_0000 + b1 * 0x1_0000 + b2 * 0x100 + b3
    else 0
  }

  function Be64(b: seq<byte>, p: nat): u64 { Be32(b, p) * TWO32 + Be32(b, p + 4) }

  /** ctx_init on a blob whose header is there to read. */
  function Open(b: seq<byte>): (r: Option<Fdt>)
    requires 40 <= |b| < 0x8000_0000
    ensures r.Some? && Be32(b, 4) <= |b| ==> r.value.Valid() && r.value.b == b
  {
    var total, offStruct, offStrings := Be32(b, 4), Be32(b, 8), Be32(b, 12);
    var sizeStrings, sizeStruct := Be32(b, 32), Be32(b, 36);
    if Be32(b, 0) != MAGIC then None
    else if offStruct > total || sizeStruct > total - offStruct then None
    else if offStrings > total || sizeStrings > total - offStrings then None
    else Some(Fdt(b, offStruct, offStruct + sizeStruct, offStrings, offStrings + sizeStrings))
  }

  predicate Ok(f: Fdt, p: nat, n: nat) { f.s <= p <= f.send && n <= f.send - p }

  function Token(f: Fdt, p: nat): u32 { Be32(f.b, p) }

  function Align4(v: nat): nat { (v + 3) / 4 * 4 }

  /** node_name: the length of the NUL-terminated name at p. */
  function NameLen(f: Fdt, p: nat): Option<nat>
    requires f.Valid()
  {
    NameLenFrom(f, p, 0)
  }

  function NameLenFrom(f: Fdt, p: nat, n: nat): Option<nat>
    requires f.Valid()
    decreases f.send - (p + n)
  {
    if !Ok(f, p + n, 1) then None else if f.b[p + n] == 0 then Some(n) else NameLenFrom(f, p, n + 1)
  }

  method NodeName(f: Fdt, p: nat) returns (len: Option<nat>)
    requires f.Valid()
    ensures len == NameLen(f, p)
  {
    var n := 0;
    while Ok(f, p + n, 1) && f.b[p + n] != 0
      invariant NameLenFrom(f, p, n) == NameLen(f, p)
      decreases f.send - (p + n)
    {
      n := n + 1;
    }
    return if Ok(f, p + n, 1) then Some(n) else None;
  }

  /** Where a node's properties and children begin. */
  function AfterName(f: Fdt, off: nat): Option<nat>
    requires f.Valid()
  {
    if !Ok(f, off, 4) || Token(f, off) != BEGIN_NODE then None
    else
      match NameLen(f, off + 4)
      case Some(n) => Some(off + 4 + Align4(n + 1))
      case None => None
  }

  /** Past a property whose token is at p, or None when it does not fit. */
  function AfterProp(f: Fdt, p: nat): (r: Option<nat>)
    ensures r.Some? ==> p < r.value
  {
    if !Ok(f, p + 4, 8) || !Ok(f, p + 12, Be32(f.b, p + 4)) then None else Some(p + 12 + Align4(Be32(f.b, p + 4)))
  }

  // ---------------------------------------------------------------- skip_node

  function SkipFrom(f: Fdt, p: nat, depth: int): int
    requires f.Valid()
    decreases f.send - p
  {
    if !Ok(f, p, 4) then NONE
    else if Token(f, p) == BEGIN_NODE then
      match NameLen(f, p + 4)
      case Some(n) => SkipFrom(f, p + 4 + Align4(n + 1), depth + 1)
      case None => NONE
    else if Token(f, p) == END_NODE then
      if depth - 1 <= 0 then p + 4 else SkipFrom(f, p + 4, depth - 1)
    else if Token(f, p) == PROP then
      match AfterProp(f, p)
      case Some(q) => SkipFrom(f, q, depth)
      case None => NONE
    else if Token(f, p) == NOP then SkipFrom(f, p + 4, depth)
    else NONE
  }

  method SkipNode(f: Fdt, off: nat) returns (r: int)
    requires f.Valid()
    ensures r == SkipFrom(f, off, 0)
  {
    var p, depth := off, 0;
    while true
      invariant SkipFrom(f, p, depth) == SkipFrom(f, off, 0)
      decreases f.send - p
    {
      if !Ok(f, p, 4) {
        return NONE;
      }
      var token := Token(f, p);
      if token == BEGIN_NODE {
        var n := NodeName(f, p + 4);
        if n.None? {
          return NONE;
        }
        p := p + 4 + Align4(n.value + 1);
        depth := depth + 1;
      } else if token == END_NODE {
        depth := depth - 1;
        if depth <= 0 {
          return p + 4;
        }
        p := p + 4;
      } else if token == PROP {
        var q := AfterProp(f, p);
        if q.None? {
          return NONE;
        }
        p := q.value;
      } else if token == NOP {
        p := p + 4;
      } else {
        return NONE;
      }
    }
  }

  // ---------------------------------------------------------------- children

  /** The first child among the items starting at p. */
  function FirstFrom(f: Fdt, p: nat): int
    requires f.Valid()
    decreases f.send - p
  {
    if !Ok(f, p, 4) then NONE
    else if Token(f, p) == BEGIN_NODE then p
    else if Token(f, p) == PROP then
      if !Ok(f, p + 12, Be32(f.b, p + 4)) then NONE else FirstFrom(f, p + 12 + Align4(Be32(f.b, p + 4)))
    else if Token(f, p) == NOP then FirstFrom(f, p + 4)
    else NONE
  }

  function FirstChildOf(f: Fdt, parent: nat): int
    requires f.Valid()
  {
    match AfterName(f, parent)
    case Some(p) => FirstFrom(f, p)
    case None => NONE
  }

  method FirstChild(f: Fdt, parent: nat) returns (r: int)
    requires f.Valid()
    ensures r == FirstChildOf(f, parent)
  {
    var start := AfterName(f, parent);
    if start.None? {
      return NONE;
    }
    var p := start.value;
    while true
      invariant FirstFrom(f, p) == FirstFrom(f, start.value)
      decreases f.send - p
    {
      if !Ok(f, p, 4) {
        return NONE;
      }
      var token := Token(f, p);
      if token == BEGIN_NODE {
        return p;
      } else if token == PROP {
        var len := Be32(f.b, p + 4);
        if !Ok(f, p + 12, len) {
          return NONE;
        }
        p := p + 12 + Align4(len);
      } else if token == NOP {
        p := p + 4;
      } else {
        return NONE;
      }
    }
  }

  /** The next sibling, from just past a node's END_NODE. */
  function SiblingFrom(f: Fdt, p: nat): int
    requires f.Valid()
    decreases f.send - p
  {
    if !Ok(f, p, 4) then NONE
    else if Token(f, p) == BEGIN_NODE then p
    else if Token(f, p) == NOP then SiblingFrom(f, p + 4)
    else NONE
  }

  function NextSiblingOf(f: Fdt, parent: int, prev: nat): int
    requires f.Valid()
  {
    if ParentOf(f, prev) != parent then NONE
    else
      var next := SkipFrom(f, prev, 0);
      if next < 0 then NONE else SiblingFrom(f, next)
  }

  method NextSibling(f: Fdt, parent: int, prev: nat) returns (r: int)
    requires f.Valid()
    ensures r == NextSiblingOf(f, parent, prev)
  {
    var up := ParentOffset(f, prev);
    if up != parent {
      return NONE;
    }
    var next := SkipNode(f, prev);
    if next < 0 {
      return NONE;
    }
    var p := next;
    while true
      invariant 0 <= p && SiblingFrom(f, p) == SiblingFrom(f, next)
      decreases f.send - p
    {
      if !Ok(f, p, 4) {
        return NONE;
      }
      var token := Token(f, p);
      if token == BEGIN_NODE {
        return p;
      } else if token == NOP {
        p := p + 4;
      } else {
        return NONE;
      }
    }
  }

  // ---------------------------------------------------------------- parents

  /** fdt_parent_offset's scan; `open` holds the offsets of the nodes entered and
      not yet left, so the C's depth is |open| - 1. */
  function ParentFrom(f: Fdt, p: nat, open: seq<int>, target: nat): int
    requires f.Valid()
    decreases f.send - p
  {
    if !Ok(f, p, 4) then NONE
    else if Token(f, p) == BEGIN_NODE then
      match NameLen(f, p + 4)
      case None => NONE
      case Some(n) =>
        if p == target then ParentAnswer(open) else ParentFrom(f, p + 4 + Align4(n + 1), open + [p], target)
    else if Token(f, p) == END_NODE then
      if |open| <= 1 then NONE else ParentFrom(f, p + 4, open[..|open| - 1], target)
    else if Token(f, p) == PROP then
      if !Ok(f, p + 12, Be32(f.b, p + 4)) then NONE
      else ParentFrom(f, p + 12 + Align4(Be32(f.b, p + 4)), open, target)
    else if Token(f, p) == NOP then ParentFrom(f, p + 4, open, target)
    else NONE
  }

  /** The parent of a node entered under `open`; the C keeps MAX_DEPTH levels. */
  function ParentAnswer(open: seq<int>): int {
    if |open| == 0 || |open| - 1 >= MAX_DEPTH then NONE else open[|open| - 1]
  }

  function ParentOf(f: Fdt, target: nat): int
    requires f.Valid()
  {
    ParentFrom(f, f.s, [], target)
  }

  /** The stack array agrees with `open` as far as it reaches. */
  ghost predicate StackHolds(stack: seq<int>, open: seq<int>) {
    |stack| == MAX_DEPTH && forall i :: 0 <= i < |open| && i < MAX_DEPTH ==> stack[i] == open[i]
  }

  method ParentOffset(f: Fdt, target: nat) returns (r: int)
    requires f.Valid()
    ensures r == ParentOf(f, target)
  {
    var stack := new int[MAX_DEPTH](_ => 0);
    var p, depth := f.s, -1;
    ghost var open: seq<int> := [];
    while true
      invariant depth == |open| - 1 && StackHolds(stack[..], open)
      invariant ParentFrom(f, p, open, target) == ParentOf(f, target)
      decreases f.send - p
    {
      if !Ok(f, p, 4) {
        return NONE;
      }
      var here, token := p, Token(f, p);
      if token == BEGIN_NODE {
        var n := NodeName(f, p + 4);
        if n.None? {
          return NONE;
        }
        p := p + 4 + Align4(n.value + 1);
        depth := depth + 1;
        if depth < MAX_DEPTH {
          stack[depth] := here;
        }
        if here == target {
          if depth <= 0 || depth - 1 >= MAX_DEPTH {
            return NONE;
          }
          return stack[depth - 1];
        }
        open := open + [here];
      } else if token == END_NODE {
        depth := depth - 1;
        if depth < 0 {
          return NONE;
        }
        p := p + 4;
        open := open[..|open| - 1];
      } else if token == PROP {
        var len := Be32(f.b, p + 4);
        if !Ok(f, p + 12, len) {
          return NONE;
        }
        p := p + 12 + Align4(len);
      } else if token == NOP {
        p := p + 4;
      } else {
        return NONE;
      }
    }
  }
}
