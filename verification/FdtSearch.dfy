/** The depth-first search of fdt_next_node_by_compatible_offset: it visits the tree
    in preorder, which is offset order, so it returns the lowest matching offset. */
module FdtSearch {
  import opened Words
  import opened Fdt
  import opened FdtTree
  import opened FdtProps

  // ---------------------------------------------------------------- preorder

  function Pre(t: Node): seq<Node>
    decreases t
  {
    [t] + PreItems(t.items)
  }

  function PreItems(l: Items): seq<Node>
    decreases l
  {
    match l
    case Done => []
    case Nop(r) => PreItems(r)
    case Property(_, r) => PreItems(r)
    case Child(t, r) => Pre(t) + PreItems(r)
  }

  function Max(a: nat, b: nat): nat { if a < b then b else a }

  function Levels(t: Node): nat
    decreases t
  {
    1 + LevelsItems(t.items)
  }

  function LevelsItems(l: Items): nat
    decreases l
  {
    match l
    case Done => 0
    case Nop(r) => LevelsItems(r)
    case Property(_, r) => LevelsItems(r)
    case Child(t, r) => Max(Levels(t), LevelsItems(r))
  }

  ghost predicate Increasing(ts: seq<Node>) {
    forall i, j :: 0 <= i < j < |ts| ==> ts[i].off < ts[j].off
  }

  ghost predicate Within(ts: seq<Node>, lo: int, hi: int) {
    forall i :: 0 <= i < |ts| ==> lo <= ts[i].off < hi
  }

  lemma {:induction false} PreItemsIncreases(f: Fdt, p: nat, l: Items, end: nat, early: bool)
    requires f.Valid() && IsItems(f, p, l, end, early)
    ensures Increasing(PreItems(l)) && Within(PreItems(l), p, end)
    decreases l
  {
    match l
    case Done =>
    case Nop(r) => PreItemsIncreases(f, p + 4, r, end, early);
    case Property(_, r) => PreItemsIncreases(f, AfterProp(f, p).value, r, end, true);
    case Child(t, r) =>
      PreIncreases(f, t);
      PreItemsIncreases(f, t.end, r, end, false);
      NodeExtent(f, t);
      ItemsExtent(f, t.end, r, end, false);
  }

  /** Preorder is offset order. */
  lemma {:induction false} PreIncreases(f: Fdt, t: Node)
    requires f.Valid() && IsNode(f, t)
    ensures Increasing(Pre(t)) && Within(Pre(t), t.off, t.end)
    decreases t
  {
    PreItemsIncreases(f, AfterName(f, t.off).value, t.items, t.end, true);
    NodeExtent(f, t);
    ItemsExtent(f, AfterName(f, t.off).value, t.items, t.end, true);
  }

  lemma {:induction false} PreItemsIsAll(l: Items, x: int)
    ensures InItems(l, x) <==> exists n :: n in PreItems(l) && n.off == x
    decreases l
  {
    match l
    case Done =>
    case Nop(r) => PreItemsIsAll(r, x);
    case Property(_, r) => PreItemsIsAll(r, x);
    case Child(t, r) =>
      PreIsAll(t, x);
      PreItemsIsAll(r, x);
      assert forall n :: n in PreItems(l) <==> n in Pre(t) || n in PreItems(r);
  }

  /** Preorder lists every node of the tree. */
  lemma {:induction false} PreIsAll(t: Node, x: int)
    ensures InNode(t, x) <==> exists n :: n in Pre(t) && n.off == x
    decreases t
  {
    PreItemsIsAll(t.items, x);
    assert forall n :: n in Pre(t) <==> n == t || n in PreItems(t.items);
  }

  // ---------------------------------------------------------------- the expected answer

  ghost predicate Wanted(f: Fdt, t: Node, want: Name, prev: int) { t.off > prev && HasCompatible(f, t, want) }

  ghost function FirstMatch(f: Fdt, ts: seq<Node>, want: Name, prev: int): int {
    if ts == [] then NONE
    else if Wanted(f, ts[0], want, prev) then ts[0].off
    else FirstMatch(f, ts[1..], want, prev)
  }

  lemma {:induction false} FirstMatchIsLeast(f: Fdt, ts: seq<Node>, want: Name, prev: int)
    requires Increasing(ts)
    ensures var r := FirstMatch(f, ts, want, prev);
            && (r == NONE || exists n :: n in ts && n.off == r && Wanted(f, n, want, prev))
            && forall n :: n in ts && Wanted(f, n, want, prev) ==> r != NONE && r <= n.off
  {
    if ts != [] && !Wanted(f, ts[0], want, prev) {
      FirstMatchIsLeast(f, ts[1..], want, prev);
      assert forall n :: n in ts <==> n == ts[0] || n in ts[1..];
    }
  }

  /** What the search promises: the lowest offset after `prev` of a node of the tree
      whose compatible list contains the string, or NONE if there is none. */
  lemma SearchIsLeast(f: Fdt, root: Node, want: Name, prev: int)
    requires IsBlob(f, root)
    ensures var r := FirstMatch(f, Pre(root), want, prev);
            && (r == NONE || exists n :: n in Pre(root) && n.off == r && Wanted(f, n, want, prev))
            && forall n :: n in Pre(root) && Wanted(f, n, want, prev) ==> r != NONE && r <= n.off
  {
    PreIncreases(f, root);
    FirstMatchIsLeast(f, Pre(root), want, prev);
  }

  // ---------------------------------------------------------------- the search state

  /** A node on the stack, and the items that follow it in its parent. */
  datatype Frame = Frame(node: Node, after: Items)

  /** `after` is what follows child k in l. */
  ghost predicate TailOf(l: Items, k: Node, after: Items)
    decreases l
  {
    match l
    case Done => false
    case Nop(r) => TailOf(r, k, after)
    case Property(_, r) => TailOf(r, k, after)
    case Child(t, r) => (t == k && r == after) || TailOf(r, k, after)
  }

  ghost predicate FramesOk(root: Node, fs: seq<Frame>) {
    && 0 < |fs| && fs[0] == Frame(root, Done)
    && forall i :: 0 < i < |fs| ==> TailOf(fs[i - 1].node.items, fs[i].node, fs[i].after)
  }

  /** The nodes still to visit once the top node's own subtree is done. */
  ghost function Later(fs: seq<Frame>): seq<Node> {
    if fs == [] then [] else PreItems(fs[|fs| - 1].after) + Later(fs[..|fs| - 1])
  }

  ghost function Todo(fs: seq<Frame>): seq<Node>
    requires 0 < |fs|
  {
    Pre(fs[|fs| - 1].node) + Later(fs)
  }

  function FirstFrame(l: Items): (r: Option<Frame>)
    ensures r.None? <==> Kids(l) == []
    ensures r.Some? ==> r.value.node == Kids(l)[0] && TailOf(l, r.value.node, r.value.after)
    ensures r.Some? ==> PreItems(l) == Pre(r.value.node) + PreItems(r.value.after)
    ensures r.None? ==> PreItems(l) == []
    decreases l
  {
    match l
    case Done => None
    case Nop(r) => FirstFrame(r)
    case Property(_, r) => FirstFrame(r)
    case Child(t, r) => Some(Frame(t, r))
  }

  lemma {:induction false} TailFacts(l: Items, k: Node, after: Items)
    requires TailOf(l, k, after)
    ensures k in Kids(l) && Levels(k) <= LevelsItems(l) && LevelsItems(after) <= LevelsItems(l)
    decreases l
  {
    match l
    case Nop(r) => TailFacts(r, k, after);
    case Property(_, r) => TailFacts(r, k, after);
    case Child(t, r) => if !(t == k && r == after) { TailFacts(r, k, after); }
  }

  lemma {:induction false} TailTail(l: Items, k: Node, after: Items, k': Node, after': Items)
    requires TailOf(l, k, after) && TailOf(after, k', after')
    ensures TailOf(l, k', after')
    decreases l
  {
    match l
    case Nop(r) => TailTail(r, k, after, k', after');
    case Property(_, r) => TailTail(r, k, after, k', after');
    case Child(t, r) => if !(t == k && r == after) { TailTail(r, k, after, k', after'); }
  }

  lemma {:induction false} SiblingOfTail(f: Fdt, p: nat, l: Items, end: nat, early: bool, k: Node, after: Items)
    requires f.Valid() && IsItems(f, p, l, end, early) && TailOf(l, k, after)
    ensures IsNode(f, k) && SiblingFrom(f, k.end) == Offset(Kids(after))
    decreases l
  {
    match l
    case Nop(r) => SiblingOfTail(f, p + 4, r, end, early, k, after);
    case Property(_, r) => SiblingOfTail(f, AfterProp(f, p).value, r, end, true, k, after);
    case Child(t, r) =>
      if t == k && r == after { SiblingOfItems(f, t.end, r, end); }
      else { SiblingOfTail(f, t.end, r, end, false, k, after); }
  }

  ghost function PathOf(fs: seq<Frame>): (r: seq<Node>)
    ensures |r| == |fs| && forall i :: 0 <= i < |fs| ==> r[i] == fs[i].node
  {
    seq(|fs|, i requires 0 <= i < |fs| => fs[i].node)
  }

  lemma FramesArePath(root: Node, fs: seq<Frame>)
    requires FramesOk(root, fs)
    ensures IsPath(PathOf(fs)) && PathOf(fs)[0] == root
  {
    forall i | 0 <= i < |fs| - 1
      ensures fs[i + 1].node in Kids(fs[i].node.items)
    {
      TailFacts(fs[i].node.items, fs[i + 1].node, fs[i + 1].after);
    }
  }

  lemma {:induction false} FrameDepth(root: Node, fs: seq<Frame>, i: nat)
    requires FramesOk(root, fs) && i < |fs|
    ensures i + Levels(fs[i].node) <= Levels(root)
  {
    if i > 0 {
      FrameDepth(root, fs, i - 1);
      TailFacts(fs[i - 1].node.items, fs[i].node, fs[i].after);
    }
  }

  /** The calls the search makes, read off the top frame. */
  lemma FirstChildOfTop(f: Fdt, root: Node, fs: seq<Frame>)
    requires IsBlob(f, root) && FramesOk(root, fs)
    ensures var t := fs[|fs| - 1].node;
            && IsNode(f, t) && FirstChildOf(f, t.off) == Offset(Kids(t.items))
            && PropOf(f, t.off, COMPATIBLE) == FirstProp(f, t.items, COMPATIBLE)
  {
    FramesArePath(root, fs);
    PathInside(f, PathOf(fs), |fs| - 1);
    FirstChildIsFirst(f, fs[|fs| - 1].node);
    GetPropIsFirst(f, fs[|fs| - 1].node, COMPATIBLE);
  }

  lemma SiblingOfTop(f: Fdt, root: Node, fs: seq<Frame>)
    requires IsBlob(f, root) && FramesOk(root, fs) && 1 < |fs| <= MAX_DEPTH + 1
    ensures NextSiblingOf(f, fs[|fs| - 2].node.off, fs[|fs| - 1].node.off) == Offset(Kids(fs[|fs| - 1].after))
  {
    var path := PathOf(fs);
    FramesArePath(root, fs);
    ParentIsParent(f, path);
    var t, top := fs[|fs| - 2].node, fs[|fs| - 1];
    PathInside(f, path, |fs| - 2);
    SiblingOfTail(f, AfterName(f, t.off).value, t.items, t.end, true, top.node, top.after);
    SkipsNode(f, top.node, 0);
  }

  // ---------------------------------------------------------------- moving on

  lemma {:induction false} Push(root: Node, fs: seq<Frame>)
    requires FramesOk(root, fs) && FirstFrame(fs[|fs| - 1].node.items).Some?
    ensures var gs := fs + [FirstFrame(fs[|fs| - 1].node.items).value];
            FramesOk(root, gs) && Todo(fs) == [fs[|fs| - 1].node] + Todo(gs) && |gs| <= Levels(root)
  {
    var top := fs[|fs| - 1];
    var k := FirstFrame(top.node.items).value;
    var gs := fs + [k];
    assert gs[..|gs| - 1] == fs;
    assert forall i :: 0 <= i < |fs| ==> gs[i] == fs[i];
    assert Todo(gs) == Pre(k.node) + (PreItems(k.after) + Later(fs));
    assert Todo(fs) == ([top.node] + PreItems(top.node.items)) + Later(fs);
    FrameDepth(root, gs, |gs| - 1);
  }

  lemma {:induction false} Leafless(fs: seq<Frame>)
    requires 0 < |fs| && FirstFrame(fs[|fs| - 1].node.items).None?
    ensures Todo(fs) == [fs[|fs| - 1].node] + Later(fs)
  {
  }

  lemma {:induction false} Shift(root: Node, fs: seq<Frame>)
    requires FramesOk(root, fs) && 1 < |fs| && FirstFrame(fs[|fs| - 1].after).Some?
    ensures var gs := fs[..|fs| - 1] + [FirstFrame(fs[|fs| - 1].after).value];
            FramesOk(root, gs) && Later(fs) == Todo(gs)
  {
    var top, below := fs[|fs| - 1], fs[..|fs| - 1];
    var k := FirstFrame(top.after).value;
    var gs := below + [k];
    assert gs[..|gs| - 1] == below;
    TailTail(fs[|fs| - 2].node.items, top.node, top.after, k.node, k.after);
    assert forall i :: 0 <= i < |below| ==> gs[i] == fs[i];
    assert Todo(gs) == Pre(k.node) + (PreItems(k.after) + Later(below));
  }

  lemma {:induction false} Pop(root: Node, fs: seq<Frame>)
    requires FramesOk(root, fs) && FirstFrame(fs[|fs| - 1].after).None?
    ensures |fs| > 1 ==> FramesOk(root, fs[..|fs| - 1])
    ensures Later(fs) == Later(fs[..|fs| - 1])
  {
  }

  // ---------------------------------------------------------------- one turn of the search

  datatype Search = Returned(r: int) | At(fs: seq<Frame>)

  /** No children left below: advance to a sibling, climbing as needed. */
  ghost function Climbed(fs: seq<Frame>): Search
    requires 0 < |fs|
  {
    if |fs| == 1 then Returned(NONE)
    else
      match FirstFrame(fs[|fs| - 1].after)
      case Some(k) => At(fs[..|fs| - 1] + [k])
      case None => Climbed(fs[..|fs| - 1])
  }

  /** One pass of the outer loop. Its too-deep branch goes back to the parent. */
  ghost function Turn(f: Fdt, fs: seq<Frame>, want: Name, prev: int): Search
    requires 0 < |fs|
  {
    var t := fs[|fs| - 1].node;
    if Wanted(f, t, want, prev) then Returned(t.off)
    else
      match FirstFrame(t.items)
      case None => Climbed(fs)
      case Some(k) =>
        if |fs| < MAX_DEPTH then At(fs + [k])
        else if |fs| == 1 then Returned(NONE)
        else At(fs[..|fs| - 1])
  }

  ghost predicate TooDeep(f: Fdt, fs: seq<Frame>, want: Name, prev: int)
    requires 0 < |fs|
  {
    |fs| >= MAX_DEPTH && !Wanted(f, fs[|fs| - 1].node, want, prev) && FirstFrame(fs[|fs| - 1].node.items).Some?
  }

  /** The search gives up with nothing left, or stands where `rest` is to visit. */
  ghost predicate Moves(root: Node, s: Search, deepest: nat, rest: seq<Node>) {
    if s.Returned? then s.r == NONE && rest == []
    else FramesOk(root, s.fs) && |s.fs| <= deepest && Todo(s.fs) == rest
  }

  lemma {:induction false} ClimbedTodo(root: Node, fs: seq<Frame>)
    requires FramesOk(root, fs)
    ensures Moves(root, Climbed(fs), |fs|, Later(fs))
    decreases |fs|
  {
    if |fs| == 1 {
      Pop(root, fs);
    } else if FirstFrame(fs[|fs| - 1].after).Some? {
      Shift(root, fs);
    } else {
      Pop(root, fs);
      ClimbedTodo(root, fs[..|fs| - 1]);
    }
  }

  /** Unless it returns or meets the depth limit, a turn drops exactly the visited
      node from the nodes still to visit. */
  lemma TurnTodo(f: Fdt, root: Node, fs: seq<Frame>, want: Name, prev: int)
    requires FramesOk(root, fs) && |fs| <= MAX_DEPTH
    requires !Wanted(f, fs[|fs| - 1].node, want, prev) && !TooDeep(f, fs, want, prev)
    ensures Moves(root, Turn(f, fs, want, prev), MAX_DEPTH, Todo(fs)[1..])
  {
    var t := fs[|fs| - 1].node;
    if FirstFrame(t.items).Some? {
      Push(root, fs);
      assert ([t] + Todo(fs + [FirstFrame(t.items).value]))[1..] == Todo(fs + [FirstFrame(t.items).value]);
    } else {
      Leafless(fs);
      ClimbedTodo(root, fs);
      assert ([t] + Later(fs))[1..] == Later(fs);
    }
  }

  // ---------------------------------------------------------------- when the depth limit bites

  /** Walking these items on the last level the stack has room for, the search comes
      to an unwanted node with children before it comes to a wanted one. */
  ghost predicate Trap(f: Fdt, l: Items, want: Name, prev: int)
    decreases l
  {
    match l
    case Done => false
    case Nop(r) => Trap(f, r, want, prev)
    case Property(_, r) => Trap(f, r, want, prev)
    case Child(t, r) => !Wanted(f, t, want, prev) && (Kids(t.items) != [] || Trap(f, r, want, prev))
  }

  ghost predicate TrapFrom(f: Fdt, fr: Frame, want: Name, prev: int) {
    !Wanted(f, fr.node, want, prev) && (Kids(fr.node.items) != [] || Trap(f, fr.after, want, prev))
  }

  lemma {:induction false} TrapFirst(f: Fdt, l: Items, want: Name, prev: int)
    ensures Trap(f, l, want, prev) <==> FirstFrame(l).Some? && TrapFrom(f, FirstFrame(l).value, want, prev)
    decreases l
  {
    match l
    case Done =>
    case Nop(r) => TrapFirst(f, r, want, prev);
    case Property(_, r) => TrapFirst(f, r, want, prev);
    case Child(t, r) =>
  }

  /** A node one level above the limit whose items are a trap, with nothing to find at
      or before it. */
  ghost predicate Bad(f: Fdt, root: Node, path: seq<Node>, want: Name, prev: int) {
    && IsPath(path) && path[0] == root && |path| == MAX_DEPTH - 1
    && Trap(f, path[|path| - 1].items, want, prev)
    && forall n :: n in Pre(root) && Wanted(f, n, want, prev) ==> path[|path| - 1].off < n.off
  }

  /** The condition under which the search returns. */
  ghost predicate Escapes(f: Fdt, root: Node, want: Name, prev: int) {
    forall path: seq<Node> :: !Bad(f, root, path, want, prev)
  }

  ghost predicate Suffix(a: seq<Node>, b: seq<Node>) { |a| <= |b| && a == b[|b| - |a|..] }

  /** A state the search reaches: what it has passed was not wanted. */
  ghost predicate Underway(f: Fdt, root: Node, fs: seq<Frame>, want: Name, prev: int) {
    && FramesOk(root, fs) && |fs| <= MAX_DEPTH && Suffix(Todo(fs), Pre(root))
    && (forall n :: n in Pre(root) && Wanted(f, n, want, prev) ==> n in Todo(fs))
    && (|fs| == MAX_DEPTH ==>
          (Trap(f, fs[|fs| - 2].node.items, want, prev) <==> TrapFrom(f, fs[|fs| - 1], want, prev)))
  }

  lemma {:induction false} KeepTrap(f: Fdt, root: Node, fs: seq<Frame>, gs: seq<Frame>, want: Name, prev: int)
    requires Underway(f, root, fs, want, prev) && Turn(f, fs, want, prev) == At(gs) && !TooDeep(f, fs, want, prev)
    requires !Wanted(f, fs[|fs| - 1].node, want, prev) && |gs| == MAX_DEPTH
    ensures Trap(f, gs[|gs| - 2].node.items, want, prev) <==> TrapFrom(f, gs[|gs| - 1], want, prev)
  {
    var top := fs[|fs| - 1];
    if FirstFrame(top.node.items).Some? {
      TrapFirst(f, top.node.items, want, prev);
    } else {
      ClimbedTodo(root, fs);
      assert FirstFrame(top.after).Some? by {
        if FirstFrame(top.after).None? && |fs| > 1 {
          Pop(root, fs);
          ClimbedTodo(root, fs[..|fs| - 1]);
        }
      }
      TrapFirst(f, top.after, want, prev);
    }
  }

  lemma TurnKeeps(f: Fdt, root: Node, fs: seq<Frame>, gs: seq<Frame>, want: Name, prev: int)
    requires Underway(f, root, fs, want, prev) && !Wanted(f, fs[|fs| - 1].node, want, prev)
             && !TooDeep(f, fs, want, prev)
    requires Turn(f, fs, want, prev) == At(gs)
    ensures Underway(f, root, gs, want, prev) && |Todo(gs)| < |Todo(fs)|
  {
    TurnTodo(f, root, fs, want, prev);
    if |gs| == MAX_DEPTH { KeepTrap(f, root, fs, gs, want, prev); }
    assert Todo(fs) == [fs[|fs| - 1].node] + Todo(gs);
    assert forall n :: n in Todo(fs) <==> n == fs[|fs| - 1].node || n in Todo(gs);
  }

  /** Everything still to visit lies at or after the current node. */
  lemma TodoAhead(f: Fdt, root: Node, fs: seq<Frame>)
    requires IsBlob(f, root) && FramesOk(root, fs) && Suffix(Todo(fs), Pre(root))
    ensures forall n :: n in Todo(fs) ==> fs[|fs| - 1].node.off <= n.off
    ensures forall n :: n in Todo(fs) && n.off == fs[|fs| - 1].node.off ==> n == fs[|fs| - 1].node
  {
    PreIncreases(f, root);
    var ts := Todo(fs);
    assert ts[0] == fs[|fs| - 1].node;
    assert Increasing(ts);
  }

  /** Meeting the depth limit means standing in a trap with nothing found so far. */
  lemma TooDeepIsBad(f: Fdt, root: Node, fs: seq<Frame>, want: Name, prev: int)
    requires IsBlob(f, root) && Underway(f, root, fs, want, prev) && TooDeep(f, fs, want, prev)
    ensures Bad(f, root, PathOf(fs[..|fs| - 1]), want, prev)
    ensures PathOf(fs[..|fs| - 1])[|fs| - 2].off < fs[|fs| - 1].node.off
  {
    var path := PathOf(fs[..|fs| - 1]);
    FramesArePath(root, fs);
    assert forall i :: 0 <= i < |path| ==> path[i] == fs[i].node;
    assert IsPath(path) by {
      assert forall i :: 0 <= i < |path| - 1 ==> PathOf(fs)[i + 1] in Kids(PathOf(fs)[i].items);
    }
    var up, top := fs[|fs| - 2].node, fs[|fs| - 1].node;
    PathInside(f, PathOf(fs), |fs| - 2);
    TailFacts(up.items, top, fs[|fs| - 1].after);
    KidIsNode(f, AfterName(f, up.off).value, up.items, up.end, true, top);
    TodoAhead(f, root, fs);
  }

  /** At the start everything is still to visit. */
  lemma StartUnderway(f: Fdt, root: Node, want: Name, prev: int)
    ensures Underway(f, root, [Frame(root, Done)], want, prev) && Todo([Frame(root, Done)]) == Pre(root)
  {
    var fs := [Frame(root, Done)];
    assert fs[..|fs| - 1] == [];
    assert Later(fs) == PreItems(Done) + Later([]);
    assert Todo(fs) == Pre(root);
    assert Pre(root)[0..] == Pre(root);
  }

  /** Passing over a node that is not wanted leaves the answer to the rest. */
  lemma {:induction false} PassOver(f: Fdt, t: Node, ts: seq<Node>, rest: seq<Node>, want: Name, prev: int)
    requires ts == [t] + rest
    ensures FirstMatch(f, ts, want, prev) == if Wanted(f, t, want, prev) then t.off else FirstMatch(f, rest, want, prev)
    ensures |rest| < |ts|
  {
    assert ts[1..] == rest;
  }

  // ---------------------------------------------------------------- the search

  ghost predicate StackShows(stack: seq<int>, fs: seq<Frame>) {
    |fs| <= |stack| && forall i :: 0 <= i < |fs| ==> stack[i] == fs[i].node.off
  }

  /** Is the node at this offset one to return? */
  method Accepts(f: Fdt, off: nat, want: Name, prev: int, ghost t: Node) returns (yes: bool)
    requires f.Valid() && t.off == off && PropOf(f, off, COMPATIBLE) == FirstProp(f, t.items, COMPATIBLE)
    ensures yes == Wanted(f, t, want, prev)
  {
    var p := GetProp(f, off, COMPATIBLE);
    yes := false;
    if off > prev && p.Some? {
      yes := CompatibleMatch(Value(f, p.value), want);
    }
  }

  method Climb(f: Fdt, stack: array<int>, from: nat, ghost root: Node, ghost fs: seq<Frame>)
    returns (depth: int, ghost gs: seq<Frame>)
    requires IsBlob(f, root) && FramesOk(root, fs) && |fs| == from + 1 <= MAX_DEPTH
    requires stack.Length == MAX_DEPTH && StackShows(stack[..], fs)
    modifies stack
    ensures Climbed(fs) == if depth < 0 then Returned(NONE) else At(gs)
    ensures depth >= 0 ==> depth == |gs| - 1 && StackShows(stack[..], gs)
  {
    depth, gs := from, fs;
    while depth > 0
      invariant depth == |gs| - 1 && 0 <= depth <= from && FramesOk(root, gs) && StackShows(stack[..], gs)
      invariant Climbed(gs) == Climbed(fs)
    {
      SiblingOfTop(f, root, gs);
      assert stack[depth] == gs[depth].node.off && stack[depth - 1] == gs[depth - 1].node.off;
      var sib := NextSibling(f, stack[depth - 1], stack[depth]);
      if sib != NONE {
        stack[depth] := sib;
        gs := gs[..|gs| - 1] + [FirstFrame(gs[|gs| - 1].after).value];
        return;
      }
      Pop(root, gs);
      depth := depth - 1;
      gs := gs[..|gs| - 1];
    }
    depth := -1;
  }

  /** The body of the outer loop, on any tree. */
  method OneTurn(f: Fdt, stack: array<int>, at: nat, want: Name, prev: int, ghost root: Node, ghost fs: seq<Frame>)
    returns (r: Option<int>, depth: int, ghost gs: seq<Frame>)
    requires IsBlob(f, root) && FramesOk(root, fs) && |fs| == at + 1 <= MAX_DEPTH
    requires stack.Length == MAX_DEPTH && StackShows(stack[..], fs)
    modifies stack
    ensures Turn(f, fs, want, prev) == if r.Some? then Returned(r.value) else At(gs)
    ensures r.None? ==> 0 <= depth == |gs| - 1 && StackShows(stack[..], gs)
  {
    FirstChildOfTop(f, root, fs);
    ghost var t := fs[at].node;
    depth, gs := at, fs;
    var cur := stack[at];
    assert cur == t.off;
    var yes := Accepts(f, cur, want, prev, t);
    if yes {
      return Some(cur), depth, gs;
    }
    var ch := FirstChild(f, cur);
    if ch == NONE {
      depth, gs := Climb(f, stack, at, root, fs);
      return if depth < 0 then Some(NONE) else None, depth, gs;
    }
    if at + 1 >= MAX_DEPTH {
      PassSiblings(f, cur, ch);
      depth, gs := at - 1, fs[..|fs| - 1];
      return None, depth, gs;
    }
    depth, gs := at + 1, fs + [FirstFrame(t.items).value];
    stack[depth] := ch;
    return None, depth, gs;
  }

  lemma {:induction false} SkipAdvances(f: Fdt, p: nat, depth: int)
    requires f.Valid()
    ensures SkipFrom(f, p, depth) == NONE || p < SkipFrom(f, p, depth)
    decreases f.send - p
  {
    if Ok(f, p, 4) {
      if Token(f, p) == BEGIN_NODE {
        var n := NameLen(f, p + 4);
        if n.Some? { SkipAdvances(f, p + 4 + Align4(n.value + 1), depth + 1); }
      } else if Token(f, p) == END_NODE {
        if depth - 1 > 0 { SkipAdvances(f, p + 4, depth - 1); }
      } else if Token(f, p) == PROP {
        if AfterProp(f, p).Some? { SkipAdvances(f, AfterProp(f, p).value, depth); }
      } else if Token(f, p) == NOP {
        SkipAdvances(f, p + 4, depth);
      }
    }
  }

  lemma {:induction false} SiblingAdvances(f: Fdt, p: nat)
    requires f.Valid()
    ensures SiblingFrom(f, p) == NONE || p <= SiblingFrom(f, p) < f.send
    decreases f.send - p
  {
    if Ok(f, p, 4) && Token(f, p) == NOP { SiblingAdvances(f, p + 4); }
  }

  /** The too-deep branch walks the children it will not enter, and keeps nothing. */
  method PassSiblings(f: Fdt, parent: int, first: nat)
    requires f.Valid()
  {
    var sib: int := first;
    while sib != NONE
      invariant sib == NONE || (0 <= sib && (sib <= first || sib < f.send))
      decreases if sib == NONE then 0 else f.send + first + 1 - sib
    {
      SkipAdvances(f, sib, 0);
      if SkipFrom(f, sib, 0) >= 0 { SiblingAdvances(f, SkipFrom(f, sib, 0)); }
      sib := NextSibling(f, parent, sib);
    }
  }

  /** fdt_next_node_by_compatible_offset, wherever it returns. */
  method NextNodeByCompatible(f: Fdt, want: Name, prev: int, ghost root: Node) returns (r: int)
    requires IsBlob(f, root) && Escapes(f, root, want, prev)
    ensures r == FirstMatch(f, Pre(root), want, prev)
  {
    var stack := new int[MAX_DEPTH](_ => 0);
    stack[0] := f.s;
    var depth := 0;
    ghost var fs := [Frame(root, Done)];
    StartUnderway(f, root, want, prev);
    while true
      invariant depth == |fs| - 1 && 0 <= depth && Underway(f, root, fs, want, prev) && StackShows(stack[..], fs)
      invariant FirstMatch(f, Todo(fs), want, prev) == FirstMatch(f, Pre(root), want, prev)
      decreases |Todo(fs)|
    {
      TurnAnswers(f, root, fs, want, prev);
      var found;
      found, depth, fs := OneTurn(f, stack, depth, want, prev, root, fs);
      if found.Some? {
        return found.value;
      }
    }
  }

  /** A turn returns the answer or leaves it to the rest. */
  lemma TurnAnswers(f: Fdt, root: Node, fs: seq<Frame>, want: Name, prev: int)
    requires IsBlob(f, root) && Escapes(f, root, want, prev) && Underway(f, root, fs, want, prev)
    ensures var s := Turn(f, fs, want, prev);
            if s.Returned? then s.r == FirstMatch(f, Todo(fs), want, prev)
            else
              && Underway(f, root, s.fs, want, prev) && |Todo(s.fs)| < |Todo(fs)|
              && FirstMatch(f, Todo(s.fs), want, prev) == FirstMatch(f, Todo(fs), want, prev)
  {
    var t := fs[|fs| - 1].node;
    var rest := PreItems(t.items) + Later(fs);
    assert Todo(fs) == [t] + rest;
    PassOver(f, t, Todo(fs), rest, want, prev);
    if !Wanted(f, t, want, prev) {
      if TooDeep(f, fs, want, prev) { TooDeepIsBad(f, root, fs, want, prev); }
      assert Todo(fs)[1..] == rest;
      TurnTodo(f, root, fs, want, prev);
      var s := Turn(f, fs, want, prev);
      if s.At? { TurnKeeps(f, root, fs, s.fs, want, prev); }
    }
  }

  // ---------------------------------------------------------------- exactly when it returns

  lemma {:induction false} PathLevels(path: seq<Node>, i: nat)
    requires IsPath(path) && i < |path|
    ensures i + Levels(path[i]) <= Levels(path[0])
  {
    if i > 0 {
      PathLevels(path, i - 1);
      KidLevels(path[i - 1].items, path[i]);
    }
  }

  lemma {:induction false} KidLevels(l: Items, k: Node)
    requires k in Kids(l)
    ensures Levels(k) <= LevelsItems(l)
    decreases l
  {
    match l
    case Nop(r) => KidLevels(r, k);
    case Property(_, r) => KidLevels(r, k);
    case Child(t, r) => if k != t { KidLevels(r, k); }
  }

  lemma {:induction false} TrapLevels(f: Fdt, l: Items, want: Name, prev: int)
    requires Trap(f, l, want, prev)
    ensures 2 <= LevelsItems(l)
    decreases l
  {
    match l
    case Nop(r) => TrapLevels(f, r, want, prev);
    case Property(_, r) => TrapLevels(f, r, want, prev);
    case Child(t, r) =>
      if Kids(t.items) != [] { KidLevels(t.items, Kids(t.items)[0]); } else { TrapLevels(f, r, want, prev); }
  }

  /** A tree of at most MAX_DEPTH levels has no such trap. */
  lemma ShallowEscapes(f: Fdt, root: Node, want: Name, prev: int)
    requires Levels(root) <= MAX_DEPTH
    ensures Escapes(f, root, want, prev)
  {
    forall path: seq<Node> | Bad(f, root, path, want, prev)
      ensures false
    {
      PathLevels(path, |path| - 1);
      TrapLevels(f, path[|path| - 1].items, want, prev);
    }
  }

  /** The search after n turns. */
  ghost function Turns(f: Fdt, s: Search, want: Name, prev: int, n: nat): Search
    decreases n
  {
    if n == 0 || s.Returned? || s.fs == [] then s else Turns(f, Turn(f, s.fs, want, prev), want, prev, n - 1)
  }

  /** Inside the trap: at its parent, or at a node on the way to the one too deep. */
  ghost predicate Trapped(f: Fdt, base: seq<Frame>, fs: seq<Frame>, want: Name, prev: int) {
    && |base| == MAX_DEPTH - 1 && !Wanted(f, base[|base| - 1].node, want, prev)
    && Trap(f, base[|base| - 1].node.items, want, prev)
    && (fs == base || (|fs| == MAX_DEPTH && fs[..|fs| - 1] == base && TrapFrom(f, fs[|fs| - 1], want, prev)))
  }

  lemma TrapHolds(f: Fdt, base: seq<Frame>, fs: seq<Frame>, want: Name, prev: int)
    requires Trapped(f, base, fs, want, prev)
    ensures var s := Turn(f, fs, want, prev); s.At? && Trapped(f, base, s.fs, want, prev)
  {
    var top := fs[|fs| - 1];
    if fs == base {
      TrapFirst(f, top.node.items, want, prev);
      assert (base + [FirstFrame(top.node.items).value])[..|base|] == base;
    } else if FirstFrame(top.node.items).None? {
      TrapFirst(f, top.after, want, prev);
      assert (base + [FirstFrame(top.after).value])[..|base|] == base;
    }
  }

  lemma {:induction false} TrapIsForever(f: Fdt, base: seq<Frame>, fs: seq<Frame>, want: Name, prev: int, n: nat)
    requires Trapped(f, base, fs, want, prev)
    ensures Turns(f, At(fs), want, prev, n).At?
    decreases n
  {
    if n > 0 {
      TrapHolds(f, base, fs, want, prev);
      TrapIsForever(f, base, Turn(f, fs, want, prev).fs, want, prev, n - 1);
    }
  }

  lemma {:induction false} SameDepth(f: Fdt, a: seq<Node>, b: seq<Node>)
    requires IsPath(a) && IsPath(b) && a[0] == b[0] && IsBlob(f, a[0]) && |a| <= MAX_DEPTH && |b| <= MAX_DEPTH
    requires a[|a| - 1].off == b[|b| - 1].off
    ensures |a| == |b|
    decreases |a|
  {
    ParentIsParent(f, a);
    ParentIsParent(f, b);
    if |a| > 1 && |b| > 1 { SameDepth(f, a[..|a| - 1], b[..|b| - 1]); }
  }

  ghost predicate FirstBad(f: Fdt, root: Node, path: seq<Node>, want: Name, prev: int) {
    && Bad(f, root, path, want, prev)
    && forall other: seq<Node> :: Bad(f, root, other, want, prev) ==> path[|path| - 1].off <= other[|other| - 1].off
  }

  lemma {:induction false} LeastBad(f: Fdt, root: Node, path: seq<Node>, want: Name, prev: int)
    returns (least: seq<Node>)
    requires Bad(f, root, path, want, prev)
    ensures FirstBad(f, root, least, want, prev)
    decreases path[|path| - 1].off
  {
    if other: seq<Node> :| Bad(f, root, other, want, prev) && other[|other| - 1].off < path[|path| - 1].off {
      least := LeastBad(f, root, other, want, prev);
    } else {
      least := path;
    }
  }

  /** The trap's parent is still to visit: a turn before it neither returns nor loses it. */
  lemma OneStepCloser(f: Fdt, root: Node, fs: seq<Frame>, path: seq<Node>, want: Name, prev: int)
    requires IsBlob(f, root) && Underway(f, root, fs, want, prev) && FirstBad(f, root, path, want, prev)
    requires path[|path| - 1] in Todo(fs) && path[|path| - 1].off != fs[|fs| - 1].node.off
    ensures var s := Turn(f, fs, want, prev);
            s.At? && Underway(f, root, s.fs, want, prev) && path[|path| - 1] in Todo(s.fs)
  {
    TodoAhead(f, root, fs);
    StandsInPre(f, root, fs);
    if TooDeep(f, fs, want, prev) { TooDeepIsBad(f, root, fs, want, prev); }
    TurnTodo(f, root, fs, want, prev);
    var s := Turn(f, fs, want, prev);
    if s.At? { TurnKeeps(f, root, fs, s.fs, want, prev); }
    assert path[|path| - 1] in Todo(fs)[1..];
  }

  lemma InTheTrap(f: Fdt, root: Node, fs: seq<Frame>, path: seq<Node>, want: Name, prev: int)
    requires IsBlob(f, root) && Underway(f, root, fs, want, prev) && Bad(f, root, path, want, prev)
    requires path[|path| - 1] in Todo(fs) && path[|path| - 1].off == fs[|fs| - 1].node.off
    ensures Trapped(f, fs, fs, want, prev)
  {
    TodoAhead(f, root, fs);
    StandsInPre(f, root, fs);
    FramesArePath(root, fs);
    SameDepth(f, PathOf(fs), path);
  }

  /** On the way to the trap's parent. */
  ghost predicate Heading(f: Fdt, root: Node, fs: seq<Frame>, path: seq<Node>, want: Name, prev: int) {
    && IsBlob(f, root) && Underway(f, root, fs, want, prev) && FirstBad(f, root, path, want, prev)
    && path[|path| - 1] in Todo(fs)
  }

  /** A turn from fs goes on, to a place of `on`. */
  ghost predicate GoesOn(f: Fdt, on: iset<seq<Frame>>, fs: seq<Frame>, want: Name, prev: int) {
    fs != [] && exists next :: next in on && Turn(f, fs, want, prev) == At(next)
  }

  lemma {:induction false} GoesOnForever(f: Fdt, on: iset<seq<Frame>>, fs: seq<Frame>, want: Name, prev: int, n: nat)
    requires fs in on
    requires forall gs {:trigger GoesOn(f, on, gs, want, prev)} :: gs in on ==> GoesOn(f, on, gs, want, prev)
    ensures Turns(f, At(fs), want, prev, n).At?
    decreases n
  {
    if n > 0 {
      assert GoesOn(f, on, fs, want, prev);
      var next :| next in on && Turn(f, fs, want, prev) == At(next);
      GoesOnForever(f, on, next, want, prev, n - 1);
    }
  }

  ghost predicate InTrap(f: Fdt, fs: seq<Frame>, want: Name, prev: int) {
    exists base :: Trapped(f, base, fs, want, prev)
  }

  /** On the way to the trap, or in it. */
  ghost function Lost(f: Fdt, root: Node, path: seq<Node>, want: Name, prev: int): iset<seq<Frame>> {
    iset fs: seq<Frame> | Heading(f, root, fs, path, want, prev) || InTrap(f, fs, want, prev)
  }

  lemma LostGoesOn(f: Fdt, root: Node, fs: seq<Frame>, path: seq<Node>, want: Name, prev: int)
    requires fs in Lost(f, root, path, want, prev)
    ensures GoesOn(f, Lost(f, root, path, want, prev), fs, want, prev)
  {
    if !InTrap(f, fs, want, prev) && path[|path| - 1].off == fs[|fs| - 1].node.off {
      InTheTrap(f, root, fs, path, want, prev);
    }
    if InTrap(f, fs, want, prev) {
      var base :| Trapped(f, base, fs, want, prev);
      TrapHolds(f, base, fs, want, prev);
      assert InTrap(f, Turn(f, fs, want, prev).fs, want, prev);
    } else {
      OneStepCloser(f, root, fs, path, want, prev);
      assert Heading(f, root, Turn(f, fs, want, prev).fs, path, want, prev);
    }
  }

  lemma HeadsForTrap(f: Fdt, root: Node, fs: seq<Frame>, path: seq<Node>, want: Name, prev: int, n: nat)
    requires Heading(f, root, fs, path, want, prev)
    ensures Turns(f, At(fs), want, prev, n).At?
  {
    var on := Lost(f, root, path, want, prev);
    forall gs {:trigger GoesOn(f, on, gs, want, prev)} | gs in on
      ensures GoesOn(f, on, gs, want, prev)
    {
      LostGoesOn(f, root, gs, path, want, prev);
    }
    GoesOnForever(f, on, fs, want, prev, n);
  }

  lemma StandsInPre(f: Fdt, root: Node, fs: seq<Frame>)
    requires FramesOk(root, fs) && Suffix(Todo(fs), Pre(root))
    ensures fs[|fs| - 1].node in Pre(root) && Todo(fs)[0] == fs[|fs| - 1].node
  {
    assert Todo(fs)[0] in Pre(root);
  }

  lemma {:induction false} KidInPre(l: Items, k: Node)
    requires k in Kids(l)
    ensures forall n :: n in Pre(k) ==> n in PreItems(l)
    decreases l
  {
    match l
    case Nop(r) => KidInPre(r, k);
    case Property(_, r) => KidInPre(r, k);
    case Child(t, r) => if k != t { KidInPre(r, k); }
  }

  lemma {:induction false} PathInPre(path: seq<Node>, i: nat)
    requires IsPath(path) && i < |path|
    ensures path[|path| - 1] in Pre(path[i])
    decreases |path| - i
  {
    if i < |path| - 1 {
      PathInPre(path, i + 1);
      KidInPre(path[i].items, path[i + 1]);
    }
  }

  /** The search returns if and only if no trap lies before the first wanted node; when
      one does, it goes round between the trap's parent and its children for ever. */
  lemma SearchReturnsIff(f: Fdt, root: Node, want: Name, prev: int)
    requires IsBlob(f, root)
    ensures Escapes(f, root, want, prev) <==>
            exists n: nat :: Turns(f, At([Frame(root, Done)]), want, prev, n).Returned?
  {
    var fs := [Frame(root, Done)];
    StartUnderway(f, root, want, prev);
    if Escapes(f, root, want, prev) {
      Arrives(f, root, fs, want, prev);
    } else {
      var path: seq<Node> :| Bad(f, root, path, want, prev);
      var least := LeastBad(f, root, path, want, prev);
      PathInPre(least, 0);
      forall n: nat
        ensures Turns(f, At(fs), want, prev, n).At?
      {
        HeadsForTrap(f, root, fs, least, want, prev, n);
      }
    }
  }

  lemma {:induction false} Arrives(f: Fdt, root: Node, fs: seq<Frame>, want: Name, prev: int)
    requires IsBlob(f, root) && Escapes(f, root, want, prev) && Underway(f, root, fs, want, prev)
    ensures exists n: nat :: Turns(f, At(fs), want, prev, n).Returned?
    decreases |Todo(fs)|
  {
    TurnAnswers(f, root, fs, want, prev);
    var s := Turn(f, fs, want, prev);
    if s.Returned? {
      assert Turns(f, At(fs), want, prev, 1) == Turns(f, s, want, prev, 0);
    } else {
      Arrives(f, root, s.fs, want, prev);
      var n: nat :| Turns(f, s, want, prev, n).Returned?;
      assert Turns(f, At(fs), want, prev, n + 1) == Turns(f, s, want, prev, n);
    }
  }
}
