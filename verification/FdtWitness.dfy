/** Two blobs, built word by word: one whose tree the compatible search never gets out of, and
    one whose node's own ranges spoil the translation of its reg. */
module FdtWitness {
  import opened Words
  import opened Fdt
  import opened FdtTree
  import opened FdtProps
  import opened FdtSearch
  import opened FdtReg
  import opened FdtTranslate

  // ---------------------------------------------------------------- building a blob

  function BeByte(x: u32, j: nat): byte {
    if j == 0 then x / 0x100_0000
    else if j == 1 then x / 0x1_0000 % 0x100
    else if j == 2 then x / 0x100 % 0x100
    else x % 0x100
  }

  /** Big-endian words, then bytes. */
  function Pack(ws: seq<u32>, tail: seq<byte>): (r: seq<byte>)
    ensures |r| == 4 * |ws| + |tail|
  {
    seq(4 * |ws| + |tail|,
        k requires 0 <= k < 4 * |ws| + |tail| => if k < 4 * |ws| then BeByte(ws[k / 4], k % 4) else tail[k - 4 * |ws|])
  }

  lemma FourBytes(x: u32)
    ensures BeByte(x, 0) * 0x100_0000 + BeByte(x, 1) * 0x1_0000 + BeByte(x, 2) * 0x100 + BeByte(x, 3) == x
  {
    var y := x / 0x100;
    var z := y / 0x100;
    assert x / 0x1_0000 == z && x / 0x100_0000 == z / 0x100;
  }

  lemma PackByte(ws: seq<u32>, tail: seq<byte>, i: nat, j: nat)
    requires i < |ws| && j < 4
    ensures Pack(ws, tail)[4 * i + j] == BeByte(ws[i], j)
  {
    assert (4 * i + j) / 4 == i && (4 * i + j) % 4 == j;
  }

  lemma PackWord(ws: seq<u32>, tail: seq<byte>, i: nat)
    requires i < |ws|
    ensures Be32(Pack(ws, tail), 4 * i) == ws[i]
  {
    PackByte(ws, tail, i, 0);
    PackByte(ws, tail, i, 1);
    PackByte(ws, tail, i, 2);
    PackByte(ws, tail, i, 3);
    FourBytes(ws[i]);
  }

  /** Bytes that read as these words, and then as these bytes. */
  ghost predicate Reads(b: seq<byte>, ws: seq<u32>, tail: seq<byte>) {
    && |b| == 4 * |ws| + |tail| && b[4 * |ws|..] == tail
    && (forall i :: 0 <= i < |ws| ==> Be32(b, 4 * i) == ws[i])
    && (forall i :: 0 <= i < |ws| && ws[i] == 0 ==> b[4 * i] == 0)
  }

  lemma PackReads(ws: seq<u32>, tail: seq<byte>) returns (b: seq<byte>)
    ensures Reads(b, ws, tail)
  {
    b := Pack(ws, tail);
    forall i | 0 <= i < |ws|
      ensures Be32(b, 4 * i) == ws[i] && (ws[i] == 0 ==> b[4 * i] == 0)
    {
      PackWord(ws, tail, i);
      PackByte(ws, tail, i, 0);
    }
  }

  /** The header of a blob with n structure words and m bytes of strings. */
  function Header(n: nat, m: nat): (r: seq<u32>)
    requires n < 1000 && m < 1000
    ensures |r| == 10
  {
    [MAGIC, 40 + 4 * n + m, 40, 40 + 4 * n, 40, 17, 16, 0, m, 4 * n]
  }

  /** The structure block spells these words, and the strings block holds these bytes. */
  ghost predicate Spells(f: Fdt, ws: seq<u32>, strings: seq<byte>) {
    && f.Valid() && f.s == 40 && f.send == f.str == 40 + 4 * |ws| && f.strend == |f.b| == f.str + |strings|
    && Be32(f.b, 0) == MAGIC
    && (forall i :: 0 <= i < |ws| ==> Token(f, 40 + 4 * i) == ws[i])
    && (forall i :: 0 <= i < |ws| && ws[i] == 0 ==> f.b[40 + 4 * i] == 0)
    && f.b[f.str..] == strings
  }

  lemma OpenOf(b: seq<byte>, ws: seq<u32>, strings: seq<byte>)
    requires |ws| < 1000 && |strings| < 1000 && Reads(b, Header(|ws|, |strings|) + ws, strings)
    ensures var n := 40 + 4 * |ws|;
            |b| == n + |strings| && Open(b) == Some(Fdt(b, 40, n, n, n + |strings|)) && Be32(b, 0) == MAGIC
  {
    var all := Header(|ws|, |strings|) + ws;
    assert all[0] == MAGIC && all[1] == |b| && all[2] == 40 && all[3] == 40 + 4 * |ws|;
    assert all[8] == |strings| && all[9] == 4 * |ws|;
  }

  /** The bytes of a blob that spells these words. */
  lemma MakeBlob(ws: seq<u32>, strings: seq<byte>) returns (b: seq<byte>, f: Fdt)
    requires |ws| < 1000 && |strings| < 1000
    ensures 40 <= |b| < 0x8000_0000 && Open(b) == Some(f) && Spells(f, ws, strings)
  {
    var all, n := Header(|ws|, |strings|) + ws, 40 + 4 * |ws|;
    b := PackReads(all, strings);
    OpenOf(b, ws, strings);
    f := Fdt(b, 40, n, n, n + |strings|);
    forall i | 0 <= i < |ws|
      ensures Token(f, 40 + 4 * i) == ws[i] && (ws[i] == 0 ==> f.b[40 + 4 * i] == 0)
    {
      assert all[10 + i] == ws[i];
    }
  }

  /** A nameless node opens with two words. */
  lemma Nameless(f: Fdt, ws: seq<u32>, strings: seq<byte>, i: nat)
    requires Spells(f, ws, strings) && i + 1 < |ws| && ws[i] == BEGIN_NODE && ws[i + 1] == 0
    ensures AfterName(f, 40 + 4 * i) == Some(48 + 4 * i)
  {
    assert Token(f, 40 + 4 * i) == BEGIN_NODE && f.b[40 + 4 * (i + 1)] == 0;
  }

  // ---------------------------------------------------------------- a chain of nodes

  /** n nameless nodes, each the only child of the one before. */
  function ChainWords(n: nat): (r: seq<u32>)
    ensures |r| == 3 * n + 1
  {
    seq(3 * n + 1, i => if i < 2 * n then (if i % 2 == 0 then BEGIN_NODE else 0)
                        else if i < 3 * n then END_NODE
                        else END)
  }

  function Chain(n: nat, d: nat): Node
    requires d < n
    decreases n - d
  {
    Node(40 + 8 * d, 40 + 8 * n + 4 * (n - d), if d + 1 == n then Done else Child(Chain(n, d + 1), Done))
  }

  lemma {:induction false} ChainIsNode(f: Fdt, n: nat, d: nat)
    requires Spells(f, ChainWords(n), []) && d < n
    ensures IsNode(f, Chain(n, d))
    decreases n - d
  {
    var t := Chain(n, d);
    Nameless(f, ChainWords(n), [], 2 * d);
    ChainCloses(f, n, d);
    if d + 1 < n {
      ChainIsNode(f, n, d + 1);
      assert IsItems(f, t.end - 4, Done, t.end, false);
      assert Ok(f, 48 + 8 * d, 4);
    }
    assert IsItems(f, 48 + 8 * d, t.items, t.end, true);
  }

  /** The d-th node ends with an END_NODE token. */
  lemma ChainCloses(f: Fdt, n: nat, d: nat)
    requires Spells(f, ChainWords(n), []) && d < n
    ensures var p := Chain(n, d).end - 4; Ok(f, p, 4) && Token(f, p) == END_NODE
  {
    assert ChainWords(n)[3 * n - d - 1] == END_NODE;
  }

  lemma ChainIsBlob(f: Fdt, n: nat)
    requires Spells(f, ChainWords(n), []) && 0 < n
    ensures IsBlob(f, Chain(n, 0))
  {
    ChainIsNode(f, n, 0);
    assert ChainWords(n)[3 * n] == END;
  }

  /** No node of the chain has any property. */
  lemma {:induction false} ChainHasNothing(f: Fdt, n: nat, d: nat, want: Name, prev: int)
    requires d < n
    ensures forall t :: t in Pre(Chain(n, d)) ==> !Wanted(f, t, want, prev)
    decreases n - d
  {
    var t := Chain(n, d);
    assert FirstProp(f, t.items, COMPATIBLE) == None;
    assert Pre(t) == [t] + PreItems(t.items);
    if d + 1 < n {
      ChainHasNothing(f, n, d + 1, want, prev);
      assert PreItems(t.items) == Pre(Chain(n, d + 1)) + PreItems(Done);
    }
  }

  const TOO_DEEP: nat := 17

  /** The fifteenth node's only child is unwanted and has a child itself. */
  lemma ChainTraps(f: Fdt, n: nat, d: nat, want: Name, prev: int)
    requires d + 2 < n
    ensures Trap(f, Chain(n, d).items, want, prev)
  {
    var t := Chain(n, d + 1);
    assert Chain(n, d).items == Child(t, Done) && t.items == Child(Chain(n, d + 2), Done);
    assert FirstProp(f, t.items, COMPATIBLE) == None;
    assert Kids(t.items) == [Chain(n, d + 2)] + Kids(Done);
  }

  lemma ChainIsBad(f: Fdt, n: nat, want: Name, prev: int)
    requires n >= TOO_DEEP
    ensures !Escapes(f, Chain(n, 0), want, prev)
  {
    var path := seq(MAX_DEPTH - 1, d requires 0 <= d < MAX_DEPTH - 1 => Chain(n, d));
    forall d | 0 <= d < |path| - 1
      ensures path[d + 1] in Kids(path[d].items)
    {
      assert path[d].items == Child(Chain(n, d + 1), Done);
    }
    ChainHasNothing(f, n, 0, want, prev);
    ChainTraps(f, n, MAX_DEPTH - 2, want, prev);
    assert Bad(f, Chain(n, 0), path, want, prev);
  }

  /** In a chain of seventeen nodes, opened from its bytes, no search ever returns, whatever it
      looks for. */
  lemma SearchTrapped(want: Name, prev: int) returns (b: seq<byte>, f: Fdt, root: Node)
    ensures 40 <= |b| < 0x8000_0000 && Open(b) == Some(f) && IsBlob(f, root)
    ensures forall n: nat :: Turns(f, At([Frame(root, Done)]), want, prev, n).At?
  {
    b, f := MakeBlob(ChainWords(TOO_DEEP), []);
    root := Chain(TOO_DEEP, 0);
    ChainIsBlob(f, TOO_DEEP);
    ChainIsBad(f, TOO_DEEP, want, prev);
    SearchReturnsIff(f, root, want, prev);
  }

  // ---------------------------------------------------------------- a node with reg and ranges

  /** The strings block: "reg" and "ranges". */
  const STRINGS: seq<byte> := [114, 101, 103, 0, 114, 97, 110, 103, 101, 115, 0]

  /** A root without counts and one node: reg <0 0x1000 0 0x100>, and ranges with the single
      window that takes 0x2000..0x2100 to 0. */
  const DEVICE: seq<u32> :=
    [1, 0, 1, 0, 3, 16, 0, 0, 0x1000, 0, 0x100, 3, 24, 4, 0, 0x2000, 0, 0, 0, 0x100, 2, 2, 9]

  const LEAF := Node(48, 124, Property(56, Property(84, Done)))
  const TOP := Node(40, 128, Child(LEAF, Done))

  /** The words a property at structure word i starts with. */
  lemma PropAt(f: Fdt, ws: seq<u32>, strings: seq<byte>, i: nat)
    requires Spells(f, ws, strings) && i + 3 <= |ws| && ws[i] == PROP
    ensures var p := 40 + 4 * i; Token(f, p) == PROP && Be32(f.b, p + 4) == ws[i + 1] && Be32(f.b, p + 8) == ws[i + 2]
  {
    assert ws[i + 1] == ws[i + 1] && ws[i + 2] == ws[i + 2];
    assert Token(f, 40 + 4 * (i + 1)) == ws[i + 1] && Token(f, 40 + 4 * (i + 2)) == ws[i + 2];
  }

  lemma PairAt(f: Fdt, ws: seq<u32>, strings: seq<byte>, i: nat, p: nat)
    requires Spells(f, ws, strings) && i + 2 <= |ws| && ws[i] == 0 && p == 40 + 4 * i
    ensures Cells(f, p, 2) == ws[i + 1]
  {
    assert Token(f, 40 + 4 * i) == ws[i] && Token(f, 40 + 4 * (i + 1)) == ws[i + 1];
  }

  /** What the walkers see of it. */
  ghost predicate Device(f: Fdt) {
    && f.Valid() && f.s == 40 && f.send == f.str == 132 && f.strend == |f.b| == 143 && Be32(f.b, 0) == MAGIC
    && AfterName(f, 40) == Some(48) && AfterName(f, 48) == Some(56) && Token(f, 48) == BEGIN_NODE
    && Token(f, 56) == PROP && Be32(f.b, 60) == 16 && Be32(f.b, 64) == 0
    && Token(f, 84) == PROP && Be32(f.b, 88) == 24 && Be32(f.b, 92) == 4
    && Token(f, 120) == END_NODE && Token(f, 124) == END_NODE && Token(f, 128) == END
    && Cells(f, 68, 2) == 0x1000 && Cells(f, 76, 2) == 0x100
    && Cells(f, 96, 2) == 0x2000 && Cells(f, 104, 2) == 0 && Cells(f, 112, 2) == 0x100
  }

  lemma DeviceTokens(f: Fdt)
    requires Spells(f, DEVICE, STRINGS)
    ensures Token(f, 48) == BEGIN_NODE && Token(f, 120) == END_NODE && Token(f, 124) == END_NODE && Token(f, 128) == END
  {
    assert DEVICE[2] == 1 && DEVICE[20] == 2 && DEVICE[21] == 2 && DEVICE[22] == 9;
  }

  lemma DeviceReg(f: Fdt)
    requires Spells(f, DEVICE, STRINGS)
    ensures Cells(f, 68, 2) == 0x1000 && Cells(f, 76, 2) == 0x100
  {
    PairAt(f, DEVICE, STRINGS, 7, 68);
    PairAt(f, DEVICE, STRINGS, 9, 76);
  }

  lemma DeviceRanges(f: Fdt)
    requires Spells(f, DEVICE, STRINGS)
    ensures Cells(f, 96, 2) == 0x2000 && Cells(f, 104, 2) == 0 && Cells(f, 112, 2) == 0x100
  {
    PairAt(f, DEVICE, STRINGS, 14, 96);
    PairAt(f, DEVICE, STRINGS, 16, 104);
    PairAt(f, DEVICE, STRINGS, 18, 112);
  }

  lemma DeviceSpelled(f: Fdt)
    requires Spells(f, DEVICE, STRINGS)
    ensures Device(f)
  {
    DeviceTokens(f);
    DeviceReg(f);
    DeviceRanges(f);
    Nameless(f, DEVICE, STRINGS, 0);
    Nameless(f, DEVICE, STRINGS, 2);
    PropAt(f, DEVICE, STRINGS, 4);
    PropAt(f, DEVICE, STRINGS, 11);
  }

  lemma DeviceIsBlob(f: Fdt)
    requires Device(f)
    ensures IsNode(f, LEAF) && IsBlob(f, TOP)
  {
    assert AfterProp(f, 84) == Some(120) && AfterProp(f, 56) == Some(84);
    assert IsItems(f, 120, Done, 124, true);
    assert IsItems(f, 84, Property(84, Done), 124, true);
    assert IsItems(f, 56, LEAF.items, 124, true);
    assert IsItems(f, 124, Done, 128, false);
    assert IsItems(f, 48, TOP.items, 128, true);
  }

  lemma StringByte(f: Fdt, i: nat)
    requires Spells(f, DEVICE, STRINGS) && i < |STRINGS|
    ensures ByteAt(f, f.str + i) == STRINGS[i]
  {
    assert f.b[f.str..][i] == f.b[f.str + i];
  }

  /** The name at i in the strings block, compared byte by byte. */
  lemma NameIs(f: Fdt, i: nat, name: Name)
    requires Spells(f, DEVICE, STRINGS) && i + |name| < |STRINGS|
    requires STRINGS[i..i + |name|] == name && STRINGS[i + |name|] == 0
    ensures StringIs(f, f.str + i, name)
  {
    StringByte(f, i + |name|);
    forall k | 0 <= k < |name|
      ensures ByteAt(f, f.str + i + k) == name[k]
    {
      StringByte(f, i + k);
      assert STRINGS[i..i + |name|][k] == STRINGS[i + k];
    }
  }

  lemma NameIsNot(f: Fdt, i: nat, name: Name, k: nat)
    requires Spells(f, DEVICE, STRINGS) && k < |name| && i + k < |STRINGS| && STRINGS[i + k] != name[k]
    ensures !StringIs(f, f.str + i, name)
  {
    StringByte(f, i + k);
  }

  lemma DeviceStrings(f: Fdt)
    requires Spells(f, DEVICE, STRINGS)
    ensures StringIs(f, f.str, REG) && StringIs(f, f.str + 4, RANGES) && !StringIs(f, f.str, RANGES)
  {
    NameIs(f, 0, REG);
    NameIs(f, 4, RANGES);
    NameIsNot(f, 0, RANGES, 1);
  }

  lemma NoCounts(f: Fdt, name: Name)
    requires Spells(f, DEVICE, STRINGS) && Device(f) && name != [] && name[0] == 35
    ensures FirstProp(f, LEAF.items, name) == None
  {
    NameIsNot(f, 0, name, 0);
    NameIsNot(f, 4, name, 0);
  }

  lemma DeviceNames(f: Fdt)
    requires Spells(f, DEVICE, STRINGS) && Device(f)
    ensures FirstProp(f, LEAF.items, REG) == Some(56) && FirstProp(f, LEAF.items, RANGES) == Some(84)
    ensures FirstProp(f, LEAF.items, ADDRESS_CELLS) == None && FirstProp(f, LEAF.items, SIZE_CELLS) == None
  {
    DeviceStrings(f);
    NoCounts(f, ADDRESS_CELLS);
    NoCounts(f, SIZE_CELLS);
  }

  /** The device's bus, seen from its properties. */
  lemma DeviceWidths(f: Fdt)
    requires Spells(f, DEVICE, STRINGS) && Device(f)
    ensures BusWidths(f, [TOP, LEAF]) == Widths(2, 2, 2) && RegCells(f, [TOP, LEAF]) == (2, 2)
  {
    DeviceNames(f);
    assert [TOP, LEAF][..1] == [TOP];
    assert FirstProp(f, TOP.items, ADDRESS_CELLS) == None && FirstProp(f, TOP.items, SIZE_CELLS) == None;
    assert TreeCells(f, [TOP], None, None) == TreeCells(f, [], None, None);
  }

  /** A window whose three fields take two cells each. */
  lemma WideWindow(f: Fdt, p: nat, w: Window)
    requires Cells(f, p + 12, 2) == w.child && Cells(f, p + 20, 2) == w.parent && Cells(f, p + 28, 2) == w.size
    ensures Widths(2, 2, 2).Entry() == 24 && WindowAt(f, p, Widths(2, 2, 2), 0) == w
  {
    assert Wrap32(8) == 8 && Wrap32(16) == 16;
  }

  lemma DeviceBus(f: Fdt)
    requires Spells(f, DEVICE, STRINGS) && Device(f)
    ensures !OneToOne(f, [TOP, LEAF]) && BusWidths(f, [TOP, LEAF]) == Widths(2, 2, 2)
            && RegCells(f, [TOP, LEAF]) == (2, 2)
    ensures BusWindows(f, [TOP, LEAF]) == [Window(0x2000, 0, 0x100)]
  {
    DeviceNames(f);
    DeviceWidths(f);
    WideWindow(f, 84, Window(0x2000, 0, 0x100));
  }

  lemma DevicePlain(f: Fdt)
    requires Spells(f, DEVICE, STRINGS) && Device(f)
    ensures PlainReg(f, [TOP, LEAF], 0) && HasEntry(f, [TOP, LEAF], 0)
    ensures EntryAtIndex(f, [TOP, LEAF], 0) == Range(0x1000, 0x100)
  {
    var path := [TOP, LEAF];
    DeviceIsBlob(f);
    DeviceBus(f);
    DeviceNames(f);
    assert Kids(TOP.items) == [LEAF] + Kids(Done);
    assert forall k :: 1 < k <= |path| ==> path[..k] == path;
  }

  /** The node's register at 0x1000 translates to nothing, because the window of its own ranges
      misses it; through the enclosing buses alone it would be 0x1000 itself. */
  lemma OwnRangesSpoilReg() returns (b: seq<byte>, f: Fdt)
    ensures 40 <= |b| < 0x8000_0000 && Open(b) == Some(f) && IsBlob(f, TOP) && LEAF in Kids(TOP.items)
    ensures RegToCpu(f, LEAF.off, 0) == None
    ensures EnclosingOnly(f, [TOP, LEAF], 0) == Some(Range(0x1000, 0x100))
  {
    b, f := MakeBlob(DEVICE, STRINGS);
    DeviceSpelled(f);
    DeviceIsBlob(f);
    DeviceBus(f);
    DevicePlain(f);
    var path := [TOP, LEAF];
    assert path[..1] == [TOP];
    OwnRangesUnderRootIff(f, path, 0);
    EntryIff(f, path, 0);
    RegIsThroughPath(f, path, 0);
    BusIffWindows(f, path, 0x1000);
  }
}
