/** The list-root message codec of include/capnp_list.h: a root struct with plain data words
    and one pointer to a composite list of fixed-shape structs. */
module CapnpList {
  import opened Words
  import opened Wire
  import opened CapnpFlat

  const TWO30: int := 0x4000_0000
  const TWO29: int := 0x2000_0000
  const TWO35: int := 0x8_0000_0000
  const TWO48: int := 0x1_0000_0000_0000

  // Bitwise or, and packing fields with it.

  function BitOr(a: nat, b: nat): nat {
    if a == 0 && b == 0 then 0 else (if a % 2 == 1 || b % 2 == 1 then 1 else 0) + 2 * BitOr(a / 2, b / 2)
  }

  lemma {:induction false} OrZero(a: nat)
    ensures BitOr(a, 0) == a && BitOr(0, a) == a
  {
    if a > 0 { OrZero(a / 2); }
  }

  function Shl(a: nat, k: nat): nat {
    if k == 0 then a else 2 * Shl(a, k - 1)
  }

  lemma {:induction false} ShlTwice(a: nat, j: nat, k: nat)
    ensures Shl(Shl(a, j), k) == Shl(a, j + k)
  {
    if k > 0 { ShlTwice(a, j, k - 1); }
  }

  lemma ShlNibble(a: nat)
    ensures Shl(a, 3) == 8 * a && Shl(a, 4) == 16 * a
  {
    assert Shl(a, 1) == 2 * a;
    assert Shl(a, 2) == 4 * a;
  }

  lemma ShlByte(a: nat)
    ensures Shl(a, 8) == 256 * a
  {
    ShlNibble(a);
    ShlNibble(Shl(a, 4));
    ShlTwice(a, 4, 4);
  }

  lemma ShlHalf(a: nat)
    ensures Shl(a, 16) == 0x1_0000 * a
  {
    ShlByte(a);
    ShlByte(Shl(a, 8));
    ShlTwice(a, 8, 8);
  }

  lemma ShlValues(a: nat)
    ensures Shl(a, 32) == TWO32 * a && Shl(a, 35) == TWO35 * a && Shl(a, 48) == TWO48 * a
  {
    ShlHalf(a);
    ShlHalf(Shl(a, 16));
    ShlTwice(a, 16, 16);
    ShlHalf(Shl(a, 32));
    ShlTwice(a, 32, 16);
    ShlNibble(Shl(a, 32));
    ShlTwice(a, 32, 3);
  }

  lemma OrHalves(a: nat, b: nat)
    ensures BitOr(a, b) == (if a % 2 == 1 || b % 2 == 1 then 1 else 0) + 2 * BitOr(a / 2, b / 2)
  {
  }

  /** "Or" works on the high and the low halves apart. */
  lemma {:induction false} OrSplit(ah: nat, al: nat, bh: nat, bl: nat, k: nat)
    requires al < Shl(1, k) && bl < Shl(1, k)
    ensures BitOr(Shl(ah, k) + al, Shl(bh, k) + bl) == Shl(BitOr(ah, bh), k) + BitOr(al, bl)
    decreases k
  {
    if k > 0 {
      OrSplit(ah, al / 2, bh, bl / 2, k - 1);
      OrHalves(Shl(ah, k) + al, Shl(bh, k) + bl);
      OrHalves(al, bl);
    }
  }

  lemma {:induction false} OrBound(a: nat, b: nat, k: nat)
    requires a < Shl(1, k) && b < Shl(1, k)
    ensures BitOr(a, b) < Shl(1, k)
  {
    if k > 0 { OrBound(a / 2, b / 2, k - 1); }
  }

  /** Fields that do not overlap are added. */
  lemma OrDisjoint(lo: nat, hi: nat, k: nat)
    requires lo < Shl(1, k)
    ensures BitOr(lo, Shl(hi, k)) == lo + Shl(hi, k)
  {
    OrSplit(0, lo, hi, 0, k);
    ShlZero(k);
    OrZero(lo);
    OrZero(hi);
  }

  lemma {:induction false} ShlZero(k: nat)
    ensures Shl(0, k) == 0
  {
    if k > 0 { ShlZero(k - 1); }
  }

  // The three words the builder packs.

  function RootWord(nd: u16): nat { BitOr(nd * TWO32, TWO48) }

  function ListWord(body: nat): nat { BitOr(BitOr(1, 7 * TWO32), Wrap64(body * TWO35)) }

  function TagWord(n: u32, width: u16): nat { BitOr(n * 4, width * TWO32) }

  lemma RootFields(nd: u16)
    ensures RootWord(nd) == nd * TWO32 + TWO48
  {
    ShlValues(1);
    OrDisjoint(nd * TWO32, 1, 48);
  }

  lemma OrAt32(hi: nat, lo: nat, x: nat)
    requires lo < TWO32
    ensures BitOr(hi * TWO32 + lo, x * TWO32) == BitOr(hi, x) * TWO32 + lo
  {
    ShlValues(1);
    ShlValues(hi);
    ShlValues(x);
    ShlValues(BitOr(hi, x));
    OrSplit(hi, lo, x, 0, 32);
    OrZero(lo);
  }

  lemma OrAt35(lo: nat, hi: nat)
    requires lo < TWO35
    ensures BitOr(lo, hi * TWO35) == lo + hi * TWO35
  {
    ShlValues(1);
    ShlValues(hi);
    OrDisjoint(lo, hi, 35);
  }

  lemma Wrapped(body: nat)
    ensures Wrap64(body * TWO35) == body % TWO29 * TWO35
  {
    var q, r := body / TWO29, body % TWO29;
    assert body * TWO35 == q * TWO64 + r * TWO35;
  }

  /** The body length keeps its low 29 bits. */
  lemma ListFields(body: nat)
    ensures ListWord(body) == 1 + 7 * TWO32 + body % TWO29 * TWO35
  {
    OrAt32(0, 1, 7);
    OrZero(7);
    Wrapped(body);
    OrAt35(1 + 7 * TWO32, body % TWO29);
  }

  /** The element count keeps its low 30 bits; the two above run into the element width. */
  lemma TagFields(n: u32, width: u16)
    ensures TagWord(n, width) == BitOr(n / TWO30, width) * TWO32 + n % TWO30 * 4
  {
    OrAt32(n / TWO30, n % TWO30 * 4, width);
  }

  lemma WidthBound(n: u32, width: u16)
    ensures BitOr(n / TWO30, width) < TWO16
  {
    ShlHalf(1);
    OrBound(n / TWO30, width, 16);
  }

  lemma WordsFit(nd: u16, body: nat, n: u32, width: u16)
    ensures RootWord(nd) < TWO64 && ListWord(body) < TWO64 && TagWord(n, width) < TWO64
  {
    RootFields(nd);
    ListFields(body);
    TagFields(n, width);
    WidthBound(n, width);
  }

  // The fields the reader takes out of a word.

  predicate RootOk(root: u64, nd: u16) { root % 4 == 0 && root / TWO32 % TWO16 == nd && root / TWO48 % TWO16 >= 1 }

  predicate ListOk(lp: u64) { lp % 4 == 1 && lp / TWO32 % 8 == 7 }

  function BodyOf(lp: u64): nat { lp / TWO35 % TWO29 }

  predicate TagOk(tag: u64, width: u16) { tag % 4 == 0 && tag / TWO32 % TWO16 == width && tag / TWO48 % TWO16 == 0 }

  function CountOf(tag: u64): nat { tag / 4 % TWO30 }

  lemma RootArithmetic(w: nat, nd: u16)
    requires w == nd * TWO32 + TWO48
    ensures w < TWO64 && RootOk(w, nd)
  {
    assert w / TWO32 == nd + TWO16;
    assert w / TWO48 == 1;
  }

  lemma ListArithmetic(w: nat, hi: nat)
    requires hi < TWO29 && w == 1 + 7 * TWO32 + hi * TWO35
    ensures w < TWO64 && ListOk(w) && BodyOf(w) == hi
  {
    assert w / TWO32 == 7 + 8 * hi;
    assert w / TWO35 == hi;
  }

  lemma TagArithmetic(w: nat, lo: nat, hi: u16, width: u16)
    requires lo < TWO30 && w == hi * TWO32 + lo * 4
    ensures w < TWO64 && CountOf(w) == lo && (TagOk(w, width) <==> hi == width)
  {
    assert w / TWO32 == hi;
    assert w / TWO48 == 0;
    assert w / 4 == hi * TWO30 + lo;
  }

  lemma RootReads(nd: u16)
    ensures RootWord(nd) < TWO64 && RootOk(RootWord(nd), nd)
  {
    RootFields(nd);
    RootArithmetic(RootWord(nd), nd);
  }

  lemma ListReads(body: nat)
    ensures ListWord(body) < TWO64 && ListOk(ListWord(body)) && BodyOf(ListWord(body)) == body % TWO29
  {
    ListFields(body);
    ListArithmetic(ListWord(body), body % TWO29);
  }

  lemma TagReads(n: u32, width: u16)
    ensures TagWord(n, width) < TWO64 && CountOf(TagWord(n, width)) == n % TWO30
    ensures TagOk(TagWord(n, width), width) <==> BitOr(n / TWO30, width) == width
  {
    TagFields(n, width);
    WidthBound(n, width);
    TagArithmetic(TagWord(n, width), n % TWO30, BitOr(n / TWO30, width), width);
  }

  // The message.

  function BodyWords(n: u32, width: u16): nat { 1 + n * width }

  /** The words of a segment, and a message of one segment. */
  function Segment(root: u64, data: seq<u64>, lp: u64, tag: u64, es: seq<u64>): (r: seq<u64>)
    ensures |r| == 3 + |data| + |es|
  {
    [root] + data + [lp, tag] + es
  }

  function Message(ws: seq<u64>): (r: seq<byte>)
    ensures |r| == 8 + 8 * |ws|
  {
    ZEROS + Le(|ws|, 4) + Bytes(ws)
  }

  predicate Buildable(data: seq<u64>, es: seq<u64>, n: u32, width: u16) { |data| < TWO16 && |es| == n * width }

  function ListWords(data: seq<u64>, es: seq<u64>, n: u32, width: u16): (r: seq<u64>)
    requires Buildable(data, es, n, width)
    ensures |r| == 2 + |data| + BodyWords(n, width)
  {
    WordsFit(|data|, BodyWords(n, width), n, width);
    Segment(RootWord(|data|), data, ListWord(BodyWords(n, width)), TagWord(n, width), es)
  }

  function ListMessage(data: seq<u64>, es: seq<u64>, n: u32, width: u16): (r: seq<byte>)
    requires Buildable(data, es, n, width)
    ensures |r| == 8 + 8 * (2 + |data| + BodyWords(n, width))
  {
    Message(ListWords(data, es, n, width))
  }

  /** capnp_build_list_root: the number of bytes written, 0 when the buffer is too small. */
  method BuildListRoot(buf: array<byte>, cap: nat, data: seq<u64>, es: seq<u64>, n: u32, width: u16)
    returns (total: nat)
    requires cap <= buf.Length && Buildable(data, es, n, width)
    modifies buf
    ensures total == if cap < |ListMessage(data, es, n, width)| then 0 else |ListMessage(data, es, n, width)|
    ensures total > 0 ==> buf[..total] == ListMessage(data, es, n, width)
    ensures forall k :: total <= k < buf.Length ==> buf[k] == old(buf[k])
  {
    var seg := 1 + |data| + 1 + BodyWords(n, width);
    total := 8 + 8 * seg;
    if cap < total {
      return 0;
    }
    StoreHeader(buf, seg);
    ghost var header := buf[..8];
    StoreListWords(buf, data, es, n, width);
    assert buf[..8] == header;
    assert buf[..total] == buf[..8] + buf[8..total];
  }

  /** The segment, stored behind a running byte position. */
  method StoreListWords(buf: array<byte>, data: seq<u64>, es: seq<u64>, n: u32, width: u16)
    requires Buildable(data, es, n, width) && |ListMessage(data, es, n, width)| <= buf.Length
    modifies buf
    ensures buf[8..|ListMessage(data, es, n, width)|] == Bytes(ListWords(data, es, n, width))
    ensures forall k :: 0 <= k < buf.Length && !(8 <= k < |ListMessage(data, es, n, width)|) ==> buf[k] == old(buf[k])
  {
    WordsFit(|data|, BodyWords(n, width), n, width);
    var p := StoreAfter(buf, 8, [], [RootWord(|data|)]);
    p := StoreAfter(buf, p, [RootWord(|data|)], data);
    ghost var done := [RootWord(|data|)] + data;
    var pointers := [ListWord(BodyWords(n, width)), TagWord(n, width)];
    p := StoreAfter(buf, p, done, pointers);
    p := StoreAfter(buf, p, done + pointers, es);
  }

  /** Words behind words already stored from byte 8 on. */
  method StoreAfter(buf: array<byte>, p: nat, ghost done: seq<u64>, ws: seq<u64>) returns (q: nat)
    requires p == 8 + 8 * |done| && p + 8 * |ws| <= buf.Length && buf[8..p] == Bytes(done)
    modifies buf
    ensures q == p + 8 * |ws| && buf[8..q] == Bytes(done + ws)
    ensures forall k :: 0 <= k < buf.Length && !(p <= k < q) ==> buf[k] == old(buf[k])
  {
    StoreWords(buf, p, ws);
    q := p + 8 * |ws|;
    assert buf[8..p] == Bytes(done);
    assert buf[8..q] == buf[8..p] + buf[p..q];
    BytesAppend(done, ws);
  }

  // The reader.

  /** What a reader gets: the root's data words, the list's element words, how many elements. */
  datatype ListView = ListView(data: seq<u64>, elements: seq<u64>, count: nat)

  function SegWord(msg: seq<byte>, i: nat): u64
    requires 16 + 8 * i <= |msg|
  {
    Word(msg, 8 + 8 * i)
  }

  function SegWords(msg: seq<byte>, from: nat, n: nat): (r: seq<u64>)
    requires 8 + 8 * (from + n) <= |msg|
    ensures |r| == n
  {
    var tail := msg[8 + 8 * from..];
    seq(n, i requires 0 <= i < n => Word(tail, 8 * i))
  }

  /** The two checks that the declared body holds the tag word and every element. */
  predicate CountOk(body: nat, count: nat, width: u16) {
    !(width != 0 && count > Wrap64(body - 1) / width) && 1 + count * width <= body
  }

  lemma {:induction false} MulMono(a: nat, b: nat, w: nat)
    requires a <= b
    ensures a * w <= b * w
    decreases b - a
  {
    if a < b { MulMono(a + 1, b, w); }
  }

  lemma DivMod(a: nat, w: nat)
    requires w > 0
    ensures a < (a / w + 1) * w
  {
    assert a == a / w * w + a % w;
  }

  lemma DivAtLeast(a: nat, c: nat, w: nat)
    requires w > 0 && c * w <= a
    ensures c <= a / w
  {
    if a / w < c {
      DivMod(a, w);
      MulMono(a / w + 1, c, w);
    }
  }

  /** The division guard adds nothing: on an empty body it wraps to a huge bound, and there
      the second check refuses. */
  lemma CountOkIff(body: nat, count: nat, width: u16)
    requires body < TWO29
    ensures CountOk(body, count, width) <==> 1 + count * width <= body
  {
    if 1 + count * width <= body && width != 0 { DivAtLeast(body - 1, count, width); }
  }

  /** capnp_read_list_root, on any bytes at all. */
  function ReadListRoot(msg: seq<byte>, nd: u16, width: u16): Option<ListView> {
    if |msg| < 8 || (|msg| - 8) % 8 != 0 then None else
      var avail := (|msg| - 8) / 8;
      if 1 + nd >= avail || !RootOk(SegWord(msg, 0), nd) then None else
        var lp := SegWord(msg, 1 + nd);
        if !ListOk(lp) then None else
          var body, at := BodyOf(lp), nd + 2;
          if at >= avail || body > avail - at || !TagOk(SegWord(msg, at), width) then None else
            var count := CountOf(SegWord(msg, at));
            if !CountOk(body, count, width) then None
            else Some(ListView(SegWords(msg, 1, nd), SegWords(msg, at + 1, count * width), count))
  }

  // Reading back what was built.

  lemma MessageWord(ws: seq<u64>, i: nat)
    requires i < |ws|
    ensures SegWord(Message(ws), i) == ws[i]
  {
    var head := ZEROS + Le(|ws|, 4);
    assert Message(ws) == head + Bytes(ws) + [];
    WordOfBytes(head, ws, [], i);
  }

  lemma SegWordsAt(msg: seq<byte>, from: nat, n: nat, k: nat)
    requires 8 + 8 * (from + n) <= |msg| && k < n
    ensures SegWords(msg, from, n)[k] == SegWord(msg, from + k)
  {
    var p := 8 + 8 * from;
    assert msg[p..][8 * k..8 * k + 8] == msg[p + 8 * k..p + 8 * k + 8];
  }

  lemma MessageWords(ws: seq<u64>, from: nat, n: nat)
    requires from + n <= |ws|
    ensures SegWords(Message(ws), from, n) == ws[from..from + n]
  {
    forall k | 0 <= k < n
      ensures SegWords(Message(ws), from, n)[k] == ws[from..from + n][k]
    {
      SegWordsAt(Message(ws), from, n, k);
      MessageWord(ws, from + k);
    }
  }

  /** The fixed words of a segment, and its two runs of words, read back. */
  lemma MessageParts(root: u64, data: seq<u64>, lp: u64, tag: u64, es: seq<u64>)
    ensures var msg, nd := Message(Segment(root, data, lp, tag, es)), |data|;
      && SegWord(msg, 0) == root && SegWord(msg, 1 + nd) == lp && SegWord(msg, nd + 2) == tag
      && SegWords(msg, 1, nd) == data && SegWords(msg, nd + 3, |es|) == es
  {
    var ws := Segment(root, data, lp, tag, es);
    MessageWord(ws, 0);
    MessageWord(ws, 1 + |data|);
    MessageWord(ws, |data| + 2);
    MessageWords(ws, 1, |data|);
    MessageWords(ws, |data| + 3, |es|);
    assert ws[1..1 + |data|] == data && ws[|data| + 3..|data| + 3 + |es|] == es;
  }

  lemma InsideSegment(avail: nat, nd: u16, width: u16, body: nat, count: nat)
    requires nd + 2 < avail && body <= avail - (nd + 2) && CountOk(body, count, width)
    ensures nd + 3 + count * width <= avail
  {
  }

  /** The reader on a message whose root and list pointers are in order. */
  lemma ReadOf(msg: seq<byte>, avail: nat, nd: u16, width: u16, body: nat, count: nat)
    requires |msg| == 8 + 8 * avail && nd + 2 < avail && body <= avail - (nd + 2)
    requires RootOk(SegWord(msg, 0), nd) && ListOk(SegWord(msg, 1 + nd))
    requires BodyOf(SegWord(msg, 1 + nd)) == body && CountOf(SegWord(msg, nd + 2)) == count
    ensures var r := ReadListRoot(msg, nd, width);
      if TagOk(SegWord(msg, nd + 2), width) && CountOk(body, count, width)
      then nd + 3 + count * width <= avail
           && r == Some(ListView(SegWords(msg, 1, nd), SegWords(msg, nd + 3, count * width), count))
      else r == None
  {
    assert (|msg| - 8) / 8 == avail;
    if CountOk(body, count, width) { InsideSegment(avail, nd, width, body, count); }
  }

  /** What the reader makes of a segment with well-formed pointers. */
  lemma ReadSegment(root: u64, data: seq<u64>, lp: u64, tag: u64, es: seq<u64>, width: u16)
    requires |data| < TWO16 && RootOk(root, |data|) && ListOk(lp) && BodyOf(lp) <= |es| + 1
    ensures var r := ReadListRoot(Message(Segment(root, data, lp, tag, es)), |data|, width);
      && (r.Some? <==> TagOk(tag, width) && 1 + CountOf(tag) * width <= BodyOf(lp))
      && (r.Some? ==> r.value.count == CountOf(tag))
      && (r.Some? && CountOf(tag) * width == |es| ==> r.value == ListView(data, es, CountOf(tag)))
  {
    MessageParts(root, data, lp, tag, es);
    ReadOf(Message(Segment(root, data, lp, tag, es)), 3 + |data| + |es|, |data|, width, BodyOf(lp), CountOf(tag));
    CountOkIff(BodyOf(lp), CountOf(tag), width);
  }

  /** What the reader makes of a built message. */
  lemma ReadBuilt(data: seq<u64>, es: seq<u64>, n: u32, width: u16)
    requires Buildable(data, es, n, width)
    ensures var r, count := ReadListRoot(ListMessage(data, es, n, width), |data|, width), n % TWO30;
      && (r.Some? <==> Accepted(n, width))
      && (r.Some? ==> r.value.count == count)
      && (r.Some? && count == n ==> r.value == ListView(data, es, n))
  {
    var body := BodyWords(n, width);
    RootReads(|data|);
    ListReads(body);
    TagReads(n, width);
    ReadSegment(RootWord(|data|), data, ListWord(body), TagWord(n, width), es, width);
  }

  /** The reader's verdict on a built message, from the counts alone. */
  predicate Accepted(n: u32, width: u16) {
    BitOr(n / TWO30, width) == width && 1 + n % TWO30 * width <= BodyWords(n, width) % TWO29
  }

  lemma AcceptedWhole(n: u32, width: u16)
    requires n < TWO30
    ensures Accepted(n, width) <==> BodyWords(n, width) < TWO29
  {
    OrZero(width);
  }

  /** Building and reading back is the identity exactly when the element count fits 30 bits
      and the list body 29. */
  lemma ListRoundTripIff(data: seq<u64>, es: seq<u64>, n: u32, width: u16)
    requires Buildable(data, es, n, width)
    ensures ReadListRoot(ListMessage(data, es, n, width), |data|, width) == Some(ListView(data, es, n))
            <==> n < TWO30 && BodyWords(n, width) < TWO29
  {
    ReadBuilt(data, es, n, width);
    if n < TWO30 { AcceptedWhole(n, width); }
  }

  lemma AcceptedShort(n: u32)
    requires TWO30 <= n < TWO30 + TWO29 - 1
    ensures Accepted(n, 1) && n % TWO30 == n - TWO30
  {
    assert n / TWO30 == 1 && BodyWords(n, 1) % TWO29 == 1 + n - TWO30;
    assert BitOr(1, 1) == 1;
  }

  /** Past 30 bits the reader can accept the message and see a shorter list. */
  lemma LongListMisread(data: seq<u64>, es: seq<u64>, n: u32)
    requires Buildable(data, es, n, 1) && TWO30 <= n < TWO30 + TWO29 - 1
    ensures var r := ReadListRoot(ListMessage(data, es, n, 1), |data|, 1); r.Some? && r.value.count == n - TWO30
  {
    ReadBuilt(data, es, n, 1);
    AcceptedShort(n);
  }

  /** On any bytes: everything returned lies inside the message, and has the stated size. */
  lemma ReadStaysInside(msg: seq<byte>, nd: u16, width: u16)
    requires ReadListRoot(msg, nd, width).Some?
    ensures var v := ReadListRoot(msg, nd, width).value;
      && 8 + 8 * (nd + 3 + v.count * width) <= |msg|
      && |v.data| == nd && |v.elements| == v.count * width
      && v.data == SegWords(msg, 1, nd) && v.elements == SegWords(msg, nd + 3, v.count * width)
  {
  }

  /** And rebuilding what any message was read as reads as the same. */
  lemma RebuildReads(msg: seq<byte>, nd: u16, width: u16)
    requires ReadListRoot(msg, nd, width).Some?
    ensures var v := ReadListRoot(msg, nd, width).value;
      && Buildable(v.data, v.elements, v.count, width)
      && ReadListRoot(ListMessage(v.data, v.elements, v.count, width), nd, width) == Some(v)
  {
    var v := ReadListRoot(msg, nd, width).value;
    ReadStaysInside(msg, nd, width);
    ListRoundTripIff(v.data, v.elements, v.count, width);
  }
}
