/** The flat single-segment message codec of coreinit/capnp_build.h. */
module CapnpFlat {
  import opened Words
  import opened Wire

  const ZEROS: seq<byte> := [0, 0, 0, 0]

  /** Segment table, root struct pointer, data words. */
  function Flat(ws: seq<u64>): (r: seq<byte>)
    requires |ws| < TWO16
    ensures |r| == 16 + 8 * |ws|
  {
    ZEROS + Le(1 + |ws|, 4) + Bytes([|ws| * TWO32] + ws)
  }

  method StoreHeader(buf: array<byte>, seg: nat)
    requires 8 <= buf.Length
    modifies buf
    ensures buf[..8] == ZEROS + Le(seg, 4)
    ensures forall k :: 8 <= k < buf.Length ==> buf[k] == old(buf[k])
  {
    buf[0], buf[1], buf[2], buf[3] := 0, 0, 0, 0;
    var s1 := seg / 256;
    var s2 := s1 / 256;
    var s3 := s2 / 256;
    buf[4], buf[5], buf[6], buf[7] := seg % 256, s1 % 256, s2 % 256, s3 % 256;
    assert Le(s3, 1) == [s3 % 256];
    assert Le(s2, 2) == [s2 % 256] + Le(s3, 1);
    assert Le(s1, 3) == [s1 % 256] + Le(s2, 2);
    assert Le(seg, 4) == [seg % 256] + Le(s1, 3);
  }

  /** Storing consecutive words from byte p on. */
  method StoreWords(buf: array<byte>, p: nat, ws: seq<u64>)
    requires p + 8 * |ws| <= buf.Length
    modifies buf
    ensures buf[p..p + 8 * |ws|] == Bytes(ws)
    ensures forall k :: 0 <= k < buf.Length && !(p <= k < p + 8 * |ws|) ==> buf[k] == old(buf[k])
  {
    var i := 0;
    while i < |ws|
      invariant 0 <= i <= |ws|
      invariant buf[p..p + 8 * i] == Bytes(ws[..i])
      invariant forall k :: 0 <= k < buf.Length && !(p <= k < p + 8 * |ws|) ==> buf[k] == old(buf[k])
    {
      ghost var before := buf[p..p + 8 * i];
      StoreWord(buf, p + 8 * i, ws[i]);
      assert buf[p..p + 8 * i] == before;
      assert buf[p..p + 8 * (i + 1)] == buf[p..p + 8 * i] + buf[p + 8 * i..p + 8 * i + 8];
      BytesAppend(ws[..i], [ws[i]]);
      assert ws[..i + 1] == ws[..i] + [ws[i]];
      BytesOne(ws[i]);
      i := i + 1;
    }
    assert ws[..|ws|] == ws;
  }

  /** capnp_build_flat: the number of bytes written, 0 when the buffer is too small. */
  method BuildFlat(buf: array<byte>, cap: nat, ws: seq<u64>) returns (n: nat)
    requires cap <= buf.Length && |ws| < TWO16
    modifies buf
    ensures n == if cap < 16 + 8 * |ws| then 0 else 16 + 8 * |ws|
    ensures n > 0 ==> buf[..n] == Flat(ws)
    ensures forall k :: n <= k < buf.Length ==> buf[k] == old(buf[k])
  {
    n := 16 + 8 * |ws|;
    if cap < n {
      return 0;
    }
    StoreHeader(buf, 1 + |ws|);
    ghost var header := buf[..8];
    var body := [|ws| * TWO32] + ws;
    StoreWords(buf, 8, body);
    assert buf[..8] == header;
    assert buf[..n] == buf[..8] + buf[8..n];
  }

  /** capnp_read_flat_exact: the data words, if the message has exactly this shape. */
  function ReadFlatExact(msg: seq<byte>, n: nat): (r: Option<seq<u64>>)
    requires n < TWO16
    ensures r.Some? ==> |r.value| == n
  {
    if |msg| != 16 + 8 * n then None
    else if msg[..4] != ZEROS || FromLe(msg[4..8]) != 1 + n || Word(msg, 8) != n * TWO32 then None
    else Some(seq(n, i requires 0 <= i < n => Word(msg, 16 + 8 * i)))
  }

  lemma FlatHeader(ws: seq<u64>)
    requires |ws| < TWO16
    ensures Flat(ws)[..4] == ZEROS && FromLe(Flat(ws)[4..8]) == 1 + |ws|
  {
    assert Flat(ws)[4..8] == Le(1 + |ws|, 4);
    Pow256Values();
    LeRoundTrip(1 + |ws|, 4);
  }

  lemma FlatWord(ws: seq<u64>, i: nat)
    requires |ws| < TWO16 && i <= |ws|
    ensures Word(Flat(ws), 8 + 8 * i) == if i == 0 then |ws| * TWO32 else ws[i - 1]
  {
    var head, body := ZEROS + Le(1 + |ws|, 4), [|ws| * TWO32] + ws;
    assert Flat(ws) == head + Bytes(body) + [];
    WordOfBytes(head, body, [], i);
  }

  /** What the builder writes, the reader reads. */
  lemma FlatRoundTrip(ws: seq<u64>)
    requires |ws| < TWO16
    ensures ReadFlatExact(Flat(ws), |ws|) == Some(ws)
  {
    FlatHeader(ws);
    FlatWord(ws, 0);
    forall i | 0 <= i < |ws|
      ensures Word(Flat(ws), 16 + 8 * i) == ws[i]
    {
      FlatWord(ws, i + 1);
    }
    assert seq(|ws|, i requires 0 <= i < |ws| => Word(Flat(ws), 16 + 8 * i)) == ws;
  }

  /** The reader accepts nothing the builder does not write. */
  lemma ReadIsFlat(msg: seq<byte>, n: nat)
    requires n < TWO16 && ReadFlatExact(msg, n).Some?
    ensures msg == Flat(ReadFlatExact(msg, n).value)
  {
    var ws := ReadFlatExact(msg, n).value;
    var body := [n * TWO32] + ws;
    FromLeRoundTrip(msg[4..8]);
    forall i | 0 <= i < |body|
      ensures Word(msg[8..], 8 * i) == body[i]
    {
      assert msg[8..][8 * i..8 * i + 8] == msg[8 + 8 * i..16 + 8 * i];
    }
    BytesOfWords(msg[8..], body);
    assert msg == msg[..4] + msg[4..8] + msg[8..];
  }
}
