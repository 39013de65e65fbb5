/** Little-endian words in byte buffers: how both the architectures this code runs on
    lay out a 64-bit store. */
module Wire {
  import opened Words

  function Pow256(n: nat): nat { if n == 0 then 1 else 256 * Pow256(n - 1) }

  function Le(x: nat, n: nat): (r: seq<byte>)
    ensures |r| == n
  {
    if n == 0 then [] else [x % 256] + Le(x / 256, n - 1)
  }

  function FromLe(b: seq<byte>): nat {
    if b == [] then 0 else
      var b0: int := b[0];
      b0 + 256 * FromLe(b[1..])
  }

  lemma {:induction false} LeRoundTrip(x: nat, n: nat)
    requires x < Pow256(n)
    ensures FromLe(Le(x, n)) == x
  {
    if n > 0 {
      LeRoundTrip(x / 256, n - 1);
      assert Le(x, n)[1..] == Le(x / 256, n - 1);
    }
  }

  lemma Pow256Values()
    ensures Pow256(4) == TWO32 && Pow256(8) == TWO64
  {
    assert Pow256(2) == 0x1_0000;
    assert Pow256(4) == 256 * (256 * Pow256(2));
    assert Pow256(6) == 256 * (256 * Pow256(4));
    assert Pow256(8) == 256 * (256 * Pow256(6));
  }

  lemma {:induction false} FromLeBound(b: seq<byte>)
    ensures FromLe(b) < Pow256(|b|)
  {
    if b != [] { FromLeBound(b[1..]); }
  }

  /** The 64-bit word at byte offset p. */
  function Word(b: seq<byte>, p: nat): u64
    requires p + 8 <= |b|
  {
    FromLeBound(b[p..p + 8]);
    Pow256Values();
    FromLe(b[p..p + 8])
  }

  // Words one after another: eight-byte chunks, flattened.

  type Chunk = c: seq<byte> | |c| == 8 witness [0, 0, 0, 0, 0, 0, 0, 0]

  function Flatten(cs: seq<Chunk>): (r: seq<byte>)
    ensures |r| == 8 * |cs|
  {
    if cs == [] then [] else cs[0] + Flatten(cs[1..])
  }

  lemma {:induction false} FlattenAppend(cs: seq<Chunk>, ds: seq<Chunk>)
    ensures Flatten(cs + ds) == Flatten(cs) + Flatten(ds)
  {
    if cs == [] {
      assert cs + ds == ds;
    } else {
      FlattenAppend(cs[1..], ds);
      assert (cs + ds)[1..] == cs[1..] + ds;
    }
  }

  lemma {:induction false} FlattenSlice(cs: seq<Chunk>, i: nat)
    requires i < |cs|
    ensures Flatten(cs)[8 * i..8 * i + 8] == cs[i]
    decreases i
  {
    if i > 0 {
      FlattenSlice(cs[1..], i - 1);
      assert Flatten(cs)[8 * i..8 * i + 8] == Flatten(cs[1..])[8 * (i - 1)..8 * (i - 1) + 8];
    }
  }

  lemma {:induction false} FlattenOfSlices(b: seq<byte>, cs: seq<Chunk>)
    requires |b| == 8 * |cs| && forall i :: 0 <= i < |cs| ==> b[8 * i..8 * i + 8] == cs[i]
    ensures Flatten(cs) == b
    decreases |cs|
  {
    if cs != [] {
      forall i | 0 <= i < |cs[1..]|
        ensures b[8..][8 * i..8 * i + 8] == cs[1..][i]
      {
        assert b[8..][8 * i..8 * i + 8] == b[8 * (i + 1)..8 * (i + 1) + 8];
      }
      FlattenOfSlices(b[8..], cs[1..]);
      assert b == b[8 * 0..8 * 0 + 8] + b[8..];
    }
  }

  function Chunks(ws: seq<u64>): (r: seq<Chunk>)
    ensures |r| == |ws|
  {
    seq(|ws|, i requires 0 <= i < |ws| => Le(ws[i], 8))
  }

  function Bytes(ws: seq<u64>): (r: seq<byte>)
    ensures |r| == 8 * |ws|
  {
    Flatten(Chunks(ws))
  }

  lemma BytesAppend(ws: seq<u64>, vs: seq<u64>)
    ensures Bytes(ws + vs) == Bytes(ws) + Bytes(vs)
  {
    assert Chunks(ws + vs) == Chunks(ws) + Chunks(vs);
    FlattenAppend(Chunks(ws), Chunks(vs));
  }

  lemma BytesOne(w: u64)
    ensures Bytes([w]) == Le(w, 8)
  {
    var cs := Chunks([w]);
    assert Flatten(cs) == cs[0] + Flatten(cs[1..]);
  }

  lemma WordOfLe(b: seq<byte>, p: nat, w: u64)
    requires p + 8 <= |b| && b[p..p + 8] == Le(w, 8)
    ensures Word(b, p) == w
  {
    Pow256Values();
    LeRoundTrip(w, 8);
  }

  /** Reading a word back out of a run of stored words. */
  lemma WordOfBytes(before: seq<byte>, ws: seq<u64>, after: seq<byte>, i: nat)
    requires i < |ws|
    ensures Word(before + Bytes(ws) + after, |before| + 8 * i) == ws[i]
  {
    var b, p := before + Bytes(ws) + after, |before| + 8 * i;
    FlattenSlice(Chunks(ws), i);
    assert b[p..p + 8] == Bytes(ws)[8 * i..8 * i + 8];
    WordOfLe(b, p, ws[i]);
  }

  lemma {:induction false} FromLeRoundTrip(b: seq<byte>)
    ensures Le(FromLe(b), |b|) == b
  {
    if b != [] { FromLeRoundTrip(b[1..]); }
  }

  /** Bytes that read as these words are these words. */
  lemma BytesOfWords(b: seq<byte>, ws: seq<u64>)
    requires |b| == 8 * |ws| && forall i :: 0 <= i < |ws| ==> Word(b, 8 * i) == ws[i]
    ensures Bytes(ws) == b
  {
    forall i | 0 <= i < |ws|
      ensures b[8 * i..8 * i + 8] == Chunks(ws)[i]
    {
      assert Word(b, 8 * i) == ws[i];
      FromLeRoundTrip(b[8 * i..8 * i + 8]);
    }
    FlattenOfSlices(b, Chunks(ws));
  }

  /** Storing one word into a buffer. */
  method StoreWord(buf: array<byte>, p: nat, w: u64)
    requires p + 8 <= buf.Length
    modifies buf
    ensures buf[p..p + 8] == Le(w, 8)
    ensures forall k :: 0 <= k < buf.Length && !(p <= k < p + 8) ==> buf[k] == old(buf[k])
  {
    var i, x := 0, w;
    while i < 8
      invariant 0 <= i <= 8 && 0 <= x && Le(w, 8)[i..] == Le(x, 8 - i)
      invariant forall k :: 0 <= k < i ==> buf[p + k] == Le(w, 8)[k]
      invariant forall k :: 0 <= k < buf.Length && !(p <= k < p + 8) ==> buf[k] == old(buf[k])
    {
      buf[p + i] := x % 256;
      assert Le(w, 8)[i] == Le(w, 8)[i..][0];
      assert Le(w, 8)[i + 1..] == Le(w, 8)[i..][1..];
      x := x / 256;
      i := i + 1;
    }
  }
}
