/** The buffer-filling halves of the RPC: a client session over Ethernet and the server's
    reply, each proved to compute what the packet functions say. */
module NetworkSession {
  import opened Words
  import opened Wire
  import opened CapnpFlat
  import opened NetworkRpc

  const ETHERTYPE: seq<byte> := [0x88, 0xb5]

  type Frame = f: seq<byte> | |f| <= FRAME_CAP
  type Mac = m: seq<byte> | |m| == 6 witness [0, 0, 0, 0, 0, 0]

  datatype Delivery = Delivery(source: Mac, payload: Packet)

  function Framing(dst: Mac, src: Mac, p: Packet): (r: Option<Frame>)
    ensures r.Some? <==> Framed(p)
  {
    if Framed(p) then Some(dst + src + ETHERTYPE + p) else None
  }

  /** What poll makes of the frame the device hands over, for a receive buffer of cap bytes. */
  function Unframed(f: Option<Frame>, cap: nat): Option<Delivery> {
    if f.None? || |f.value| < ETH_HEADER || f.value[12..14] != ETHERTYPE || |f.value| - ETH_HEADER > cap then None
    else Some(Delivery(f.value[6..12], f.value[ETH_HEADER..]))
  }

  lemma FramingRoundTrip(dst: Mac, src: Mac, p: Packet, cap: nat)
    requires Framed(p) && |p| <= cap
    ensures Unframed(Framing(dst, src, p), cap) == Some(Delivery(src, p))
  {
    var f := Framing(dst, src, p).value;
    assert f[12..14] == ETHERTYPE && f[6..12] == src && f[ETH_HEADER..] == p;
  }

  predicate Hit(request: Packet, peer: Mac, f: Option<Frame>, cap: nat) {
    var d := Unframed(f, cap);
    d.Some? && d.value.source == peer && ResponseMatches(request, d.value.payload)
  }

  predicate IsFirstHit(request: Packet, peer: Mac, device: seq<Option<Frame>>, cap: nat, k: nat) {
    k < |device| && Hit(request, peer, device[k], cap) && forall j :: 0 <= j < k ==> !Hit(request, peer, device[j], cap)
  }

  predicate NoHit(request: Packet, peer: Mac, device: seq<Option<Frame>>, cap: nat) {
    forall j :: 0 <= j < |device| ==> !Hit(request, peer, device[j], cap)
  }

  /** The reply an exchange settles on: the payload of the first frame that is a hit. */
  ghost predicate Settled(request: Packet, peer: Mac, device: seq<Option<Frame>>, cap: nat, reply: Option<Packet>) {
    if reply.None? then NoHit(request, peer, device, cap)
    else exists k: nat :: IsFirstHit(request, peer, device, cap, k) && reply == Some(device[k].value[ETH_HEADER..])
  }

  /** What an invoke returns: what it accepts of the reply it settles on. */
  ghost predicate Returns(local: u64, remote: u64, id: u64, cap: nat, request: Packet, peer: Mac,
                          device: seq<Option<Frame>>, reply: Option<Packet>, r: Option<seq<byte>>) {
    && Settled(request, peer, device, HEADER_SIZE + MAX_PAYLOAD, reply)
    && r == if reply.Some? then Accept(local, remote, id, cap, reply.value) else None
  }

  method CopyBytes(dst: array<byte>, at: nat, src: seq<byte>)
    requires at + |src| <= dst.Length
    modifies dst
    ensures dst[at..at + |src|] == src
    ensures forall k :: 0 <= k < dst.Length && !(at <= k < at + |src|) ==> dst[k] == old(dst[k])
  {
    for i := 0 to |src|
      invariant dst[at..at + i] == src[..i]
      invariant forall k :: 0 <= k < dst.Length && !(at <= k < at + i) ==> dst[k] == old(dst[k])
    {
      dst[at + i] := src[i];
    }
  }

  /** envelope, then the payload behind it. */
  method WritePacket(buf: array<byte>, e: Envelope, data: seq<byte>)
    requires HEADER_SIZE + |data| <= buf.Length
    modifies buf
    ensures buf[..HEADER_SIZE + |data|] == Header(e) + data
  {
    var n := BuildFlat(buf, buf.Length, EnvelopeWords(e));
    ghost var head := buf[..HEADER_SIZE];
    CopyBytes(buf, HEADER_SIZE, data);
    assert buf[..HEADER_SIZE] == head;
    assert buf[..HEADER_SIZE + |data|] == buf[..HEADER_SIZE] + buf[HEADER_SIZE..HEADER_SIZE + |data|];
  }

  /** network_rpc_serve: the object writes its result behind the header space, the header is
      filled in last; 0 means there is no reply. */
  method ServeInto(local: u64, kernel: Kernel, request: Packet, response: array<byte>) returns (n: nat)
    modifies response
    ensures n <= response.Length
    ensures n == 0 <==> Serve(local, kernel, request, response.Length).None?
    ensures n > 0 ==> Serve(local, kernel, request, response.Length) == Some(response[..n])
  {
    var h := Admit(local, request, response.Length);
    if h.None? {
      return 0;
    }
    var e := h.value;
    var o := kernel(e.target, e.method_, request[HEADER_SIZE..], e.capacity);
    if |o.data| > e.capacity {
      return 0;
    }
    CopyBytes(response, HEADER_SIZE, o.data);
    ghost var data := response[HEADER_SIZE..HEADER_SIZE + |o.data|];
    n := BuildFlat(response, response.Length, EnvelopeWords(ReplyEnvelope(local, e, o)));
    assert response[HEADER_SIZE..HEADER_SIZE + |o.data|] == data;
    n := n + |o.data|;
    assert response[..n] == response[..HEADER_SIZE] + response[HEADER_SIZE..n];
  }

  /** One poll: the frame, if it is ours at all, lands in the receive buffer, hit or not. */
  method PollOnce(request: Packet, peer: Mac, f: Option<Frame>, response: array<byte>) returns (found: Option<nat>)
    modifies response
    ensures found.Some? <==> Hit(request, peer, f, response.Length)
    ensures found.Some? ==> found.value <= response.Length && f.Some? && |f.value| >= ETH_HEADER
                            && response[..found.value] == f.value[ETH_HEADER..]
  {
    var d := Unframed(f, response.Length);
    if d.None? {
      return None;
    }
    CopyBytes(response, 0, d.value.payload);
    assert response[..|d.value.payload|] == d.value.payload;
    var hit := d.value.source == peer && ResponseMatches(request, d.value.payload);
    found := if hit then Some(|d.value.payload|) else None;
  }

  /** network_ether_exchange after the send: poll until a hit or out of spins. */
  method AwaitReply(request: Packet, peer: Mac, device: seq<Option<Frame>>, response: array<byte>)
    returns (found: Option<nat>)
    requires |device| == SPINS
    modifies response
    ensures found.Some? ==> found.value <= response.Length
    ensures Settled(request, peer, device, response.Length,
                    if found.Some? then Some(response[..found.value]) else None)
  {
    var i := 0;
    while i < SPINS
      invariant 0 <= i <= SPINS
      invariant forall j :: 0 <= j < i ==> !Hit(request, peer, device[j], response.Length)
    {
      found := PollOnce(request, peer, device[i], response);
      if found.Some? {
        assert IsFirstHit(request, peer, device, response.Length, i);
        return;
      }
      i := i + 1;
    }
    assert NoHit(request, peer, device, response.Length);
    return None;
  }

  class Session {
    const local: u64
    const remote: u64
    const peer: Mac
    var nextId: u64

    constructor (local: u64, remote: u64, peer: Mac)
      ensures this.local == local && this.remote == remote && this.peer == peer && nextId == 1
    {
      this.local := local;
      this.remote := remote;
      this.peer := peer;
      nextId := 1;
    }

    /** network_rpc_invoke over network_ether_exchange. `sent` is the frame that left, `device`
        what the receive side shows spin by spin. Every admissible call consumes one id; the
        result is decided by the first reply that matches this very request. */
    method Invoke(own: Mac, target: u64, m: u32, msg: seq<byte>, cap: nat, device: seq<Option<Frame>>)
      returns (sent: Option<Frame>, r: Option<seq<byte>>, ghost reply: Option<Packet>)
      requires |device| == SPINS
      modifies this
      ensures !CanCall(msg, cap) ==> nextId == old(nextId) && sent.None? && r.None?
      ensures CanCall(msg, cap) ==>
        var q := Request(local, remote, old(nextId), target, m, msg, cap);
        && nextId == Wrap64(old(nextId) + 1) && sent == Framing(peer, own, q)
        && (sent.Some? ==> Returns(local, remote, old(nextId), cap, q, peer, device, reply, r))
      ensures sent.None? ==> r.None?
    {
      sent, r, reply := None, None, None;
      if !CanCall(msg, cap) {
        return;
      }
      var id := nextId;
      nextId := Wrap64(nextId + 1);
      var packet := BuildRequest(id, target, m, msg, cap);
      sent := Framing(peer, own, packet);
      if sent.Some? {
        var buf := new byte[HEADER_SIZE + MAX_PAYLOAD];
        var found := AwaitReply(packet, peer, device, buf);
        if found.Some? {
          reply := Some(buf[..found.value]);
          r := Accept(local, remote, id, cap, buf[..found.value]);
        }
      }
    }

    /** The request packet, assembled in a buffer of the largest size. */
    method BuildRequest(id: u64, target: u64, m: u32, msg: seq<byte>, cap: nat) returns (packet: Packet)
      requires CanCall(msg, cap)
      ensures packet == Request(local, remote, id, target, m, msg, cap)
    {
      var request := new byte[HEADER_SIZE + MAX_PAYLOAD];
      WritePacket(request, RequestEnvelope(local, remote, id, target, m, msg, cap), msg);
      packet := request[..HEADER_SIZE + |msg|];
    }
  }
}
