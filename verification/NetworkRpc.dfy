/** Capability invocation over packets: the envelope, the client half and the server half
    of coreinit/network_rpc.c, and the Ethernet carrier of coreinit/network_ether.c. */
module NetworkRpc {
  import opened Words
  import opened Wire
  import opened CapnpFlat

  const MAGIC: u64 := 0x4f544f5352504331
  const VERSION: u32 := 2
  const REQUEST: u32 := 1
  const RESPONSE: u32 := 2
  const HEADER_SIZE := 80
  const MAX_PAYLOAD := 4096
  const FRAME_CAP := 2048
  const ETH_HEADER := 14
  const SPINS := 100000000

  type Packet = seq<byte>

  datatype Envelope = Envelope(kind: u32, id: u64, source: u64, destination: u64, target: u64, method_: u32,
                               payload: u32, capacity: u32, status: u32)

  /** What the invoked object answered: success and the bytes it left. */
  datatype Outcome = Outcome(ok: bool, data: seq<byte>)

  type Kernel = (u64, u32, seq<byte>, nat) -> Outcome

  function Pack(lo: u32, hi: u32): (r: u64)
    ensures Lo(r) == lo && Hi(r) == hi
  {
    lo + hi * TWO32
  }

  function Lo(w: u64): u32 { w % TWO32 }

  function Hi(w: u64): u32 { w / TWO32 }

  function EnvelopeWords(e: Envelope): (r: seq<u64>)
    ensures |r| == 8
  {
    [MAGIC, Pack(VERSION, e.kind), e.id, e.source, e.destination, e.target, Pack(e.method_, e.payload),
     Pack(e.capacity, e.status)]
  }

  function FromWords(ws: seq<u64>): Envelope
    requires |ws| == 8
  {
    Envelope(Hi(ws[1]), ws[2], ws[3], ws[4], ws[5], Lo(ws[6]), Hi(ws[6]), Lo(ws[7]), Hi(ws[7]))
  }

  function Header(e: Envelope): (r: Packet)
    ensures |r| == HEADER_SIZE
  {
    Flat(EnvelopeWords(e))
  }

  /** read_envelope together with the magic and version checks every caller makes. */
  function Parse(p: Packet): (r: Option<Envelope>)
    ensures r.Some? ==> |p| >= HEADER_SIZE
  {
    if |p| < HEADER_SIZE then None else
      var ws := ReadFlatExact(p[..HEADER_SIZE], 8);
      if ws.None? || ws.value[0] != MAGIC || Lo(ws.value[1]) != VERSION then None
      else Some(FromWords(ws.value))
  }

  lemma ParseOfHeader(e: Envelope, data: seq<byte>)
    ensures Parse(Header(e) + data) == Some(e)
  {
    assert (Header(e) + data)[..HEADER_SIZE] == Header(e);
    FlatRoundTrip(EnvelopeWords(e));
  }

  /** The reader accepts only headers the writer writes. */
  lemma ParseIsHeader(p: Packet)
    requires Parse(p).Some?
    ensures p[..HEADER_SIZE] == Header(Parse(p).value)
  {
    ReadIsFlat(p[..HEADER_SIZE], 8);
    var ws := ReadFlatExact(p[..HEADER_SIZE], 8).value;
    assert EnvelopeWords(FromWords(ws)) == ws;
  }

  predicate IsResponse(p: Packet) {
    Parse(p).Some? && Parse(p).value.kind == RESPONSE
  }

  predicate ResponseMatches(request: Packet, response: Packet) {
    var q, r := Parse(request), Parse(response);
    && q.Some? && r.Some? && q.value.kind == REQUEST && r.value.kind == RESPONSE
    && r.value.id == q.value.id && r.value.source == q.value.destination && r.value.destination == q.value.source
  }

  // The client half.

  predicate CanCall(msg: seq<byte>, cap: nat) { |msg| <= MAX_PAYLOAD && cap <= MAX_PAYLOAD }

  function RequestEnvelope(local: u64, remote: u64, id: u64, target: u64, m: u32, msg: seq<byte>, cap: nat): Envelope
    requires CanCall(msg, cap)
  {
    Envelope(REQUEST, id, local, remote, target, m, |msg|, cap, 0)
  }

  function Request(local: u64, remote: u64, id: u64, target: u64, m: u32, msg: seq<byte>, cap: nat): Packet
    requires CanCall(msg, cap)
  {
    Header(RequestEnvelope(local, remote, id, target, m, msg, cap)) + msg
  }

  /** The checks network_rpc_invoke makes on the reply, and the bytes it then copies out. */
  function Accept(local: u64, remote: u64, id: u64, cap: nat, reply: Packet): (r: Option<seq<byte>>)
    ensures r.Some? ==> |r.value| <= cap
  {
    var p := Parse(reply);
    if p.None? then None else
      var e := p.value;
      if e.kind != RESPONSE || e.id != id || e.source != remote || e.destination != local then None
      else if e.payload > cap || |reply| != HEADER_SIZE + e.payload || e.status == 0 then None
      else Some(reply[HEADER_SIZE..])
  }

  // The server half.

  /** The checks network_rpc_serve makes before it invokes anything. */
  function Admit(local: u64, p: Packet, room: nat): Option<Envelope> {
    var h := Parse(p);
    if h.None? || room < HEADER_SIZE then None else
      var e := h.value;
      if e.kind != REQUEST || e.destination != local || e.payload > MAX_PAYLOAD || e.capacity > MAX_PAYLOAD ||
         |p| != HEADER_SIZE + e.payload || room < HEADER_SIZE + e.capacity then None
      else h
  }

  function ReplyEnvelope(local: u64, e: Envelope, o: Outcome): Envelope
    requires |o.data| <= e.capacity
  {
    Envelope(RESPONSE, e.id, local, e.source, e.target, e.method_, |o.data|, 0, if o.ok then 1 else 0)
  }

  function Answer(local: u64, e: Envelope, o: Outcome): (r: Option<Packet>)
    ensures r.Some? <==> |o.data| <= e.capacity
  {
    if |o.data| > e.capacity then None else Some(Header(ReplyEnvelope(local, e, o)) + o.data)
  }

  function Serve(local: u64, kernel: Kernel, p: Packet, room: nat): Option<Packet> {
    var h := Admit(local, p, room);
    if h.None? then None
    else Answer(local, h.value, kernel(h.value.target, h.value.method_, p[HEADER_SIZE..], h.value.capacity))
  }

  /** What a direct invoke gives its caller: bytes on success. */
  function Direct(o: Outcome, cap: nat): Option<seq<byte>> {
    if o.ok && |o.data| <= cap then Some(o.data) else None
  }

  // Correlation, both ends.

  lemma AdmitRequest(local: u64, remote: u64, id: u64, target: u64, m: u32, msg: seq<byte>, cap: nat, room: nat)
    requires CanCall(msg, cap)
    ensures var p := Request(local, remote, id, target, m, msg, cap);
      && p[HEADER_SIZE..] == msg
      && Admit(remote, p, room) ==
         if room < HEADER_SIZE + cap then None else Some(RequestEnvelope(local, remote, id, target, m, msg, cap))
  {
    ParseOfHeader(RequestEnvelope(local, remote, id, target, m, msg, cap), msg);
  }

  /** The reply to any request is accepted by a caller exactly when it carries the caller's
      id and node pair, fits and reports success; what is accepted is what was answered. */
  lemma AcceptAnswer(node: u64, e: Envelope, o: Outcome, local: u64, remote: u64, id: u64, cap: nat)
    requires |o.data| <= e.capacity
    ensures var r := Accept(local, remote, id, cap, Answer(node, e, o).value);
      r == if e.id == id && node == remote && e.source == local then Direct(o, cap) else None
  {
    ParseOfHeader(ReplyEnvelope(node, e, o), o.data);
    assert (Header(ReplyEnvelope(node, e, o)) + o.data)[HEADER_SIZE..] == o.data;
  }

  /** Exactly the byte strings a caller could have sent to this node, with payload and
      capacity in bounds, are admitted. */
  lemma AdmitIff(local: u64, p: Packet, room: nat, e: Envelope)
    ensures Admit(local, p, room) == Some(e) <==>
            && |p| == HEADER_SIZE + e.payload && p == Header(e) + p[HEADER_SIZE..]
            && e.kind == REQUEST && e.destination == local
            && e.payload <= MAX_PAYLOAD && e.capacity <= MAX_PAYLOAD && HEADER_SIZE + e.capacity <= room
  {
    if Parse(p).Some? { ParseIsHeader(p); }
    if |p| >= HEADER_SIZE && p == Header(e) + p[HEADER_SIZE..] { ParseOfHeader(e, p[HEADER_SIZE..]); }
  }

  /** Exactly a successful response to this node pair and id that fits is accepted, for the
      bytes behind its header. */
  lemma AcceptIff(local: u64, remote: u64, id: u64, cap: nat, reply: Packet, data: seq<byte>)
    ensures Accept(local, remote, id, cap, reply) == Some(data) <==>
            exists e: Envelope :: reply == Header(e) + data && e.payload == |data| <= cap && e.status != 0
                                  && e.kind == RESPONSE && e.id == id && e.source == remote && e.destination == local
  {
    if Accept(local, remote, id, cap, reply) == Some(data) {
      ParseIsHeader(reply);
      assert reply == Header(Parse(reply).value) + data;
    }
    if e: Envelope :| reply == Header(e) + data && e.payload == |data| <= cap && e.status != 0
                      && e.kind == RESPONSE && e.id == id && e.source == remote && e.destination == local {
      ParseOfHeader(e, data);
      assert reply[HEADER_SIZE..] == data;
    }
  }

  /** Calling through serve on the destination node is a direct invoke. */
  lemma RemoteIsLocal(kernel: Kernel, local: u64, remote: u64, id: u64, target: u64, m: u32, msg: seq<byte>, cap: nat,
                      room: nat)
    requires CanCall(msg, cap) && room >= HEADER_SIZE + MAX_PAYLOAD
    ensures var reply := Serve(remote, kernel, Request(local, remote, id, target, m, msg, cap), room);
      var o := kernel(target, m, msg, cap);
      && (reply.Some? <==> |o.data| <= cap)
      && (reply.Some? ==> Accept(local, remote, id, cap, reply.value) == Direct(o, cap))
  {
    AdmitRequest(local, remote, id, target, m, msg, cap, room);
    var o := kernel(target, m, msg, cap);
    if |o.data| <= cap {
      AcceptAnswer(remote, RequestEnvelope(local, remote, id, target, m, msg, cap), o, local, remote, id, cap);
    }
  }

  /** A reply is matched to a request exactly when both are well formed and correlate, and
      the carrier's test never rejects what the caller would accept. */
  lemma AcceptedMatches(local: u64, remote: u64, id: u64, target: u64, m: u32, msg: seq<byte>, cap: nat, reply: Packet)
    requires CanCall(msg, cap)
    requires Accept(local, remote, id, cap, reply).Some?
    ensures ResponseMatches(Request(local, remote, id, target, m, msg, cap), reply)
    ensures IsResponse(reply)
  {
    ParseOfHeader(RequestEnvelope(local, remote, id, target, m, msg, cap), msg);
  }

  // The Ethernet carrier.

  predicate Framed(p: Packet) { |p| <= FRAME_CAP - ETH_HEADER }

  /** One call over Ethernet to a peer that serves it once. */
  function EtherCall(kernel: Kernel, local: u64, remote: u64, id: u64, target: u64, m: u32, msg: seq<byte>,
                     cap: nat): Option<seq<byte>>
    requires CanCall(msg, cap)
  {
    var q := Request(local, remote, id, target, m, msg, cap);
    if !Framed(q) then None else
      var r := Serve(remote, kernel, q, FRAME_CAP);
      if r.None? || !Framed(r.value) || !ResponseMatches(q, r.value) then None
      else Accept(local, remote, id, cap, r.value)
  }

  /** The frame size cuts the payloads that get through: over Ethernet a call is a direct
      invoke if and only if it fails anyway or message, capacity and result all fit. */
  lemma EtherCarriesIff(kernel: Kernel, local: u64, remote: u64, id: u64, target: u64, m: u32, msg: seq<byte>, cap: nat)
    requires CanCall(msg, cap)
    ensures var o := kernel(target, m, msg, cap);
      EtherCall(kernel, local, remote, id, target, m, msg, cap) == Direct(o, cap) <==>
      Direct(o, cap) == None || (|msg| <= 1954 && cap <= 1968 && |o.data| <= 1954)
  {
    var q := Request(local, remote, id, target, m, msg, cap);
    var o := kernel(target, m, msg, cap);
    AdmitRequest(local, remote, id, target, m, msg, cap, FRAME_CAP);
    if Framed(q) && cap <= 1968 && |o.data| <= cap {
      var e := RequestEnvelope(local, remote, id, target, m, msg, cap);
      AcceptAnswer(remote, e, o, local, remote, id, cap);
      ParseOfHeader(e, msg);
      ParseOfHeader(ReplyEnvelope(remote, e, o), o.data);
    }
  }

  /** A message of 1955 bytes that a direct invoke answers is lost over Ethernet. */
  lemma EtherLosesLongMessage(local: u64, remote: u64, id: u64, target: u64, m: u32)
    returns (kernel: Kernel, msg: seq<byte>)
    ensures CanCall(msg, 0) && EtherCall(kernel, local, remote, id, target, m, msg, 0) == None
    ensures Direct(kernel(target, m, msg, 0), 0) == Some([])
  {
    kernel, msg := (t, k, b, c) => Outcome(true, []), seq(1955, _ => 0);
    assert !Framed(Request(local, remote, id, target, m, msg, 0));
  }
}
