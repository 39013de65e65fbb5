/** A session's invoke is a call of the network runs: what it sends, how its counter moves and
    what it returns. */
module NetworkLink {
  import opened Words
  import opened NetworkRpc
  import opened NetworkSession
  import opened NetworkRuns

  /** The session with this counter is session s of the network. */
  predicate Stands(n: Net, s: nat, local: u64, remote: u64, nextId: u64)
    requires Shape(n)
  {
    s < |n.pairs| && n.pairs[s] == Pair(local, remote) && nextId == Wrap64(1 + n.made[s])
  }

  lemma WrapStep(k: nat)
    ensures Wrap64(Wrap64(1 + k) + 1) == Wrap64(1 + (k + 1))
  {
  }

  /** An invoke sends the request of the session's next call and moves the counter to the one
      after it. */
  lemma InvokeIsSend(n: Net, step: Step, local: u64, remote: u64, nextId: u64)
    requires Shape(n) && step.Send? && Stands(n, step.session, local, remote, nextId) && CanCall(step.msg, step.cap)
    ensures Enabled(n, step)
    ensures PacketOf(n.pairs, CallOf(n, step)) ==
            Request(local, remote, nextId, step.target, step.method_, step.msg, step.cap)
    ensures Stands(Next(n, step), step.session, local, remote, Wrap64(nextId + 1))
  {
    WrapStep(n.made[step.session]);
  }

  /** What the device shows as a reply to this request came over the network. */
  ghost predicate Carried(n: Net, request: Packet, peer: Mac, device: seq<Option<Frame>>) {
    forall k :: 0 <= k < |device| && Hit(request, peer, device[k], HEADER_SIZE + MAX_PAYLOAD) ==>
      device[k].value[ETH_HEADER..] in n.wire
  }

  /** What an invoke returns is what the call takes from the reply. */
  lemma InvokeTakes(n: Net, c: Call, peer: Mac, device: seq<Option<Frame>>, reply: Option<Packet>, r: Option<seq<byte>>)
    requires Shape(n) && CallOk(n.pairs, c) && Carried(n, PacketOf(n.pairs, c), peer, device) && r.Some?
    requires Returns(n.pairs[c.session].local, n.pairs[c.session].remote, Id(c), c.cap, PacketOf(n.pairs, c), peer,
                     device, reply, r)
    ensures reply.Some? && reply.value in n.wire && Taken(n.pairs, c, reply.value) == r
  {
    var k: nat :| IsFirstHit(PacketOf(n.pairs, c), peer, device, HEADER_SIZE + MAX_PAYLOAD, k)
                  && reply == Some(device[k].value[ETH_HEADER..]);
  }

  /** In every run with one session per node pair, the bytes a session's invoke returns were
      answered by the remote node to this very request, after the invoke sent it. */
  lemma InvokeReturnsOwnResult(pairs: seq<Pair>, ns: seq<Net>, steps: seq<Step>, c: Call, peer: Mac,
                               device: seq<Option<Frame>>, reply: Option<Packet>, r: Option<seq<byte>>)
    returns (ns': seq<Net>, steps': seq<Step>, i: nat, x: Exec)
    requires RunFrom(pairs, ns, steps) && OnePerPair(pairs) && IdsUnused(ns[|steps|])
    requires var n := ns[|steps|];
      && n.pairs == pairs && c in n.open && Carried(n, PacketOf(pairs, c), peer, device) && r.Some?
      && Returns(pairs[c.session].local, pairs[c.session].remote, Id(c), c.cap, PacketOf(pairs, c), peer, device,
                 reply, r)
    ensures RunFrom(pairs, ns', steps') && |steps'| == |steps| + 1
    ensures ns'[|steps'|] == Next(ns[|steps|], Receive(c, reply.value))
    ensures Answered(ns', steps', Return(c, r.value), i, x)
  {
    var n := ns[|steps|];
    InvokeTakes(n, c, peer, device, reply, r);
    ns', steps' := Extend(pairs, ns, steps, Receive(c, reply.value));
    i, x := SuccessIsOwnResult(pairs, ns', steps', Return(c, r.value));
  }
}
