/** Whole runs of the RPC over a network that may drop, delay, duplicate and reorder
    packets: whatever was once sent may arrive anywhere, any number of times, at any later
    time, or never; nothing arrives that was not sent. */
module NetworkRuns {
  import opened Words
  import opened NetworkRpc

  datatype Pair = Pair(local: u64, remote: u64)

  /** A call on a session; `serial` counts the session's calls and fixes the request id. */
  datatype Call = Call(session: nat, serial: nat, target: u64, method_: u32, msg: seq<byte>, cap: nat)

  /** An invocation a serving node made for a packet, and what the object answered. */
  datatype Exec = Exec(node: u64, packet: Packet, room: nat, outcome: Outcome)

  datatype Return = Return(call: Call, data: seq<byte>)

  datatype Net = Net(pairs: seq<Pair>, made: seq<nat>, issued: set<Call>, open: set<Call>, wire: set<Packet>,
                     log: set<Exec>, returned: set<Return>)

  datatype Step =
    | Send(session: nat, target: u64, method_: u32, msg: seq<byte>, cap: nat)
    | Execute(exec: Exec)
    | Receive(call: Call, packet: Packet)
    | GiveUp(call: Call)

  /** Session counters start at 1 and are 64 bits wide. */
  function Id(c: Call): u64 { Wrap64(1 + c.serial) }

  predicate CallOk(pairs: seq<Pair>, c: Call) { c.session < |pairs| && CanCall(c.msg, c.cap) }

  function EnvelopeOf(pairs: seq<Pair>, c: Call): Envelope
    requires CallOk(pairs, c)
  {
    RequestEnvelope(pairs[c.session].local, pairs[c.session].remote, Id(c), c.target, c.method_, c.msg, c.cap)
  }

  function PacketOf(pairs: seq<Pair>, c: Call): Packet
    requires CallOk(pairs, c)
  {
    Request(pairs[c.session].local, pairs[c.session].remote, Id(c), c.target, c.method_, c.msg, c.cap)
  }

  function ReplyTo(x: Exec): Option<Packet> {
    var e := Admit(x.node, x.packet, x.room);
    if e.None? then None else Answer(x.node, e.value, x.outcome)
  }

  /** The result a caller takes from a delivered packet. */
  function Taken(pairs: seq<Pair>, c: Call, p: Packet): Option<seq<byte>>
    requires CallOk(pairs, c)
  {
    if !ResponseMatches(PacketOf(pairs, c), p) then None
    else Accept(pairs[c.session].local, pairs[c.session].remote, Id(c), c.cap, p)
  }

  function CallOf(n: Net, s: Step): Call
    requires s.Send? && s.session < |n.made|
  {
    Call(s.session, n.made[s.session], s.target, s.method_, s.msg, s.cap)
  }

  predicate Shape(n: Net) {
    |n.made| == |n.pairs| && n.open <= n.issued && forall c :: c in n.issued ==> CallOk(n.pairs, c)
  }

  predicate Enabled(n: Net, s: Step)
    requires Shape(n)
  {
    match s
    case Send(session, _, _, msg, cap) => session < |n.pairs| && CanCall(msg, cap)
    case Execute(x) => x.packet in n.wire && Admit(x.node, x.packet, x.room).Some?
    case Receive(c, p) => c in n.open && p in n.wire && Taken(n.pairs, c, p).Some?
    case GiveUp(c) => c in n.open
  }

  function Next(n: Net, s: Step): (r: Net)
    requires Shape(n) && Enabled(n, s)
    ensures Shape(r) && r.pairs == n.pairs
  {
    match s
    case Send(session, _, _, _, _) =>
      var c := CallOf(n, s);
      n.(made := n.made[session := n.made[session] + 1], issued := n.issued + {c}, open := n.open + {c},
         wire := n.wire + {PacketOf(n.pairs, c)})
    case Execute(x) =>
      var r := ReplyTo(x);
      n.(log := n.log + {x}, wire := if r.Some? then n.wire + {r.value} else n.wire)
    case Receive(c, p) =>
      n.(open := n.open - {c}, returned := n.returned + {Return(c, Taken(n.pairs, c, p).value)})
    case GiveUp(c) => n.(open := n.open - {c})
  }

  function Start(pairs: seq<Pair>): (r: Net)
    ensures Shape(r)
  {
    Net(pairs, seq(|pairs|, _ => 0), {}, {}, {}, {}, {})
  }

  predicate IsStep(n: Net, s: Step, m: Net)
    requires Shape(n)
  {
    Enabled(n, s) && m == Next(n, s)
  }

  ghost predicate IsRun(ns: seq<Net>, steps: seq<Step>) {
    && |ns| == |steps| + 1
    && (forall i :: 0 <= i < |ns| ==> Shape(ns[i]))
    && (forall i :: 0 <= i < |steps| ==> IsStep(ns[i], steps[i], ns[i + 1]))
  }

  // What holds in every reachable state.

  predicate Serials(n: Net)
    requires Shape(n)
  {
    && (forall c :: c in n.issued ==> c.serial < n.made[c.session])
    && (forall c, d :: c in n.issued && d in n.issued && c.session == d.session && c.serial == d.serial ==> c == d)
  }

  ghost predicate FromCall(n: Net, p: Packet)
    requires Shape(n)
  {
    exists c :: c in n.issued && p == PacketOf(n.pairs, c)
  }

  ghost predicate FromExec(n: Net, p: Packet) { exists x :: x in n.log && ReplyTo(x) == Some(p) }

  /** Nothing is on the wire but requests of issued calls and replies of logged executions,
      and only requests are ever executed. */
  ghost predicate Sourced(n: Net)
    requires Shape(n)
  {
    && (forall p :: p in n.wire ==> FromCall(n, p) || FromExec(n, p))
    && (forall x :: x in n.log ==> FromCall(n, x.packet) && Admit(x.node, x.packet, x.room).Some?)
  }

  /** This very request was executed, at its destination, and answered with these bytes. */
  ghost predicate Executed(n: Net, c: Call, data: seq<byte>)
    requires Shape(n) && CallOk(n.pairs, c)
  {
    exists x :: x in n.log && x.packet == PacketOf(n.pairs, c) && x.node == n.pairs[c.session].remote
                && x.outcome == Outcome(true, data)
  }

  ghost predicate Faithful(n: Net)
    requires Shape(n)
  {
    forall r :: r in n.returned ==> r.call in n.issued && Executed(n, r.call, r.data)
  }

  ghost predicate Inv(n: Net)
    requires Shape(n)
  {
    Serials(n) && Sourced(n) && Faithful(n)
  }

  predicate OnePerPair(pairs: seq<Pair>) {
    forall i, j :: 0 <= i < j < |pairs| ==> pairs[i] != pairs[j]
  }

  predicate IdsUnused(n: Net) { forall i :: 0 <= i < |n.made| ==> n.made[i] <= TWO64 }

  /** Replies are not requests: what a serving node admits was sent by a caller. */
  lemma AdmittedIsRequest(n: Net, x: Exec)
    requires Shape(n) && Sourced(n) && x.packet in n.wire && Admit(x.node, x.packet, x.room).Some?
    ensures FromCall(n, x.packet)
  {
    if FromExec(n, x.packet) {
      var y :| y in n.log && ReplyTo(y) == Some(x.packet);
      var e := Admit(y.node, y.packet, y.room).value;
      ParseOfHeader(ReplyEnvelope(y.node, e, y.outcome), y.outcome.data);
    }
  }

  /** And a packet that a caller accepts is the reply of an execution. */
  lemma TakenIsReply(n: Net, c: Call, p: Packet)
    requires Shape(n) && Sourced(n) && CallOk(n.pairs, c) && p in n.wire && Taken(n.pairs, c, p).Some?
    ensures FromExec(n, p)
  {
    if FromCall(n, p) {
      var d :| d in n.issued && p == PacketOf(n.pairs, d);
      ParseOfHeader(EnvelopeOf(n.pairs, d), d.msg);
    }
  }

  /** The packet of a call tells its node pair, id, target, method, message and capacity. */
  lemma AdmitPacket(pairs: seq<Pair>, c: Call, node: u64, room: nat)
    requires CallOk(pairs, c) && Admit(node, PacketOf(pairs, c), room).Some?
    ensures node == pairs[c.session].remote
    ensures Admit(node, PacketOf(pairs, c), room).value == EnvelopeOf(pairs, c)
  {
    ParseOfHeader(EnvelopeOf(pairs, c), c.msg);
  }

  /** Correlation: the reply a call takes answers a call with the same pair and id. */
  lemma TakenCorrelates(pairs: seq<Pair>, c: Call, d: Call, x: Exec)
    requires CallOk(pairs, c) && CallOk(pairs, d)
    requires x.packet == PacketOf(pairs, d) && Admit(x.node, x.packet, x.room).Some?
    requires ReplyTo(x).Some? && Taken(pairs, c, ReplyTo(x).value).Some?
    ensures pairs[c.session] == pairs[d.session] && Id(c) == Id(d) && x.node == pairs[c.session].remote
    ensures x.outcome == Outcome(true, Taken(pairs, c, ReplyTo(x).value).value)
  {
    AdmitPacket(pairs, d, x.node, x.room);
    AcceptAnswer(x.node, EnvelopeOf(pairs, d), x.outcome, pairs[c.session].local, pairs[c.session].remote, Id(c),
                 c.cap);
  }

  /** With one session per pair and no id used twice, that call is the same call. */
  lemma SameCall(n: Net, c: Call, d: Call)
    requires Shape(n) && Serials(n) && OnePerPair(n.pairs) && IdsUnused(n)
    requires c in n.issued && d in n.issued && n.pairs[c.session] == n.pairs[d.session] && Id(c) == Id(d)
    ensures c == d
  {
    assert c.session == d.session by {
      assert !(c.session < d.session) && !(d.session < c.session);
    }
    assert n.made[c.session] <= TWO64;
  }

  lemma ReceiveIsExecuted(n: Net, c: Call, p: Packet)
    requires Shape(n) && Inv(n) && OnePerPair(n.pairs) && IdsUnused(n) && Enabled(n, Receive(c, p))
    ensures Executed(n, c, Taken(n.pairs, c, p).value)
  {
    TakenIsReply(n, c, p);
    var x :| x in n.log && ReplyTo(x) == Some(p);
    var d :| d in n.issued && x.packet == PacketOf(n.pairs, d);
    TakenCorrelates(n.pairs, c, d, x);
    SameCall(n, c, d);
  }

  /** Growing sets keep what was sourced and what was executed. */
  ghost predicate Grows(n: Net, m: Net) {
    m.pairs == n.pairs && n.issued <= m.issued && n.log <= m.log
  }

  lemma GrowsKeeps(n: Net, m: Net)
    requires Shape(n) && Shape(m) && Grows(n, m)
    ensures forall p :: FromCall(n, p) ==> FromCall(m, p)
    ensures forall p :: FromExec(n, p) ==> FromExec(m, p)
    ensures forall c, data :: CallOk(n.pairs, c) && Executed(n, c, data) ==> Executed(m, c, data)
  {
  }

  lemma SendKeeps(n: Net, s: Step)
    requires Shape(n) && Inv(n) && Enabled(n, s) && s.Send?
    ensures Inv(Next(n, s))
  {
    var m := Next(n, s);
    GrowsKeeps(n, m);
    assert CallOf(n, s) in m.issued;
    assert FromCall(m, PacketOf(n.pairs, CallOf(n, s)));
  }

  lemma ExecuteKeeps(n: Net, x: Exec)
    requires Shape(n) && Inv(n) && Enabled(n, Execute(x))
    ensures Inv(Next(n, Execute(x)))
  {
    var m := Next(n, Execute(x));
    GrowsKeeps(n, m);
    AdmittedIsRequest(n, x);
    assert x in m.log;
  }

  lemma ReceiveKeeps(n: Net, c: Call, p: Packet)
    requires Shape(n) && Inv(n) && OnePerPair(n.pairs) && IdsUnused(n) && Enabled(n, Receive(c, p))
    ensures Inv(Next(n, Receive(c, p)))
  {
    GrowsKeeps(n, Next(n, Receive(c, p)));
    ReceiveIsExecuted(n, c, p);
  }

  lemma StepKeepsInv(n: Net, s: Step)
    requires Shape(n) && Inv(n) && OnePerPair(n.pairs) && IdsUnused(n) && Enabled(n, s)
    ensures Inv(Next(n, s))
  {
    match s
    case Send(_, _, _, _, _) => SendKeeps(n, s);
    case Execute(x) => ExecuteKeeps(n, x);
    case Receive(c, p) => ReceiveKeeps(n, c, p);
    case GiveUp(c) => GrowsKeeps(n, Next(n, s));
  }

  // Runs.

  ghost predicate RunFrom(pairs: seq<Pair>, ns: seq<Net>, steps: seq<Step>) {
    IsRun(ns, steps) && ns[0] == Start(pairs)
  }

  lemma RunPrefix(pairs: seq<Pair>, ns: seq<Net>, steps: seq<Step>, k: nat)
    requires RunFrom(pairs, ns, steps) && k <= |steps|
    ensures RunFrom(pairs, ns[..k + 1], steps[..k])
  {
  }

  /** One step: counters never go down, what was issued and executed stays. */
  lemma StepGrows(n: Net, s: Step)
    requires Shape(n) && Enabled(n, s)
    ensures Grows(n, Next(n, s)) && (IdsUnused(Next(n, s)) ==> IdsUnused(n))
    ensures Next(n, s).issued == if s.Send? then n.issued + {CallOf(n, s)} else n.issued
  {
    var m := Next(n, s);
    if IdsUnused(m) {
      forall i | 0 <= i < |n.made|
        ensures n.made[i] <= TWO64
      {
        assert m.made[i] <= TWO64;
      }
    }
  }

  lemma {:induction false} RunKeepsInv(pairs: seq<Pair>, ns: seq<Net>, steps: seq<Step>)
    requires RunFrom(pairs, ns, steps) && OnePerPair(pairs) && IdsUnused(ns[|steps|])
    ensures ns[|steps|].pairs == pairs && Inv(ns[|steps|])
    decreases |steps|
  {
    if |steps| > 0 {
      var k := |steps| - 1;
      StepGrows(ns[k], steps[k]);
      RunPrefix(pairs, ns, steps, k);
      RunKeepsInv(pairs, ns[..k + 1], steps[..k]);
      StepKeepsInv(ns[k], steps[k]);
    }
  }

  /** Every issued call was sent by some step of the run. */
  lemma {:induction false} IssuedWasSent(pairs: seq<Pair>, ns: seq<Net>, steps: seq<Step>, c: Call) returns (i: nat)
    requires RunFrom(pairs, ns, steps) && c in ns[|steps|].issued
    ensures i < |steps| && steps[i].Send? && Enabled(ns[i], steps[i]) && CallOf(ns[i], steps[i]) == c
    decreases |steps|
  {
    var k := |steps| - 1;
    StepGrows(ns[k], steps[k]);
    if c !in ns[k].issued {
      return k;
    }
    RunPrefix(pairs, ns, steps, k);
    i := IssuedWasSent(pairs, ns[..k + 1], steps[..k], c);
  }

  lemma {:induction false} LaterIdsUnused(pairs: seq<Pair>, ns: seq<Net>, steps: seq<Step>, i: nat)
    requires RunFrom(pairs, ns, steps) && i <= |steps| && IdsUnused(ns[|steps|])
    ensures IdsUnused(ns[i])
    decreases |steps|
  {
    if i < |steps| {
      var k := |steps| - 1;
      StepGrows(ns[k], steps[k]);
      RunPrefix(pairs, ns, steps, k);
      LaterIdsUnused(pairs, ns[..k + 1], steps[..k], i);
    }
  }

  /** A request about to be sent has never been executed before. */
  lemma NewRequestIsNew(n: Net, s: Step, x: Exec)
    requires Shape(n) && Inv(n) && OnePerPair(n.pairs) && Enabled(n, s) && s.Send? && IdsUnused(Next(n, s))
    requires x in n.log
    ensures x.packet != PacketOf(n.pairs, CallOf(n, s))
  {
    var c, m := CallOf(n, s), Next(n, s);
    if x.packet == PacketOf(n.pairs, c) {
      var d :| d in n.issued && x.packet == PacketOf(n.pairs, d);
      ParseOfHeader(EnvelopeOf(n.pairs, c), c.msg);
      ParseOfHeader(EnvelopeOf(n.pairs, d), d.msg);
      StepKeepsSerials(n, s);
      SameCall(m, c, d);
      assert false;
    }
  }

  lemma StepKeepsSerials(n: Net, s: Step)
    requires Shape(n) && Serials(n) && Enabled(n, s) && s.Send?
    ensures Serials(Next(n, s)) && CallOf(n, s) !in n.issued
  {
  }

  /** The call was sent by step i, and between then and now its destination executed exactly
      that request with this result. */
  ghost predicate Answered(ns: seq<Net>, steps: seq<Step>, r: Return, i: nat, x: Exec)
    requires IsRun(ns, steps)
  {
    && i < |steps| && steps[i].Send? && Enabled(ns[i], steps[i]) && CallOf(ns[i], steps[i]) == r.call
    && x in ns[|steps|].log && x !in ns[i].log
    && x.packet == PacketOf(ns[i].pairs, r.call) && x.node == ns[i].pairs[r.call.session].remote
    && x.outcome == Outcome(true, r.data)
  }

  /** Every successful call returns the result of an execution of its own request, made after
      the call: never a stale reply. */
  lemma SuccessIsOwnResult(pairs: seq<Pair>, ns: seq<Net>, steps: seq<Step>, r: Return) returns (i: nat, x: Exec)
    requires RunFrom(pairs, ns, steps) && OnePerPair(pairs) && IdsUnused(ns[|steps|])
    requires r in ns[|steps|].returned
    ensures Answered(ns, steps, r, i, x)
  {
    var n := ns[|steps|];
    RunKeepsInv(pairs, ns, steps);
    assert Executed(n, r.call, r.data);
    x :| x in n.log && x.packet == PacketOf(n.pairs, r.call) && x.node == n.pairs[r.call.session].remote
         && x.outcome == Outcome(true, r.data);
    i := IssuedWasSent(pairs, ns, steps, r.call);
    LaterIdsUnused(pairs, ns, steps, i);
    LaterIdsUnused(pairs, ns, steps, i + 1);
    RunPrefix(pairs, ns, steps, i);
    RunKeepsInv(pairs, ns[..i + 1], steps[..i]);
    if x in ns[i].log {
      NewRequestIsNew(ns[i], steps[i], x);
    }
  }

  // One session per pair is needed.

  function SendOf(c: Call): Step { Send(c.session, c.target, c.method_, c.msg, c.cap) }

  function ExecOf(pairs: seq<Pair>, c: Call, o: Outcome): Exec
    requires CallOk(pairs, c)
  {
    Exec(pairs[c.session].remote, PacketOf(pairs, c), HEADER_SIZE + c.cap, o)
  }

  /** Two sessions on one pair, two calls that are not the same. */
  predicate Clash(pairs: seq<Pair>, c: Call, d: Call, o: Outcome) {
    && CallOk(pairs, c) && CallOk(pairs, d) && pairs[c.session] == pairs[d.session] && c.session != d.session
    && Id(c) == Id(d) && c.target != d.target && o.ok && |o.data| <= c.cap && |o.data| <= d.cap
  }

  /** A call takes the reply to another session's call with the same pair and id. */
  lemma TakesOthersReply(pairs: seq<Pair>, c: Call, d: Call, o: Outcome)
    requires Clash(pairs, c, d, o)
    ensures var x := ExecOf(pairs, c, o);
      && Admit(x.node, x.packet, x.room).Some? && ReplyTo(x).Some?
      && Taken(pairs, d, ReplyTo(x).value) == Some(o.data)
  {
    var p, e := pairs[c.session], EnvelopeOf(pairs, c);
    AdmitRequest(p.local, p.remote, Id(c), c.target, c.method_, c.msg, c.cap, HEADER_SIZE + c.cap);
    AcceptAnswer(p.remote, e, o, p.local, p.remote, Id(d), d.cap);
    AcceptedMatches(p.local, p.remote, Id(d), d.target, d.method_, d.msg, d.cap, Answer(p.remote, e, o).value);
  }

  lemma Extend(pairs: seq<Pair>, ns: seq<Net>, steps: seq<Step>, s: Step) returns (ns': seq<Net>, steps': seq<Step>)
    requires RunFrom(pairs, ns, steps) && Enabled(ns[|steps|], s)
    ensures |steps'| == |steps| + 1 && RunFrom(pairs, ns', steps') && ns'[|steps'|] == Next(ns[|steps|], s)
  {
    ns', steps' := ns + [Next(ns[|steps|], s)], steps + [s];
    forall i | 0 <= i < |steps'|
      ensures IsStep(ns'[i], steps'[i], ns'[i + 1])
    {
      if i < |steps| {
        assert IsStep(ns[i], steps[i], ns[i + 1]);
      }
    }
  }

  lemma BothSent(pairs: seq<Pair>, c: Call, d: Call) returns (ns: seq<Net>, steps: seq<Step>)
    requires CallOk(pairs, c) && CallOk(pairs, d) && c.session != d.session && c.serial == d.serial == 0
    ensures RunFrom(pairs, ns, steps)
    ensures var n := ns[|steps|];
      n.pairs == pairs && d in n.open && n.log == {} && PacketOf(pairs, c) in n.wire && IdsUnused(n)
  {
    ns, steps := Extend(pairs, [Start(pairs)], [], SendOf(c));
    ns, steps := Extend(pairs, ns, steps, SendOf(d));
  }

  /** Both calls sent, the first executed; the second has not returned yet. */
  lemma ClashRun(pairs: seq<Pair>, c: Call, d: Call, o: Outcome) returns (ns: seq<Net>, steps: seq<Step>)
    requires Clash(pairs, c, d, o) && c.serial == d.serial == 0
    ensures RunFrom(pairs, ns, steps)
    ensures var n, x := ns[|steps|], ExecOf(pairs, c, o);
      && n.pairs == pairs && d in n.open && n.log == {x} && IdsUnused(n)
      && ReplyTo(x).Some? && ReplyTo(x).value in n.wire
  {
    TakesOthersReply(pairs, c, d, o);
    ns, steps := BothSent(pairs, c, d);
    ns, steps := Extend(pairs, ns, steps, Execute(ExecOf(pairs, c, o)));
  }

  /** Then the second session takes the reply to the first. */
  lemma SharedPairConfuses(pairs: seq<Pair>, c: Call, d: Call, o: Outcome) returns (ns: seq<Net>, steps: seq<Step>)
    requires Clash(pairs, c, d, o) && c.serial == d.serial == 0
    ensures RunFrom(pairs, ns, steps) && IdsUnused(ns[|steps|]) && !Faithful(ns[|steps|])
  {
    var x := ExecOf(pairs, c, o);
    TakesOthersReply(pairs, c, d, o);
    ns, steps := ClashRun(pairs, c, d, o);
    ns, steps := Extend(pairs, ns, steps, Receive(d, ReplyTo(x).value));
    NotExecuted(ns[|steps|], c, d, x);
    assert Return(d, o.data) in ns[|steps|].returned;
  }

  lemma NotExecuted(n: Net, c: Call, d: Call, x: Exec)
    requires Shape(n) && CallOk(n.pairs, c) && CallOk(n.pairs, d) && c.target != d.target
    requires n.log == {x} && x.packet == PacketOf(n.pairs, c)
    ensures forall data :: !Executed(n, d, data)
  {
    ParseOfHeader(EnvelopeOf(n.pairs, c), c.msg);
    ParseOfHeader(EnvelopeOf(n.pairs, d), d.msg);
  }

  ghost predicate AlwaysFaithful(pairs: seq<Pair>) {
    forall ns: seq<Net>, steps: seq<Step> ::
      RunFrom(pairs, ns, steps) && IdsUnused(ns[|steps|]) ==> Faithful(ns[|steps|])
  }

  /** Callers get their own results in every run exactly when no two sessions share a pair. */
  lemma FaithfulIffOnePerPair(pairs: seq<Pair>)
    ensures AlwaysFaithful(pairs) <==> OnePerPair(pairs)
  {
    if OnePerPair(pairs) {
      forall ns: seq<Net>, steps: seq<Step> | RunFrom(pairs, ns, steps) && IdsUnused(ns[|steps|])
        ensures Faithful(ns[|steps|])
      {
        RunKeepsInv(pairs, ns, steps);
      }
    } else {
      var a, b :| 0 <= a < b < |pairs| && pairs[a] == pairs[b];
      var c, d, o := Call(a, 0, 1, 0, [], 0), Call(b, 0, 2, 0, [], 0), Outcome(true, []);
      assert Clash(pairs, c, d, o);
      var ns, steps := SharedPairConfuses(pairs, c, d, o);
    }
  }
}
