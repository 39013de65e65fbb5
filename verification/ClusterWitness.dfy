/** Runs from boot on which the cluster scheduler's exceptions actually happen. */
module ClusterWitness {
  import opened Words
  import opened ClusterState
  import opened ClusterInvariant
  import opened ClusterRuns
  import opened ClusterDispatch
  import opened ClusterHistory
  import CM = ClusterMemory
  import MM = MemoryManager

  // ---------------------------------------------------------------- building runs

  datatype Trace = Trace(first: State, ss: seq<State>, ops: seq<Op>)

  const WINDOW := MM.Window(0x1000, 0x2000)

  ghost predicate Legal(t: Trace) { IsRun(t.ss, WINDOW, t.ops) && t.ss[0] == t.first }

  ghost function Last(t: Trace): State
    requires Legal(t)
  {
    t.ss[|t.ops|]
  }

  lemma Extend(t: Trace, op: Op) returns (t': Trace)
    requires Legal(t) && Inv(Last(t)) && Enabled(Last(t), WINDOW, op)
    ensures Legal(t') && t'.first == t.first && t'.ops == t.ops + [op]
    ensures Last(t') == Next(Last(t), op) && Inv(Last(t'))
  {
    StepKeepsInv(Last(t), WINDOW, op);
    t' := t.(ss := t.ss + [Next(Last(t), op)], ops := t.ops + [op]);
  }

  // ---------------------------------------------------------------- small job tables

  /** The job table is js and then empty. */
  ghost predicate Rows(s: State, js: seq<JobSlot>) {
    && |s.jobs| == MAX_JOBS && |js| <= MAX_JOBS
    && (forall i :: 0 <= i < |js| ==> s.jobs[i] == js[i] && js[i].used)
    && (forall i :: |js| <= i < MAX_JOBS ==> !s.jobs[i].used)
  }

  lemma SubmitAdds(s: State, js: seq<JobSlot>, q: JobSpec, h: u64)
    requires Rows(s, js) && |js| < MAX_JOBS && h != 0
    ensures var s' := SubmitJob(s, q, h).0;
            Rows(s', js + [JobSlot(true, h, NewJob(q))]) && s' == s.(jobs := s'.jobs, minted := s.minted + {h})
  {
    assert !s.jobs[|js|].used;
    assert FreeJobSlot(s.jobs, 0) == Some(|js|);
  }

  /** The only job a node may have is the one it gets. */
  lemma GetNextOnly(s: State, js: seq<JobSlot>, node: u64, k: nat)
    requires Rows(s, js) && k < |js| && Considered(s, node, k) && !js[k].job.blocked
    requires forall i :: 0 <= i < |js| && i != k ==> !Considered(s, node, i)
    ensures GetNextJob(s, node) == (Dispatch(s, node, k), k)
  {
    assert Ready(s, node, k);
    GetNextIsMaximal(s, node);
    GetNextParts(s, node);
    assert Scanned(s, node).jobs == s.jobs;
    var c := GetNextJob(s, node).1;
    assert c >= 0 && Considered(s, node, c);
  }

  function Dispatched(e: JobSlot, node: u64, bound: u64): JobSlot {
    e.(job := e.job.(dispatched := true, bound := bound,
                     assignedNode := if e.job.assignedNode == NODE_ANY then node else e.job.assignedNode))
  }

  /** Dispatching a job that asks for no resource, or for a free one by its handle. */
  lemma DispatchRows(s: State, js: seq<JobSlot>, node: u64, k: nat)
    requires Rows(s, js) && k < |js| && js[k].job.bound == 0
    requires js[k].job.resourceId == 0 ==> js[k].job.resourceKind == KIND_NONE
    requires js[k].job.resourceId != 0 ==>
               js[k].job.resourceId in s.resources && s.resources[js[k].job.resourceId].reservedBy == 0
    ensures var s', r := Dispatch(s, node, k), js[k].job.resourceId;
            && Rows(s', js[k := Dispatched(js[k], node, r)])
            && s' == s.(jobs := s'.jobs, resources := s'.resources)
            && s'.resources ==
               if r == 0 then s.resources else s.resources[r := s.resources[r].(reservedBy := js[k].handle)]
  {
  }

  /** A job for any node; resource 0 means none. */
  function AnyNode(priority: u64, resource: u64): JobSpec {
    JobSpec(NODE_ANY, 0, 0, 0, priority, resource, KIND_NONE, 0)
  }

  function Waiting(h: u64, priority: u64, resource: u64): JobSlot {
    JobSlot(true, h, NewJob(AnyNode(priority, resource)))
  }

  // ---------------------------------------------------------------- steps of a run

  /** By these calls the run has reached s, whose job table is js. */
  ghost predicate At(t: Trace, first: State, ops: seq<Op>, s: State, js: seq<JobSlot>) {
    Legal(t) && t.first == first && t.ops == ops && s == Last(t) && Inv(s) && Rows(s, js)
  }

  /** Boot with an empty claim table and pool resource 1. */
  function Booted(): State { Boot(WINDOW, [], 1) }

  /** What the runs below need to know about it. */
  ghost predicate Empty(s: State) {
    && s.minted == {1} && s.pool == 1 && s.claims == [] && s.resources == map[1 := PoolResource(WINDOW)]
    && s.resourceNext == 1 && s.nodeNext == 0 && (forall node :: FindNode(s.nodes, node, 0).None?)
    && forall m :: 0 <= m < |s.mutexes| ==> !s.mutexes[m].locked
  }

  lemma AtBoot() returns (t: Trace, s: State)
    ensures At(t, Booted(), [], s, []) && Empty(s)
  {
    BootKeepsInv(WINDOW, [], 1);
    s := Booted();
    t := Trace(s, [s], []);
  }

  lemma DoSubmit(t: Trace, first: State, ops: seq<Op>, s: State, js: seq<JobSlot>, priority: u64, resource: u64, h: u64)
    returns (t': Trace, s': State)
    requires At(t, first, ops, s, js) && |js| < MAX_JOBS && h != 0 && h !in s.minted
    ensures At(t', first, ops + [Submit(AnyNode(priority, resource), h)], s', js + [Waiting(h, priority, resource)])
    ensures s' == s.(jobs := s'.jobs, minted := s.minted + {h})
  {
    SubmitAdds(s, js, AnyNode(priority, resource), h);
    t' := Extend(t, Submit(AnyNode(priority, resource), h));
    s' := Last(t');
  }

  lemma DoGetNext(t: Trace, first: State, ops: seq<Op>, s: State, js: seq<JobSlot>, node: u64, k: nat)
    returns (t': Trace, s': State)
    requires At(t, first, ops, s, js) && k < |js| && Considered(s, node, k) && !js[k].job.blocked
             && js[k].job.bound == 0
    requires forall i :: 0 <= i < |js| && i != k ==> !Considered(s, node, i)
    requires js[k].job.resourceId == 0 ==> js[k].job.resourceKind == KIND_NONE
    requires js[k].job.resourceId != 0 ==>
               js[k].job.resourceId in s.resources && s.resources[js[k].job.resourceId].reservedBy == 0
    ensures var r := js[k].job.resourceId;
            && At(t', first, ops + [GetNext(node)], s', js[k := Dispatched(js[k], node, r)])
            && s' == s.(jobs := s'.jobs, resources := s'.resources)
            && s'.resources ==
               if r == 0 then s.resources else s.resources[r := s.resources[r].(reservedBy := js[k].handle)]
  {
    GetNextOnly(s, js, node, k);
    DispatchRows(s, js, node, k);
    t' := Extend(t, GetNext(node));
    s' := Last(t');
  }

  lemma DoJoin(t: Trace, first: State, ops: seq<Op>, s: State, js: seq<JobSlot>, node: u64, h: u64)
    returns (t': Trace, s': State)
    requires At(t, first, ops, s, js) && h != 0 && h !in s.minted && FindNode(s.nodes, node, 0).None?
             && s.nodeNext < MAX_NODES
    ensures At(t', first, ops + [Join(node, h)], s', js) && FindNode(s'.nodes, node, 0).Some?
    ensures s' == s.(nodes := s'.nodes, nodeNext := s'.nodeNext, minted := s.minted + {h})
  {
    assert !s.nodes[s.nodeNext].used;
    var i := FreeNode(s.nodes, 0).value;
    t' := Extend(t, Join(node, h));
    s' := Last(t');
    assert s'.nodes[i].used && s'.nodes[i].nodeId == node;
  }

  lemma DoDeclare(t: Trace, first: State, ops: seq<Op>, s: State, js: seq<JobSlot>, node: u64, h: u64)
    returns (t': Trace, s': State)
    requires At(t, first, ops, s, js) && h != 0 && h !in s.minted && s.resourceNext < MAX_RESOURCES
    ensures At(t', first, ops + [Declare(node, 7, 0, 0, 0, h)], s', js)
    ensures s'.resources == s.resources[h := Resource(node, 7, 0, 0, 0, 0)] && s'.minted == s.minted + {h}
    ensures s' == s.(resources := s'.resources, index := s'.index, resourceNext := s'.resourceNext, minted := s'.minted)
  {
    t' := Extend(t, Declare(node, 7, 0, 0, 0, h));
    s' := Last(t');
  }

  // ---------------------------------------------------------------- LEAVE_NODE

  lemma DoLeave(t: Trace, first: State, ops: seq<Op>, s: State, e: JobSlot) returns (t': Trace, s': State)
    requires At(t, first, ops, s, [e]) && e.job.affinity == NODE_ANY && e.job.assignedNode == 1
             && FindNode(s.nodes, 1, 0).Some?
    ensures At(t', first, ops + [Leave(1)], s', [e.(job := e.job.(assignedNode := NODE_ANY))])
    ensures forall r :: r in s'.resources <==> r in s.resources && s.resources[r].owner != 1
  {
    LeaveSweeps(s, 1);
    t' := Extend(t, Leave(1));
    s' := Last(t');
    assert forall i :: 0 <= i < |s.jobs| ==> JobSwept(s.jobs[i], s'.jobs[i], 1);
  }

  lemma NobodyGets(s: State, e: JobSlot)
    requires Rows(s, [e]) && (e.job.dispatched || (e.job.bound != 0 && e.job.bound !in s.resources))
    ensures forall node :: GetNextJob(s, node).1 == -1
  {
    forall node
      ensures GetNextJob(s, node).1 == -1
    {
      GetNextIsMaximal(s, node);
      assert forall i :: 0 <= i < |s.jobs| ==> !Considered(s, node, i);
    }
  }

  lemma LeaveRun(t0: Trace, first: State, s0: State) returns (t: Trace, s: State)
    requires At(t0, first, [], s0, []) && Empty(s0)
    ensures At(t, first, [Join(1, 2), Submit(AnyNode(0, 0), 3), GetNext(1), Leave(1)], s,
               [Waiting(3, 0, 0).(job := Waiting(3, 0, 0).job.(dispatched := true))])
  {
    t, s := DoJoin(t0, first, [], s0, [], 1, 2);
    t, s := DoSubmit(t, first, [Join(1, 2)], s, [], 0, 0, 3);
    var e := Waiting(3, 0, 0);
    t, s := DoGetNext(t, first, [Join(1, 2), Submit(AnyNode(0, 0), 3)], s, [e], 1, 0);
    t, s := DoLeave(t, first, [Join(1, 2), Submit(AnyNode(0, 0), 3), GetNext(1)], s, Dispatched(e, 1, 0));
  }

  /** Taken by node 1, which then leaves, a job for any node is offered to none, though
      nothing blocks it. */
  lemma LeaveStrandsDispatched() returns (t: Trace, s: State)
    ensures At(t, Booted(), [Join(1, 2), Submit(AnyNode(0, 0), 3), GetNext(1), Leave(1)], s,
               [Waiting(3, 0, 0).(job := Waiting(3, 0, 0).job.(dispatched := true))])
    ensures forall node :: GetNextJob(s, node).1 == -1
  {
    t, s := AtBoot();
    t, s := LeaveRun(t, Booted(), s);
    NobodyGets(s, Waiting(3, 0, 0).(job := Waiting(3, 0, 0).job.(dispatched := true)));
  }

  lemma DoYield(t: Trace, first: State, ops: seq<Op>, s: State, e: JobSlot) returns (t': Trace, s': State)
    requires At(t, first, ops, s, [e])
    ensures At(t', first, ops + [Report(e.handle, Running, 0, 0)], s', [e.(job := e.job.(dispatched := false))])
    ensures s' == s.(jobs := s'.jobs)
  {
    assert SlotOk(s, s.jobs[0]);
    FindLive(s.jobs, 0);
    t' := Extend(t, Report(e.handle, Running, 0, 0));
    s' := Last(t');
  }

  function BoundRun(): seq<Op> {
    [Join(1, 2), Declare(1, 7, 0, 0, 0, 3), Submit(AnyNode(0, 3), 4), GetNext(1), Report(4, Running, 0, 0), Leave(1)]
  }

  lemma OfferRun(t0: Trace, first: State, s0: State) returns (t: Trace, s: State)
    requires At(t0, first, [], s0, []) && Empty(s0)
    ensures At(t, first, BoundRun()[..3], s, [Waiting(4, 0, 3)])
    ensures 3 in s.resources && s.resources[3] == Resource(1, 7, 0, 0, 0, 0) && FindNode(s.nodes, 1, 0).Some?
  {
    var b := BoundRun();
    t, s := DoJoin(t0, first, [], s0, [], 1, 2);
    t, s := DoDeclare(t, first, b[..1], s, [], 1, 3);
    t, s := DoSubmit(t, first, b[..2], s, [], 0, 3, 4);
  }

  lemma BindRun(t0: Trace, first: State, s0: State) returns (t: Trace, s: State)
    requires At(t0, first, [], s0, []) && Empty(s0)
    ensures At(t, first, BoundRun()[..4], s, [Dispatched(Waiting(4, 0, 3), 1, 3)])
    ensures 3 in s.resources && s.resources[3].owner == 1 && FindNode(s.nodes, 1, 0).Some?
  {
    t, s := OfferRun(t0, first, s0);
    t, s := DoGetNext(t, first, BoundRun()[..3], s, [Waiting(4, 0, 3)], 1, 0);
  }

  lemma BoundLeaveRun(t0: Trace, first: State, s0: State) returns (t: Trace, s: State)
    requires At(t0, first, [], s0, []) && Empty(s0)
    ensures At(t, first, BoundRun(), s, [Waiting(4, 0, 3).(job := Waiting(4, 0, 3).job.(bound := 3))])
    ensures 3 !in s.resources
  {
    var e, b := Waiting(4, 0, 3), BoundRun();
    t, s := BindRun(t0, first, s0);
    t, s := DoYield(t, first, b[..4], s, Dispatched(e, 1, 3));
    t, s := DoLeave(t, first, b[..5], s, e.(job := e.job.(bound := 3, assignedNode := 1)));
  }

  /** Bound to a resource of node 1 and given back undispatched, it is offered to none once
      node 1 has left. */
  lemma LeaveStrandsBoundJob() returns (t: Trace, s: State)
    ensures At(t, Booted(), BoundRun(), s, [Waiting(4, 0, 3).(job := Waiting(4, 0, 3).job.(bound := 3))])
    ensures forall node :: GetNextJob(s, node).1 == -1
  {
    t, s := AtBoot();
    t, s := BoundLeaveRun(t, Booted(), s);
    NobodyGets(s, Waiting(4, 0, 3).(job := Waiting(4, 0, 3).job.(bound := 3)));
  }

  // ---------------------------------------------------------------- an outside RELEASE

  /** Somebody releases resource 3 on behalf of job 4, then a job that asks for resource 3
      is submitted as 5 and node 1 asks for work. */
  ghost function AfterOutsideRelease(s: State): (State, int)
    requires |s.completions| == MAX_JOBS
  {
    GetNextJob(SubmitJob(Next(s, ReleaseDirect(3, 4)), AnyNode(0, 3), 5).0, 1)
  }

  /** With resource 3 free again, the newcomer is bound to it too. */
  lemma SecondBinds(s: State, e: JobSlot)
    requires Rows(s, [e]) && e.job.dispatched && 3 in s.resources && s.resources[3].reservedBy == 0
    ensures var r := GetNextJob(SubmitJob(s, AnyNode(0, 3), 5).0, 1);
            r.1 == 1 && Rows(r.0, [e, Dispatched(Waiting(5, 0, 3), 1, 3)]) && 3 in r.0.resources
  {
    SubmitAdds(s, [e], AnyNode(0, 3), 5);
    var s1, js := SubmitJob(s, AnyNode(0, 3), 5).0, [e, Waiting(5, 0, 3)];
    assert [e] + [Waiting(5, 0, 3)] == js;
    GetNextOnly(s1, js, 1, 1);
    DispatchRows(s1, js, 1, 1);
    assert js[1 := Dispatched(js[1], 1, 3)] == [e, Dispatched(Waiting(5, 0, 3), 1, 3)];
  }

  lemma ReleaseAndRebind(s: State, e: JobSlot)
    requires |s.completions| == MAX_JOBS
    requires Rows(s, [e]) && e.job.dispatched && e.job.bound == 3 && e.handle == 4
    requires 3 in s.resources && s.resources[3].reservedBy == 4
    ensures var r := AfterOutsideRelease(s);
            r.1 == 1 && Rows(r.0, [e, Dispatched(Waiting(5, 0, 3), 1, 3)]) && 3 in r.0.resources
  {
    SecondBinds(Next(s, ReleaseDirect(3, 4)), e);
  }

  lemma ReboundOnceReleased(s: State, e: JobSlot)
    requires Inv(s) && Rows(s, [e]) && e.job.dispatched && e.job.bound == 3 && e.handle == 4 && 3 in s.resources
    ensures BoundThrough(s, 3, 4)
    ensures var s' := AfterOutsideRelease(s).0;
            && |s'.jobs| == MAX_JOBS && s'.jobs[0].used && s'.jobs[1].used
            && s'.jobs[0].job.bound == s'.jobs[1].job.bound == 3 && 3 in s'.resources
  {
    assert s.jobs[0] == e && SlotOk(s, e);
    ReleaseAndRebind(s, e);
  }

  /** From a run that binds job 4 to resource 3, an outside release leads to two live jobs
      bound to one live resource. */
  lemma OutsideReleaseDoubleBinds() returns (t: Trace, s: State)
    ensures At(t, Booted(), BoundRun()[..4], s, [Dispatched(Waiting(4, 0, 3), 1, 3)]) && BoundThrough(s, 3, 4)
    ensures var s' := AfterOutsideRelease(s).0;
            && |s'.jobs| == MAX_JOBS && s'.jobs[0].used && s'.jobs[1].used
            && s'.jobs[0].job.bound == s'.jobs[1].job.bound == 3 && 3 in s'.resources
  {
    t, s := AtBoot();
    t, s := BindRun(t, Booted(), s);
    ReboundOnceReleased(s, Dispatched(Waiting(4, 0, 3), 1, 3));
  }

  // ---------------------------------------------------------------- releasing the pool

  const SLICE := Allocate(1, 0, 0x100, 0, 0, 2, Some(0x1000))

  lemma FirstSlice(t0: Trace, first: State, s0: State) returns (t: Trace, s: State)
    requires At(t0, first, [], s0, []) && Empty(s0) && CM.MemoryOk(s0)
    ensures At(t, first, [SLICE], s, []) && CM.MemoryOk(s) && s.pool == 1
    ensures s.claims == [MM.Claim(0x1000, 0x100, 0, true)]
    ensures s.resources == map[1 := PoolResource(WINDOW), 2 := Resource(1, KIND_MEMORY, 0x1000, 0x100, 0, 0)]
  {
    assert MM.Answers(s0.claims, WINDOW, 0x100, Some(0x1000));
    CM.StepKeepsMemory(s0, WINDOW, SLICE);
    t := Extend(t0, SLICE);
    s := Last(t);
  }

  lemma SliceUnclaimed(s: State)
    requires Inv(s) && CM.MemoryOk(s) && s.pool == 1 && s.claims == [MM.Claim(0x1000, 0x100, 0, true)]
    requires s.resources == map[1 := PoolResource(WINDOW), 2 := Resource(1, KIND_MEMORY, 0x1000, 0x100, 0, 0)]
    ensures CM.IsSlice(s, 2) && ReleaseSlice(s, s.pool, 0).1 && !CM.MemoryOk(ReleaseSlice(s, s.pool, 0).0)
  {
    CM.PoolReleaseIsSafeIff(s, 0);
  }

  /** The first slice sits at the pool's base; anyone may release the pool resource, and then
      the slice has no claim. */
  lemma PoolReleaseBreaksSlice() returns (t: Trace, s: State)
    ensures At(t, Booted(), [SLICE], s, []) && CM.MemoryOk(s) && CM.IsSlice(s, 2)
    ensures ReleaseSlice(s, s.pool, 0).1 && !CM.MemoryOk(ReleaseSlice(s, s.pool, 0).0)
  {
    t, s := AtBoot();
    CM.BootKeepsMemory(WINDOW, [], 1);
    t, s := FirstSlice(t, Booted(), s);
    SliceUnclaimed(s);
  }

  // ---------------------------------------------------------------- inheritance lost

  lemma DoTake(t: Trace, first: State, ops: seq<Op>, s: State, js: seq<JobSlot>, m: u64, h: u64)
    returns (t': Trace, s': State)
    requires At(t, first, ops, s, js) && m < MAX_MUTEXES && !s.mutexes[m].locked
    ensures At(t', first, ops + [Lock(m, h)], s', js) && s' == s.(mutexes := s.mutexes[m := Mutex(true, h)])
  {
    t' := Extend(t, Lock(m, h));
    s' := Last(t');
  }

  function Raised(e: JobSlot, priority: int): JobSlot { e.(job := e.job.(effectivePriority := priority)) }

  function Low(): JobSlot { Waiting(2, 1, 0) }

  function High(): JobSlot { Waiting(3, 5, 0) }

  /** Job 2, of priority 1, holds mutexes 0 and 1. */
  function HoldRun(): seq<Op> { [Submit(AnyNode(1, 0), 2), Submit(AnyNode(5, 0), 3), Lock(0, 2), Lock(1, 2)] }

  lemma TakeBoth(t0: Trace, first: State, s0: State) returns (t: Trace, s: State)
    requires At(t0, first, [], s0, []) && Empty(s0)
    ensures At(t, first, HoldRun(), s, [Low(), High()]) && Holds(s, 0, 2) && Holds(s, 1, 2)
  {
    var b := HoldRun();
    t, s := DoSubmit(t0, first, [], s0, [], 1, 0, 2);
    t, s := DoSubmit(t, first, b[..1], s, [Low()], 5, 0, 3);
    t, s := DoTake(t, first, b[..2], s, [Low(), High()], 0, 2);
    t, s := DoTake(t, first, b[..3], s, [Low(), High()], 1, 2);
  }

  lemma Contend(t0: Trace, first: State, s0: State) returns (t: Trace, s: State)
    requires At(t0, first, HoldRun(), s0, [Low(), High()]) && Holds(s0, 0, 2) && Holds(s0, 1, 2)
    ensures At(t, first, HoldRun() + [Lock(1, 3)], s, [Raised(Low(), 5), High()]) && s == s0.(jobs := s.jobs)
  {
    assert s0.jobs[0] == Low() && s0.jobs[1] == High();
    FindLive(s0.jobs, 0);
    FindLive(s0.jobs, 1);
    t := Extend(t0, Lock(1, 3));
    s := Last(t);
  }

  lemma GiveUpFirst(t0: Trace, first: State, s0: State) returns (t: Trace, s: State)
    requires At(t0, first, HoldRun() + [Lock(1, 3)], s0, [Raised(Low(), 5), High()]) && Holds(s0, 0, 2)
             && Holds(s0, 1, 2)
    ensures At(t, first, HoldRun() + [Lock(1, 3)] + [Unlocking(0, 2)], s, [Low(), High()]) && Holds(s, 1, 2)
  {
    assert s0.jobs[0] == Raised(Low(), 5);
    FindLive(s0.jobs, 0);
    t := Extend(t0, Unlocking(0, 2));
    s := Last(t);
  }

  /** Still holding mutex 1, for which job 3 of priority 5 waits, job 2 is back at priority 1. */
  lemma FirstUnlockDropsBoost() returns (t: Trace, s: State)
    ensures At(t, Booted(), HoldRun() + [Lock(1, 3)] + [Unlocking(0, 2)], s, [Low(), High()])
    ensures Holds(s, 1, 2) && s.jobs[0].job.effectivePriority < s.jobs[1].job.effectivePriority
  {
    t, s := AtBoot();
    t, s := TakeBoth(t, Booted(), s);
    t, s := Contend(t, Booted(), s);
    t, s := GiveUpFirst(t, Booted(), s);
  }
}
