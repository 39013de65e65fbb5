/** LEAVE_NODE and the jobs it releases: when such a job really is back in the pool, and what
    becomes of the others. */
module ClusterLeave {
  import opened Words
  import opened ClusterState
  import opened ClusterInvariant
  import opened ClusterRuns
  import opened ClusterHistory
  import opened ClusterDispatch
  import CM = ClusterMemory
  import MM = MemoryManager

  // ---------------------------------------------------------------- what the job needs

  /** r is still there once the node has left. */
  ghost predicate Survives(s: State, node: u64, r: u64) { r in s.resources && s.resources[r].owner != node }

  /** ... and free, because it was or because a cancelled job gives it back. */
  ghost predicate FreeAfter(s: State, node: u64, r: u64) {
    Survives(s, node, r) && (s.resources[r].reservedBy == 0 || GivesBack(s, node, r))
  }

  /** What the job asked for can be had once the node has left. */
  ghost predicate Obtainable(s: State, node: u64, j: Job) {
    if j.bound != 0 then Survives(s, node, j.bound)
    else if j.resourceId != 0 then FreeAfter(s, node, j.resourceId)
    else j.resourceKind == KIND_NONE || exists r :: FreeAfter(s, node, r) && Serves(s, j, r)
  }

  ghost predicate Serves(s: State, j: Job, r: u64) {
    r in s.resources && s.resources[r].kind == j.resourceKind && s.resources[r].capacity >= j.minCapacity
  }

  /** The discovery index shows exactly the live resources, so the kind scan may be read off
      the resources. */
  lemma MatchIsResource(s: State, j: Job)
    requires Inv(s)
    ensures (exists i :: 0 <= i < |s.index| && Matches(s, j, i)) <==>
            exists r :: Serves(s, j, r) && s.resources[r].reservedBy == 0
  {
    if i :| 0 <= i < |s.index| && Matches(s, j, i) {
      assert EntryOk(s.index[i], s.resources);
      assert Serves(s, j, s.index[i].handle);
    }
    if r :| Serves(s, j, r) && s.resources[r].reservedBy == 0 {
      assert Indexed(s.index, r);
      var i :| 0 <= i < |s.index| && s.index[i].used && s.index[i].handle == r;
      assert EntryOk(s.index[i], s.resources);
      assert Matches(s, j, i);
    }
  }

  ghost predicate Leaving(s: State, node: u64) { Inv(s) && node != NODE_ANY && FindNode(s.nodes, node, 0).Some? }

  lemma SurvivesIff(s: State, node: u64, r: u64)
    requires Leaving(s, node)
    ensures r in LeaveNode(s, node).resources <==> Survives(s, node, r)
    ensures Survives(s, node, r) ==>
              && LeaveNode(s, node).resources[r].kind == s.resources[r].kind
              && LeaveNode(s, node).resources[r].capacity == s.resources[r].capacity
              && (LeaveNode(s, node).resources[r].reservedBy == 0 <==> FreeAfter(s, node, r))
  {
    LeaveSweeps(s, node);
    if Survives(s, node, r) { LeaveGivesBack(s, node, r); }
  }

  lemma KindLeftIff(s: State, node: u64, j: Job)
    requires Leaving(s, node)
    ensures var s' := LeaveNode(s, node);
            (exists r :: Serves(s', j, r) && s'.resources[r].reservedBy == 0) <==>
            exists r :: FreeAfter(s, node, r) && Serves(s, j, r)
  {
    var s' := LeaveNode(s, node);
    if r :| Serves(s', j, r) && s'.resources[r].reservedBy == 0 {
      SurvivesIff(s, node, r);
      assert FreeAfter(s, node, r) && Serves(s, j, r);
    }
    if r :| FreeAfter(s, node, r) && Serves(s, j, r) {
      SurvivesIff(s, node, r);
      assert Serves(s', j, r) && s'.resources[r].reservedBy == 0;
    }
  }

  /** The resource test after the departure, on the state before it. */
  lemma ResourceLeftIff(s: State, node: u64, i: nat)
    requires Leaving(s, node) && i < |s.jobs| && s.jobs[i].used && s.jobs[i].job.affinity != node
    ensures ResourceOk(LeaveNode(s, node), s.jobs[i].handle, s.jobs[i].job) <==> Obtainable(s, node, s.jobs[i].job)
  {
    var s', j := LeaveNode(s, node), s.jobs[i].job;
    KeepLeave(s, node);
    assert SlotOk(s, s.jobs[i]);
    LeaveSweeps(s, node);
    assert JobSwept(s.jobs[i], s'.jobs[i], node) && SlotOk(s', s'.jobs[i]);
    SurvivesIff(s, node, j.bound);
    SurvivesIff(s, node, j.resourceId);
    MatchIsResource(s', j);
    KindLeftIff(s, node, j);
  }

  // ---------------------------------------------------------------- back in the pool

  /** Any node that asks is offered the job, subject to its block and its rank. */
  ghost predicate InPool(s: State, i: nat) { i < |s.jobs| && forall m: u64 :: Considered(s, m, i) }

  /** LEAVE_NODE releases a job that is open to any node and was assigned to the leaving one.
      It is back in the pool exactly when it was not dispatched and what it needs can still
      be had: for a bound job, when its resource did not belong to the node. */
  lemma ReleasedJobIsInPoolIff(s: State, node: u64, i: nat)
    requires Leaving(s, node) && i < |s.jobs| && s.jobs[i].used
    requires s.jobs[i].job.affinity == NODE_ANY && s.jobs[i].job.assignedNode == node
    ensures InPool(LeaveNode(s, node), i) <==> !s.jobs[i].job.dispatched && Obtainable(s, node, s.jobs[i].job)
  {
    var s' := LeaveNode(s, node);
    LeaveSweeps(s, node);
    assert JobSwept(s.jobs[i], s'.jobs[i], node);
    ResourceLeftIff(s, node, i);
    assert s'.jobs[i].job == s.jobs[i].job.(assignedNode := NODE_ANY);
    assert ResourceOk(s', s'.jobs[i].handle, s'.jobs[i].job) == ResourceOk(s', s.jobs[i].handle, s.jobs[i].job) by {
      ResourceOkFrame(s', s', s.jobs[i].handle, s.jobs[i].job, s'.jobs[i].job);
    }
    assert InPool(s', i) ==> Considered(s', 0, i);
  }

  // ---------------------------------------------------------------- stranded for good

  /** r was a resource and is one no longer. */
  ghost predicate Retired(s: State, r: u64) { r in s.minted && r !in s.resources }

  lemma LeaveKeepsRetired(s: State, node: u64, r: u64)
    requires Inv(s) && Retired(s, r)
    ensures Retired(LeaveNode(s, node), r)
  {
    match FindNode(s.nodes, node, 0)
    case None =>
    case Some(i) =>
      var s1 := s.(nodes := s.nodes[i := s.nodes[i].(used := false)]);
      CM.SweepShrinks(s1, node, |s1.index|);
      var s2 := SweepResources(s1, node, |s1.index|);
      CM.JobSweepShrinks(s2, node, |s2.jobs|);
  }

  lemma CreateKeepsRetired(s: State, h: u64, rd: Resource, r: u64)
    requires Fresh(s, h) && Retired(s, r)
    ensures Retired(CreateResource(s, h, rd).0, r)
  {
  }

  lemma CreatingStepKeepsRetired(s: State, w: MM.Window, op: Op, r: u64)
    requires Inv(s) && Enabled(s, w, op) && Retired(s, r) && (op.Request? || op.Declare? || op.Allocate?)
    ensures Retired(Next(s, op), r)
  {
    match op
    case Request(n, b, z, k, y, h) =>
      CreateKeepsRetired(s.(claims := MM.Claimed(s.claims, b, z, k)), h, Resource(n, KIND_MEMORY, b, z, 0, y), r);
    case Declare(n, k, d, c, y, h) => CreateKeepsRetired(s, h, Resource(n, k, d, c, 0, y), r);
    case Allocate(n, j, z, k, y, h, p) =>
      if p.Some? {
        var s1 := s.(claims := s.claims + [MM.Claim(p.value, z, k, true)]);
        CreateKeepsRetired(s1, h, Resource(n, KIND_MEMORY, p.value, z, j, y), r);
      }
  }

  lemma ReportKeepsRetired(s: State, h: u64, result: JobResult, blockId: u64, value: u64, r: u64)
    requires Inv(s) && Retired(s, r)
    ensures Retired(ReportJobResult(s, h, result, blockId, value), r)
  {
  }

  /** No step brings a retired resource back: a new one always has a new handle. */
  lemma RetiredStep(s: State, w: MM.Window, op: Op, r: u64)
    requires Inv(s) && Enabled(s, w, op) && Retired(s, r)
    ensures Retired(Next(s, op), r)
  {
    if op.Leave? {
      LeaveKeepsRetired(s, op.node, r);
    } else if op.GetNext? {
      GetNextParts(s, op.node);
    } else if op.Report? {
      ReportKeepsRetired(s, op.job, op.result, op.blockId, op.value, r);
    } else if op.Request? || op.Declare? || op.Allocate? {
      CreatingStepKeepsRetired(s, w, op, r);
    } else {
      StepMints(s, op);
    }
  }

  lemma {:induction false} RetiredForGood(ss: seq<State>, w: MM.Window, ops: seq<Op>, a: nat, b: nat, r: u64)
    requires IsRun(ss, w, ops) && a <= b < |ss| && Retired(ss[a], r)
    ensures Retired(ss[b], r)
    decreases b - a
  {
    if a < b {
      RetiredForGood(ss, w, ops, a, b - 1, r);
      RunKeepsInv(ss, w, ops, b - 1);
      RetiredStep(ss[b - 1], w, ops[b - 1], r);
    }
  }

  /** A job whose bound resource is gone is handed to nobody any more, whatever is reported
      on it: its binding is permanent and the resource does not come back. */
  lemma UnboundNeverHandedOut(ss: seq<State>, w: MM.Window, ops: seq<Op>, a: nat, b: nat, i: nat, k: nat, h: u64)
    requires IsRun(ss, w, ops) && a <= b < |ops| && Occupies(ss[a], i, h)
    requires ss[a].jobs[i].job.bound != 0 && Retired(ss[a], ss[a].jobs[i].job.bound)
    ensures !HandsOut(ss[b], ops[b], k, h)
  {
    if HandsOut(ss[b], ops[b], k, h) {
      RunIsHistory(ss, w, ops);
      Follow(ss, ops, a, b, i, h);
      GetNextParts(ss[b], ops[b].node);
      ChosenIsConsidered(ss[b], ops[b].node);
      RetiredForGood(ss, w, ops, a, b, ss[a].jobs[i].job.bound);
    }
  }

  /** So a job that survives LEAVE_NODE but was bound to a resource of the leaving node is
      stranded for the rest of the run. */
  lemma LeaveStrandsBound(ss: seq<State>, w: MM.Window, ops: seq<Op>, a: nat, b: nat, i: nat, k: nat, h: u64)
    requires IsRun(ss, w, ops) && a < b < |ops| && ops[a].Leave? && Leaving(ss[a], ops[a].node)
    requires Occupies(ss[a], i, h) && ss[a].jobs[i].job.affinity != ops[a].node && ss[a].jobs[i].job.bound != 0
    requires ss[a].jobs[i].job.bound in ss[a].resources && ss[a].resources[ss[a].jobs[i].job.bound].owner == ops[a].node
    ensures Occupies(ss[a + 1], i, h) && !HandsOut(ss[b], ops[b], k, h)
  {
    var s, r := ss[a], ss[a].jobs[i].job.bound;
    LeaveSweeps(s, ops[a].node);
    SurvivesIff(s, ops[a].node, r);
    assert SlotOk(s, s.jobs[i]) && JobSwept(s.jobs[i], ss[a + 1].jobs[i], ops[a].node);
    StepMints(s, ops[a]);
    UnboundNeverHandedOut(ss, w, ops, a + 1, b, i, k, h);
  }

  /** And one that was dispatched is handed out again only after a report on it. */
  lemma LeaveKeepsDispatched(ss: seq<State>, w: MM.Window, ops: seq<Op>, a: nat, b: nat, i: nat, k: nat, h: u64)
    requires IsRun(ss, w, ops) && a < b < |ops| && ops[a].Leave?
    requires Occupies(ss[a], i, h) && ss[a].jobs[i].job.dispatched && HandsOut(ss[b], ops[b], k, h)
    ensures exists c :: a < c < b && Reports(ops[c], h)
  {
    RunIsHistory(ss, w, ops);
    HandedOutIsDispatched(ss[b], ops[b], ss[b + 1], k, h);
    MarkedTwice(ss, ops, a, b, i, k, h);
    assert !Reports(ops[a], h);
  }

  // ---------------------------------------------------------------- joining

  /** JOIN_NODE declares nothing: no resource, no index entry. */
  lemma JoinDeclaresNothing(s: State, node: u64, h: u64)
    ensures JoinNode(s, node, h).0.resources == s.resources && JoinNode(s, node, h).0.index == s.index
  {
  }
}
