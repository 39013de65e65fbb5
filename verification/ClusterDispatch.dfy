/** What GET_NEXT_JOB and LEAVE_NODE promise, from any reachable state. */
module ClusterDispatch {
  import opened Words
  import opened ClusterState
  import opened ClusterInvariant

  // ---------------------------------------------------------------- GET_NEXT_JOB

  ghost predicate NeedsResource(j: Job) { j.bound != 0 || j.resourceId != 0 || j.resourceKind != KIND_NONE }

  /** The resource `r` meets what job `j` asked for. */
  ghost predicate Meets(j: Job, r: u64, rd: Resource) {
    if j.bound != 0 then r == j.bound
    else if j.resourceId != 0 then r == j.resourceId
    else rd.kind == j.resourceKind && rd.capacity >= j.minCapacity
  }

  ghost predicate Reserved(s: State, e: JobSlot) {
    e.job.bound != 0 && e.job.bound in s.resources && s.resources[e.job.bound].reservedBy == e.handle
  }

  lemma MatchFrame(s: State, s1: State, j: Job, j1: Job)
    requires s1.resources == s.resources && s1.index == s.index
    requires j1.resourceKind == j.resourceKind && j1.minCapacity == j.minCapacity
    ensures forall i :: 0 <= i < |s.index| ==> Matches(s1, j1, i) == Matches(s, j, i)
  {
  }

  lemma ResourceOkFrame(s: State, s1: State, h: u64, j: Job, j1: Job)
    requires s1.resources == s.resources && s1.index == s.index
    requires j1.bound == j.bound && j1.resourceId == j.resourceId
    requires j1.resourceKind == j.resourceKind && j1.minCapacity == j.minCapacity
    ensures ResourceOk(s1, h, j1) <==> ResourceOk(s, h, j)
  {
    MatchFrame(s, s1, j, j1);
  }

  /** Binding a dispatchable job succeeds, and what it is bound to is what it asked for. */
  lemma BindServes(s: State, k: nat)
    requires Inv(s) && k < |s.jobs| && s.jobs[k].used && ResourceOk(s, s.jobs[k].handle, s.jobs[k].job)
    ensures var (j, e') := (s.jobs[k].job, Bind(s, k).jobs[k]);
            && e' == s.jobs[k].(job := j.(bound := e'.job.bound))
            && (NeedsResource(j) ==> Reserved(Bind(s, k), e') && Meets(j, e'.job.bound, s.resources[e'.job.bound]))
            && (!NeedsResource(j) ==> e'.job.bound == 0)
  {
    var e := s.jobs[k];
    assert SlotOk(s, e);
    if e.job.bound == 0 && e.job.resourceId == 0 && e.job.resourceKind != KIND_NONE {
      var want := LastMatch(s, e.job, |s.index|);
      var i :| 0 <= i < |s.index| && Matches(s, e.job, i) && s.index[i].handle == want;
      assert EntryOk(s.index[i], s.resources);
    }
  }

  lemma DispatchServes(s: State, node: u64, k: nat)
    requires Inv(s) && k < |s.jobs| && s.jobs[k].used && Eligible(s.jobs[k].job, node)
    requires ResourceOk(s, s.jobs[k].handle, s.jobs[k].job)
    ensures var (e, s') := (s.jobs[k], Dispatch(s, node, k)); var e' := s'.jobs[k];
            && e'.used && e'.handle == e.handle && e'.job.dispatched
            && e'.job.assignedNode == (if e.job.assignedNode == NODE_ANY then node else e.job.assignedNode)
            && (NeedsResource(e.job) ==> Reserved(s', e') && Meets(e.job, e'.job.bound, s'.resources[e'.job.bound]))
            && (!NeedsResource(e.job) ==> e'.job.bound == 0)
  {
    var e := s.jobs[k];
    var at := if e.job.assignedNode == NODE_ANY then node else e.job.assignedNode;
    var j := e.job.(dispatched := true, assignedNode := at);
    assert SlotOk(s, e);
    KeepUpdate(s, k, j);
    var s1 := s.(jobs := s.jobs[k := e.(job := j)]);
    ResourceOkFrame(s, s1, e.handle, e.job, j);
    BindServes(s1, k);
  }

  /** The choice: a ready job of maximal effective priority, a mutex-blocked one
      only when no job is ready, nothing only when there is neither. */
  lemma GetNextIsMaximal(s: State, node: u64)
    ensures var k := GetNextJob(s, node).1;
            && (k == -1 <==> forall i :: 0 <= i < |s.jobs| ==> !Ready(s, node, i) && !Retry(s, node, i))
            && (k >= 0 ==>
                  var ready := exists i :: 0 <= i < |s.jobs| && Ready(s, node, i);
                  && Offered(s, node, ready, k)
                  && forall i :: 0 <= i < |s.jobs| && Offered(s, node, ready, i) ==>
                                   s.jobs[i].job.effectivePriority <= s.jobs[k].job.effectivePriority)
  {
    GetNextParts(s, node);
    BestIsHighest(s, node, true, |s.jobs|);
    BestIsHighest(s, node, false, |s.jobs|);
    assert forall i :: 0 <= i < |s.jobs| ==> Offered(s, node, true, i) == Ready(s, node, i);
    assert forall i :: 0 <= i < |s.jobs| ==> Offered(s, node, false, i) == Retry(s, node, i);
  }

  /** What the chosen job gets: the dispatch mark, its node, and the resource it
      asked for, reserved to it. */
  lemma GetNextServes(s: State, node: u64)
    requires Inv(s) && GetNextJob(s, node).1 >= 0
    ensures var (s', k) := GetNextJob(s, node); var (e, e') := (s.jobs[k], s'.jobs[k]);
            && e'.used && e'.handle == e.handle && e'.job.dispatched
            && (NeedsResource(e.job) ==> Reserved(s', e') && Meets(e.job, e'.job.bound, s'.resources[e'.job.bound]))
            && (!NeedsResource(e.job) ==> e'.job.bound == 0)
  {
    var k := Chosen(s, node);
    GetNextParts(s, node);
    ChosenAfterScan(s, node);
    ChosenIsConsidered(s, node);
    ScanKeepsPlacement(s, node, k);
    var s1 := Scanned(s, node);
    ResourceOkFrame(s, s1, s.jobs[k].handle, s.jobs[k].job, s1.jobs[k].job);
    DispatchServes(s1, node, k);
  }

  // ---------------------------------------------------------------- LEAVE_NODE

  /** After k turns of the resource sweep: nothing of `node`'s among the entries
      passed, everything else as it was. */
  ghost predicate ResourcesSwept(s: State, s': State, node: u64, k: nat) {
    && |s'.index| == |s.index|
    && (forall i :: 0 <= i < k && i < |s.index| && s'.index[i].used && s'.index[i].handle in s'.resources ==>
                      s'.resources[s'.index[i].handle].owner != node)
    && (forall i :: k <= i < |s.index| ==> s'.index[i] == s.index[i])
    && (forall r :: r in s'.resources ==> r in s.resources && s'.resources[r] == s.resources[r])
    && (forall r :: r in s.resources && s.resources[r].owner != node ==> r in s'.resources)
  }

  lemma SweepOneResource(s: State, m: State, node: u64, k: nat)
    requires IndexOk(m.index, m.resources, m.resourceNext) && k < |s.index| && ResourcesSwept(s, m, node, k)
    ensures ResourcesSwept(s, SweepResource(m, node, k), node, k + 1)
  {
  }

  lemma {:induction false} SweepResourcesDone(s: State, node: u64, k: nat)
    requires Inv(s) && k <= |s.index|
    ensures ResourcesSwept(s, SweepResources(s, node, k), node, k)
    decreases k
  {
    if k > 0 {
      SweepResourcesDone(s, node, k - 1);
      KeepSweepResources(s, node, k - 1);
      SweepOneResource(s, SweepResources(s, node, k - 1), node, k - 1);
    }
  }

  lemma AllResourcesSwept(s: State, node: u64)
    requires Inv(s)
    ensures var s' := SweepResources(s, node, |s.index|);
            && (forall r :: r in s'.resources <==> r in s.resources && s.resources[r].owner != node)
            && (forall r :: r in s'.resources ==> s'.resources[r] == s.resources[r])
  {
    var s' := SweepResources(s, node, |s.index|);
    SweepResourcesDone(s, node, |s.index|);
    KeepSweepResources(s, node, |s.index|);
    forall r | r in s'.resources
      ensures s'.resources[r].owner != node
    {
      assert Indexed(s'.index, r);
    }
  }

  /** What leaving does to one job. */
  ghost predicate JobSwept(e: JobSlot, e': JobSlot, node: u64) {
    if !e.used then e' == e
    else if e.job.affinity == node then !e'.used
    else e' == e.(job := e.job.(assignedNode := if e.job.assignedNode == node then NODE_ANY else e.job.assignedNode))
  }

  ghost predicate ReservationsSwept(e: JobSlot, res: map<u64, Resource>, node: u64) {
    e.used && e.job.affinity == node && e.job.bound != 0 && e.job.bound in res ==> res[e.job.bound].reservedBy == 0
  }

  /** Reservations may have been given back; nothing else about resources changed. */
  ghost predicate OnlyReleased(res: map<u64, Resource>, res': map<u64, Resource>) {
    && res'.Keys == res.Keys
    && forall r :: r in res ==>
                     && res'[r] == res[r].(reservedBy := res'[r].reservedBy)
                     && (res'[r].reservedBy == res[r].reservedBy || res'[r].reservedBy == 0)
  }

  ghost predicate JobsSwept(s: State, s': State, node: u64, k: nat) {
    && |s'.jobs| == |s.jobs|
    && (forall i :: 0 <= i < k && i < |s.jobs| ==> JobSwept(s.jobs[i], s'.jobs[i], node))
    && (forall i :: k <= i < |s.jobs| ==> s'.jobs[i] == s.jobs[i])
    && OnlyReleased(s.resources, s'.resources)
    && (forall i :: 0 <= i < k && i < |s.jobs| ==> ReservationsSwept(s.jobs[i], s'.resources, node))
  }

  lemma SweepOneJob(s: State, m: State, node: u64, k: nat)
    requires Inv(m) && node != NODE_ANY && k < |s.jobs| && JobsSwept(s, m, node, k)
    ensures JobsSwept(s, SweepJob(m, node, k), node, k + 1)
  {
    var e := m.jobs[k];
    assert SlotOk(m, e);
    if e.used {
      FindLive(m.jobs, k);
    }
  }

  lemma {:induction false} SweepJobsDone(s: State, node: u64, k: nat)
    requires Inv(s) && k <= |s.jobs| && node != NODE_ANY
    ensures JobsSwept(s, SweepJobs(s, node, k), node, k)
    decreases k
  {
    if k > 0 {
      SweepJobsDone(s, node, k - 1);
      KeepSweepJobs(s, node, k - 1);
      SweepOneJob(s, SweepJobs(s, node, k - 1), node, k - 1);
    }
  }

  /** LEAVE_NODE, job by job and resource by resource. */
  lemma LeaveSweeps(s: State, node: u64)
    requires Inv(s) && node != NODE_ANY && FindNode(s.nodes, node, 0).Some?
    ensures var s' := LeaveNode(s, node);
            && FindNode(s'.nodes, node, 0).None?
            && |s'.jobs| == |s.jobs|
            && (forall i :: 0 <= i < |s.jobs| ==> JobSwept(s.jobs[i], s'.jobs[i], node))
            && (forall i :: 0 <= i < |s.jobs| ==> ReservationsSwept(s.jobs[i], s'.resources, node))
            && (forall r :: r in s'.resources <==> r in s.resources && s.resources[r].owner != node)
            && (forall r :: r in s'.resources ==> s'.resources[r].owner != node)
  {
    var i := FindNode(s.nodes, node, 0).value;
    KeepNodeGone(s, i);
    var s1 := s.(nodes := s.nodes[i := s.nodes[i].(used := false)]);
    AllResourcesSwept(s1, node);
    KeepSweepResources(s1, node, |s1.index|);
    SweepJobsDone(SweepResources(s1, node, |s1.index|), node, |s1.jobs|);
  }

  /** Once a node has left, no live resource belongs to it and no live job is
      pinned or assigned to it. */
  lemma LeaveLeavesNoTrace(s: State, node: u64)
    requires Inv(s) && node != NODE_ANY && FindNode(s.nodes, node, 0).Some?
    ensures var s' := LeaveNode(s, node);
            && (forall r :: r in s'.resources ==> s'.resources[r].owner != node)
            && (forall i :: 0 <= i < |s'.jobs| && s'.jobs[i].used ==>
                              s'.jobs[i].job.affinity != node && s'.jobs[i].job.assignedNode != node)
            && (forall i :: 0 <= i < |s.jobs| && s.jobs[i].used && s.jobs[i].job.affinity != node ==>
                              s'.jobs[i].used && s'.jobs[i].handle == s.jobs[i].handle)
  {
    LeaveSweeps(s, node);
    var s' := LeaveNode(s, node);
    forall i | 0 <= i < |s'.jobs| && s'.jobs[i].used
      ensures s'.jobs[i].job.affinity != node && s'.jobs[i].job.assignedNode != node
    {
      assert JobSwept(s.jobs[i], s'.jobs[i], node);
    }
  }

  /** A job pinned to the node is bound to r, so the node's departure gives r back. */
  ghost predicate GivesBack(s: State, node: u64, r: u64) {
    r != 0 && exists k :: 0 <= k < |s.jobs| && Pinned(s.jobs[k], node) && s.jobs[k].job.bound == r
  }

  ghost predicate Pinned(e: JobSlot, node: u64) { e.used && e.job.affinity == node }

  /** The sweep gives back nothing else. */
  lemma {:induction false} OnlyPinnedGiveBack(s: State, node: u64, k: nat, r: u64)
    requires Inv(s) && k <= |s.jobs| && node != NODE_ANY && r in s.resources && !GivesBack(s, node, r)
    ensures r in SweepJobs(s, node, k).resources && SweepJobs(s, node, k).resources[r] == s.resources[r]
    decreases k
  {
    if k > 0 {
      OnlyPinnedGiveBack(s, node, k - 1, r);
      SweepJobsDone(s, node, k - 1);
      var m := SweepJobs(s, node, k - 1);
      assert m.jobs[k - 1] == s.jobs[k - 1];
      assert Pinned(s.jobs[k - 1], node) ==> s.jobs[k - 1].job.bound != r;
    }
  }

  lemma JobSweepGivesBack(s: State, node: u64, r: u64)
    requires Inv(s) && node != NODE_ANY && r in s.resources
    ensures var s' := SweepJobs(s, node, |s.jobs|);
            && r in s'.resources
            && s'.resources[r].kind == s.resources[r].kind && s'.resources[r].capacity == s.resources[r].capacity
            && s'.resources[r].reservedBy == if GivesBack(s, node, r) then 0 else s.resources[r].reservedBy
  {
    if GivesBack(s, node, r) {
      SweepJobsDone(s, node, |s.jobs|);
      var k :| 0 <= k < |s.jobs| && Pinned(s.jobs[k], node) && s.jobs[k].job.bound == r;
      assert ReservationsSwept(s.jobs[k], SweepJobs(s, node, |s.jobs|).resources, node);
    } else {
      OnlyPinnedGiveBack(s, node, |s.jobs|, r);
    }
  }

  /** A surviving resource comes out of LEAVE_NODE as it was, but for the reservation of a
      cancelled job. */
  lemma LeaveGivesBack(s: State, node: u64, r: u64)
    requires Inv(s) && node != NODE_ANY && FindNode(s.nodes, node, 0).Some?
    requires r in s.resources && s.resources[r].owner != node
    ensures var s' := LeaveNode(s, node);
            && r in s'.resources
            && s'.resources[r].kind == s.resources[r].kind && s'.resources[r].capacity == s.resources[r].capacity
            && s'.resources[r].reservedBy == if GivesBack(s, node, r) then 0 else s.resources[r].reservedBy
  {
    var i := FindNode(s.nodes, node, 0).value;
    KeepNodeGone(s, i);
    var s1 := s.(nodes := s.nodes[i := s.nodes[i].(used := false)]);
    AllResourcesSwept(s1, node);
    KeepSweepResources(s1, node, |s1.index|);
    JobSweepGivesBack(SweepResources(s1, node, |s1.index|), node, r);
  }
}
