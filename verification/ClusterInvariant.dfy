/** What every step of the cluster scheduler keeps. */
module ClusterInvariant {
  import opened Words
  import opened ClusterState
  import MM = MemoryManager

  // ---------------------------------------------------------------- the invariant

  ghost predicate Shape(s: State) {
    && |s.jobs| == MAX_JOBS && |s.index| == MAX_RESOURCES && |s.nodes| == MAX_NODES
    && |s.mutexes| == MAX_MUTEXES && |s.completions| == MAX_JOBS
  }

  ghost predicate Distinct(jobs: seq<JobSlot>) {
    forall i, j :: 0 <= i < j < |jobs| && jobs[i].used && jobs[j].used ==> jobs[i].handle != jobs[j].handle
  }

  ghost predicate HoldsSome(ms: seq<Mutex>, h: u64) {
    exists m :: 0 <= m < |ms| && ms[m].locked && ms[m].holder == h
  }

  /** A bound job is its resource's reserver for as long as the resource lives. */
  ghost predicate BoundOk(s: State, e: JobSlot) {
    e.job.bound != 0 ==>
      && e.job.bound in s.minted
      && (e.job.bound in s.resources ==> s.resources[e.job.bound].reservedBy == e.handle)
  }

  /** A pinned job is only ever assigned to its own node. */
  ghost predicate PinnedOk(j: Job) {
    j.assignedNode == NODE_ANY || j.affinity == NODE_ANY || j.assignedNode == j.affinity
  }

  /** A priority is only ever raised, and only for the holder of a mutex. */
  ghost predicate PriorityOk(s: State, e: JobSlot) {
    && e.job.basePriority <= e.job.effectivePriority
    && (e.job.basePriority < e.job.effectivePriority ==> HoldsSome(s.mutexes, e.handle))
  }

  ghost predicate SlotOk(s: State, e: JobSlot) {
    e.used ==> e.handle != 0 && e.handle in s.minted && BoundOk(s, e) && PinnedOk(e.job) && PriorityOk(s, e)
  }

  ghost predicate SlotsOk(s: State) {
    forall i :: 0 <= i < |s.jobs| ==> SlotOk(s, s.jobs[i])
  }

  ghost predicate Indexed(index: seq<IndexEntry>, r: u64) {
    exists i :: 0 <= i < |index| && index[i].used && index[i].handle == r
  }

  ghost predicate EntryOk(e: IndexEntry, res: map<u64, Resource>) {
    e.used ==> e.handle in res && e.kind == res[e.handle].kind
  }

  /** The discovery index lists exactly the live resources, each once. */
  ghost predicate IndexOk(index: seq<IndexEntry>, res: map<u64, Resource>, next: nat) {
    && (forall i :: 0 <= i < |index| ==> EntryOk(index[i], res))
    && (forall i, j :: 0 <= i < j < |index| && index[i].used && index[j].used ==> index[i].handle != index[j].handle)
    && (forall i :: next <= i < |index| ==> !index[i].used)
    && (forall r :: r in res ==> Indexed(index, r))
  }

  ghost predicate NodesOk(nodes: seq<NodeEntry>, next: nat) {
    && (forall i, j :: 0 <= i < j < |nodes| && nodes[i].used && nodes[j].used ==> nodes[i].nodeId != nodes[j].nodeId)
    && (forall i :: next <= i < |nodes| ==> !nodes[i].used)
    && (forall i :: 0 <= i < |nodes| && nodes[i].used ==> nodes[i].handle != 0)
  }

  ghost predicate Live(jobs: seq<JobSlot>, h: u64) {
    exists i :: 0 <= i < |jobs| && jobs[i].used && jobs[i].handle == h
  }

  ghost predicate CompletionOk(s: State, c: Completion) {
    c.used ==> c.job in s.minted && !Live(s.jobs, c.job)
  }

  /** Completions are of finished jobs, at most one each. */
  ghost predicate CompletionsOk(s: State) {
    && (forall i :: 0 <= i < |s.completions| ==> CompletionOk(s, s.completions[i]))
    && (forall i, j :: 0 <= i < j < |s.completions| && s.completions[i].used && s.completions[j].used ==>
                         s.completions[i].job != s.completions[j].job)
  }

  ghost predicate Inv(s: State) {
    && Shape(s) && Distinct(s.jobs) && SlotsOk(s)
    && 0 !in s.resources && s.resources.Keys <= s.minted
    && IndexOk(s.index, s.resources, s.resourceNext)
    && NodesOk(s.nodes, s.nodeNext)
    && CompletionsOk(s)
  }

  // ---------------------------------------------------------------- small steps

  ghost predicate Fresh(s: State, h: u64) { h == 0 || h !in s.minted }

  lemma FindLive(jobs: seq<JobSlot>, k: nat)
    requires Distinct(jobs) && k < |jobs| && jobs[k].used && jobs[k].handle != 0
    ensures FindJob(jobs, jobs[k].handle) == Some(k)
  {
  }

  /** The job table and the completions stay good while what surrounds them
      changes, as long as no bound job loses its reservation. */
  lemma KeepJobs(s: State, s': State)
    requires Inv(s) && s'.jobs == s.jobs && s'.completions == s.completions && s'.mutexes == s.mutexes
    requires s.minted <= s'.minted
    requires forall i :: 0 <= i < |s.jobs| && s.jobs[i].used && s.jobs[i].job.bound != 0
                         && s.jobs[i].job.bound in s'.resources ==>
                           s'.resources[s.jobs[i].job.bound].reservedBy == s.jobs[i].handle
    ensures SlotsOk(s') && CompletionsOk(s')
  {
    forall i | 0 <= i < |s'.jobs|
      ensures SlotOk(s', s'.jobs[i])
    {
      assert SlotOk(s, s.jobs[i]);
    }
    forall i | 0 <= i < |s.completions|
      ensures CompletionOk(s', s.completions[i])
    {
      assert CompletionOk(s, s.completions[i]);
    }
  }

  lemma BoundJobs(s: State)
    requires Inv(s)
    ensures forall i :: 0 <= i < |s.jobs| && s.jobs[i].used && s.jobs[i].job.bound != 0
                        && s.jobs[i].job.bound in s.resources ==>
                          s.resources[s.jobs[i].job.bound].reservedBy == s.jobs[i].handle
    ensures forall i :: 0 <= i < |s.jobs| && s.jobs[i].used ==> s.jobs[i].handle != 0 && s.jobs[i].handle in s.minted
    ensures forall i :: 0 <= i < |s.jobs| && s.jobs[i].used && s.jobs[i].job.bound != 0 ==>
            s.jobs[i].job.bound in s.minted
  {
    assert forall i :: 0 <= i < |s.jobs| ==> SlotOk(s, s.jobs[i]);
  }

  /** Jobs may change their fields or go, but not appear or change identity. */
  lemma KeepRewrite(s: State, jobs': seq<JobSlot>)
    requires Inv(s) && |jobs'| == |s.jobs|
    requires forall i :: 0 <= i < |jobs'| && jobs'[i].used ==> s.jobs[i].used && jobs'[i].handle == s.jobs[i].handle
    requires forall i :: 0 <= i < |jobs'| ==> SlotOk(s, jobs'[i])
    ensures Inv(s.(jobs := jobs'))
  {
    var s' := s.(jobs := jobs');
    forall i | 0 <= i < |s'.jobs|
      ensures SlotOk(s', s'.jobs[i])
    {
      assert SlotOk(s, jobs'[i]);
    }
    forall i | 0 <= i < |s.completions|
      ensures CompletionOk(s', s.completions[i])
    {
      assert CompletionOk(s, s.completions[i]);
    }
  }

  lemma KeepUpdate(s: State, k: nat, j: Job)
    requires Inv(s) && k < |s.jobs| && SlotOk(s, s.jobs[k].(job := j))
    ensures Inv(s.(jobs := s.jobs[k := s.jobs[k].(job := j)]))
  {
    KeepRewrite(s, s.jobs[k := s.jobs[k].(job := j)]);
  }

  lemma KeepDestroy(s: State, h: u64)
    requires Inv(s)
    ensures Inv(s.(jobs := DestroyJob(s.jobs, h)))
  {
    KeepRewrite(s, DestroyJob(s.jobs, h));
  }

  ghost predicate SameObjects(res: map<u64, Resource>, res': map<u64, Resource>) {
    res.Keys == res'.Keys && forall r :: r in res ==> res'[r].kind == res[r].kind
  }

  lemma KeepResources(s: State, res': map<u64, Resource>)
    requires Inv(s) && SameObjects(s.resources, res')
    requires forall i ::
               0 <= i < |s.jobs| && s.jobs[i].used && s.jobs[i].job.bound != 0 && s.jobs[i].job.bound in res' ==>
                           res'[s.jobs[i].job.bound].reservedBy == s.jobs[i].handle
    ensures Inv(s.(resources := res'))
  {
    KeepJobs(s, s.(resources := res'));
    forall i | 0 <= i < |s.index|
      ensures EntryOk(s.index[i], res')
    {
      assert EntryOk(s.index[i], s.resources);
    }
  }

  /** Giving back a reservation is safe unless a live job is bound through it. */
  lemma KeepRelease(s: State, r: u64, h: u64)
    requires Inv(s)
    requires forall i :: 0 <= i < |s.jobs| && s.jobs[i].used && s.jobs[i].job.bound == r ==>
             s.jobs[i].handle != h || r == 0
    ensures Inv(s.(resources := Release(s.resources, r, h)))
  {
    BoundJobs(s);
    KeepResources(s, Release(s.resources, r, h));
  }

  lemma KeepReserve(s: State, r: u64, h: u64)
    requires Inv(s)
    ensures Inv(s.(resources := Reserve(s.resources, r, h).0))
  {
    BoundJobs(s);
    KeepResources(s, Reserve(s.resources, r, h).0);
  }

  lemma KeepReown(s: State, r: u64, node: u64)
    requires Inv(s)
    ensures Inv(s.(resources := Reown(s.resources, r, node)))
  {
    BoundJobs(s);
    KeepResources(s, Reown(s.resources, r, node));
  }

  lemma KeepClaims(s: State, t: MM.Table)
    requires Inv(s)
    ensures Inv(s.(claims := t))
  {
    BoundJobs(s);
    KeepJobs(s, s.(claims := t));
  }

  // ---------------------------------------------------------------- creation

  lemma IndexAdd(index: seq<IndexEntry>, res: map<u64, Resource>, next: nat, h: u64, rd: Resource, i: nat)
    requires IndexOk(index, res, next) && h !in res && next < |index|
    requires i <= next && !index[i].used
    ensures IndexOk(index[i := IndexEntry(true, h, rd.kind)], res[h := rd], next + 1)
  {
    var index', res' := index[i := IndexEntry(true, h, rd.kind)], res[h := rd];
    forall k | 0 <= k < |index'|
      ensures EntryOk(index'[k], res')
    {
      assert EntryOk(index[k], res);
    }
    forall a, b | 0 <= a < b < |index'| && index'[a].used && index'[b].used
      ensures index'[a].handle != index'[b].handle
    {
      assert EntryOk(index[a], res) && EntryOk(index[b], res);
    }
    forall r | r in res'
      ensures Indexed(index', r)
    {
      if r == h {
        assert index'[i].used;
      } else {
        assert Indexed(index, r);
        var k :| 0 <= k < |index| && index[k].used && index[k].handle == r;
        assert index'[k].used;
      }
    }
  }

  lemma KeepCreate(s: State, h: u64, rd: Resource)
    requires Inv(s) && Fresh(s, h)
    ensures Inv(CreateResource(s, h, rd).0)
  {
    BoundJobs(s);
    if s.resourceNext < MAX_RESOURCES && h != 0 {
      assert !s.index[s.resourceNext].used;
      IndexAdd(s.index, s.resources, s.resourceNext, h, rd, FreeIndex(s.index, 0).value);
    }
    KeepJobs(s, CreateResource(s, h, rd).0);
  }

  lemma KeepJoin(s: State, node: u64, h: u64)
    requires Inv(s) && Fresh(s, h)
    ensures Inv(JoinNode(s, node, h).0)
  {
    BoundJobs(s);
    if FindNode(s.nodes, node, 0).None? && s.nodeNext < MAX_NODES && h != 0 {
      assert !s.nodes[s.nodeNext].used;
    }
    KeepJobs(s, JoinNode(s, node, h).0);
  }

  lemma KeepSubmit(s: State, q: JobSpec, h: u64)
    requires Inv(s) && Fresh(s, h)
    ensures Inv(SubmitJob(s, q, h).0)
  {
    var s' := SubmitJob(s, q, h).0;
    BoundJobs(s);
    forall i | 0 <= i < |s'.jobs|
      ensures SlotOk(s', s'.jobs[i])
    {
      assert SlotOk(s, s.jobs[i]);
    }
    forall i | 0 <= i < |s.completions|
      ensures CompletionOk(s', s.completions[i])
    {
      assert CompletionOk(s, s.completions[i]);
    }
  }

  // ---------------------------------------------------------------- removal of resources

  lemma IndexDrop(index: seq<IndexEntry>, res: map<u64, Resource>, next: nat, i: nat)
    requires IndexOk(index, res, next) && i < |index| && index[i].used
    ensures IndexOk(index[i := index[i].(used := false)], res - {index[i].handle}, next)
  {
    var h := index[i].handle;
    var index', res' := index[i := index[i].(used := false)], res - {h};
    forall k | 0 <= k < |index'|
      ensures EntryOk(index'[k], res')
    {
      assert EntryOk(index[k], res);
    }
    forall r | r in res'
      ensures Indexed(index', r)
    {
      assert Indexed(index, r);
      var k :| 0 <= k < |index| && index[k].used && index[k].handle == r;
      assert index'[k].used;
    }
  }

  lemma KeepDrop(s: State, i: nat)
    requires Inv(s) && i < |s.index| && s.index[i].used
    ensures Inv(s.(resources := s.resources - {s.index[i].handle}, index := s.index[i := s.index[i].(used := false)]))
  {
    BoundJobs(s);
    IndexDrop(s.index, s.resources, s.resourceNext, i);
    KeepJobs(s, s.(resources := s.resources - {s.index[i].handle}, index := s.index[i := s.index[i].(used := false)]));
  }

  lemma KeepReleaseSlice(s: State, r: u64, job: u64)
    requires Inv(s)
    ensures Inv(ReleaseSlice(s, r, job).0)
  {
    if MayRelease(s, r, job) {
      assert Indexed(s.index, r);
      var i := FindIndex(s.index, r, 0).value;
      KeepDrop(s, i);
      var t := MM.Freed(s.claims, s.resources[r].descriptor);
      KeepClaims(s.(resources := s.resources - {r}, index := s.index[i := s.index[i].(used := false)]), t);
    }
  }

  // ---------------------------------------------------------------- leaving

  lemma {:induction false} KeepSweepResources(s: State, node: u64, k: nat)
    requires Inv(s) && k <= |s.index|
    ensures Inv(SweepResources(s, node, k))
    decreases k
  {
    if k > 0 {
      KeepSweepResources(s, node, k - 1);
      var m := SweepResources(s, node, k - 1);
      var e := m.index[k - 1];
      if e.used && e.handle in m.resources && m.resources[e.handle].owner == node {
        KeepDrop(m, k - 1);
      }
    }
  }

  lemma KeepSweepJob(s: State, node: u64, k: nat)
    requires Inv(s) && k < |s.jobs|
    ensures Inv(SweepJob(s, node, k))
  {
    var e := s.jobs[k];
    assert SlotOk(s, e);
    if e.used && Touches(e.job, node) {
      if e.job.affinity == node {
        FindLive(s.jobs, k);
        KeepDestroy(s, e.handle);
        KeepRelease(s.(jobs := DestroyJob(s.jobs, e.handle)), e.job.bound, e.handle);
      } else {
        KeepUpdate(s, k, e.job.(assignedNode := NODE_ANY));
      }
    }
  }

  lemma {:induction false} KeepSweepJobs(s: State, node: u64, k: nat)
    requires Inv(s) && k <= |s.jobs|
    ensures Inv(SweepJobs(s, node, k))
    decreases k
  {
    if k > 0 {
      KeepSweepJobs(s, node, k - 1);
      KeepSweepJob(SweepJobs(s, node, k - 1), node, k - 1);
    }
  }

  lemma KeepNodeGone(s: State, i: nat)
    requires Inv(s) && i < |s.nodes|
    ensures Inv(s.(nodes := s.nodes[i := s.nodes[i].(used := false)]))
  {
    BoundJobs(s);
    KeepJobs(s, s.(nodes := s.nodes[i := s.nodes[i].(used := false)]));
  }

  lemma KeepLeave(s: State, node: u64)
    requires Inv(s)
    ensures Inv(LeaveNode(s, node))
  {
    match FindNode(s.nodes, node, 0)
    case None =>
    case Some(i) =>
      KeepNodeGone(s, i);
      var s1 := s.(nodes := s.nodes[i := s.nodes[i].(used := false)]);
      KeepSweepResources(s1, node, |s1.index|);
      var s2 := SweepResources(s1, node, |s1.index|);
      KeepSweepJobs(s2, node, |s2.jobs|);
  }

  // ---------------------------------------------------------------- dispatch

  lemma KeepScan(s: State, node: u64)
    requires Inv(s)
    ensures Inv(Scanned(s, node))
  {
    var jobs' := Scanned(s, node).jobs;
    forall i | 0 <= i < |jobs'|
      ensures SlotOk(s, jobs'[i])
    {
      assert SlotOk(s, s.jobs[i]);
    }
    KeepRewrite(s, jobs');
  }

  lemma KeepBind(s: State, k: nat)
    requires Inv(s) && k < |s.jobs| && s.jobs[k].used
    ensures Inv(Bind(s, k))
  {
    var e := s.jobs[k];
    var want := Wanted(s, e.job);
    var (res, ok) := Reserve(s.resources, want, e.handle);
    if want != 0 && ok {
      KeepReserve(s, want, e.handle);
      var s1 := s.(resources := res);
      assert SlotOk(s1, s1.jobs[k]);
      KeepUpdate(s1, k, e.job.(bound := want));
    }
  }

  lemma KeepDispatch(s: State, node: u64, k: nat)
    requires Inv(s) && k < |s.jobs| && s.jobs[k].used && Eligible(s.jobs[k].job, node)
    ensures Inv(Dispatch(s, node, k))
  {
    var e := s.jobs[k];
    assert SlotOk(s, e);
    var at := if e.job.assignedNode == NODE_ANY then node else e.job.assignedNode;
    var j := e.job.(dispatched := true, assignedNode := at);
    KeepUpdate(s, k, j);
    KeepBind(s.(jobs := s.jobs[k := e.(job := j)]), k);
  }

  /** The scan's best is offered, outranks everything offered, and is the first to do so. */
  lemma {:induction false} BestIsHighest(s: State, node: u64, ready: bool, n: nat)
    requires n <= |s.jobs|
    ensures var b := Best(s, node, ready, n);
            && (b >= 0 ==> Offered(s, node, ready, b))
            && forall i :: 0 <= i < n && Offered(s, node, ready, i) ==>
                             && b >= 0
                             && s.jobs[i].job.effectivePriority <= s.jobs[b].job.effectivePriority
                             && (s.jobs[i].job.effectivePriority == s.jobs[b].job.effectivePriority ==> b <= i)
    decreases n
  {
    if n > 0 { BestIsHighest(s, node, ready, n - 1); }
  }

  lemma ChosenIsConsidered(s: State, node: u64)
    ensures Chosen(s, node) >= 0 ==> Considered(s, node, Chosen(s, node))
  {
    BestIsHighest(s, node, true, |s.jobs|);
    BestIsHighest(s, node, false, |s.jobs|);
  }

  lemma ScanKeepsPlacement(s: State, node: u64, i: nat)
    requires i < |s.jobs|
    ensures var (e, e') := (s.jobs[i], Scanned(s, node).jobs[i]);
            && e'.used == e.used && e'.handle == e.handle
            && e'.job == e.job.(blocked := e'.job.blocked, blockKind := e'.job.blockKind)
  {
  }

  lemma ChosenAfterScan(s: State, node: u64)
    requires Inv(s)
    ensures Inv(Scanned(s, node))
    ensures var k := Chosen(s, node);
            k >= 0 ==> Scanned(s, node).jobs[k].used && Eligible(Scanned(s, node).jobs[k].job, node)
  {
    KeepScan(s, node);
    ChosenIsConsidered(s, node);
    if Chosen(s, node) >= 0 {
      ScanKeepsPlacement(s, node, Chosen(s, node));
    }
  }

  lemma GetNextParts(s: State, node: u64)
    ensures var k := Chosen(s, node);
            GetNextJob(s, node) == if k < 0 then (Scanned(s, node), -1) else (Dispatch(Scanned(s, node), node, k), k)
  {
  }

  lemma KeepGetNext(s: State, node: u64)
    requires Inv(s)
    ensures Inv(GetNextJob(s, node).0)
  {
    ChosenAfterScan(s, node);
    GetNextParts(s, node);
    if Chosen(s, node) >= 0 {
      KeepDispatch(Scanned(s, node), node, Chosen(s, node));
    }
  }

  lemma KeepRecord(s: State, h: u64, value: u64)
    requires Inv(s) && h in s.minted && !Live(s.jobs, h)
    requires forall i :: 0 <= i < |s.completions| && s.completions[i].used ==> s.completions[i].job != h
    ensures Inv(Record(s, h, value))
  {
    var s' := Record(s, h, value);
    forall i | 0 <= i < |s'.jobs|
      ensures SlotOk(s', s'.jobs[i])
    {
      assert SlotOk(s, s.jobs[i]);
    }
    forall i | 0 <= i < |s'.completions|
      ensures CompletionOk(s', s'.completions[i])
    {
      assert CompletionOk(s, s.completions[i]);
    }
  }

  lemma KeepFinish(s: State, k: nat, value: u64)
    requires Inv(s) && k < |s.jobs| && s.jobs[k].used
    ensures Inv(ReportJobResult(s, s.jobs[k].handle, Finished, 0, value))
  {
    var e := s.jobs[k];
    BoundJobs(s);
    FindLive(s.jobs, k);
    KeepDestroy(s, e.handle);
    var s1 := s.(jobs := DestroyJob(s.jobs, e.handle));
    KeepRelease(s1, e.job.bound, e.handle);
    var s2 := s1.(resources := Release(s.resources, e.job.bound, e.handle));
    forall i | 0 <= i < |s.completions| && s.completions[i].used
      ensures s.completions[i].job != e.handle
    {
      assert CompletionOk(s, s.completions[i]);
    }
    KeepRecord(s2, e.handle, value);
  }

  lemma KeepReport(s: State, h: u64, result: JobResult, blockId: u64, value: u64)
    requires Inv(s)
    ensures Inv(ReportJobResult(s, h, result, blockId, value))
  {
    match FindJob(s.jobs, h)
    case None =>
    case Some(k) =>
      var j := s.jobs[k].job;
      assert SlotOk(s, s.jobs[k]);
      match result
      case Finished => KeepFinish(s, k, value);
      case Running => KeepUpdate(s, k, j.(dispatched := false));
      case BlockedOnMutex =>
        KeepUpdate(s, k, j.(dispatched := false, blocked := true, blockKind := OnMutex, blockId := blockId));
      case BlockedOnJob =>
        KeepUpdate(s, k, j.(dispatched := false, blocked := true, blockKind := OnJob, blockId := blockId));
  }

  // ---------------------------------------------------------------- mutexes

  /** Changing one mutex keeps the invariant when nobody above their base
      priority held it. */
  lemma KeepMutex(s: State, m: nat, x: Mutex)
    requires Inv(s) && m < |s.mutexes|
    requires forall i ::
               0 <= i < |s.jobs| && s.jobs[i].used && s.jobs[i].job.basePriority < s.jobs[i].job.effectivePriority ==>
                           !Holds(s, m, s.jobs[i].handle)
    ensures Inv(s.(mutexes := s.mutexes[m := x]))
  {
    var s' := s.(mutexes := s.mutexes[m := x]);
    forall i | 0 <= i < |s'.jobs|
      ensures SlotOk(s', s'.jobs[i])
    {
      var e := s.jobs[i];
      assert SlotOk(s, e);
      if e.used && e.job.basePriority < e.job.effectivePriority {
        var o :| 0 <= o < |s.mutexes| && s.mutexes[o].locked && s.mutexes[o].holder == e.handle;
        assert s'.mutexes[o] == s.mutexes[o];
      }
    }
    forall i | 0 <= i < |s.completions|
      ensures CompletionOk(s', s.completions[i])
    {
      assert CompletionOk(s, s.completions[i]);
    }
  }

  lemma KeepTryLock(s: State, id: u64, job: u64)
    requires Inv(s)
    ensures Inv(TryLock(s, id, job).0)
  {
    match MutexFor(s, id)
    case None =>
    case Some(m) =>
      if !s.mutexes[m].locked {
        KeepMutex(s, m, Mutex(true, job));
      } else {
        var a, b := FindJob(s.jobs, job), FindJob(s.jobs, s.mutexes[m].holder);
        if a.Some? && b.Some? && s.jobs[a.value].job.effectivePriority > s.jobs[b.value].job.effectivePriority {
          assert SlotOk(s, s.jobs[b.value]);
          assert HoldsSome(s.mutexes, s.jobs[b.value].handle);
          KeepUpdate(s, b.value, s.jobs[b.value].job.(effectivePriority := s.jobs[a.value].job.effectivePriority));
        }
      }
  }

  lemma KeepUnlock(s: State, id: u64, job: u64)
    requires Inv(s)
    ensures Inv(Unlock(s, id, job))
  {
    match MutexFor(s, id)
    case None =>
    case Some(m) =>
      if Holds(s, m, job) {
        var k := FindJob(s.jobs, job);
        var s1 := s.(jobs := Restore(s.jobs, job));
        if k.Some? {
          assert SlotOk(s, s.jobs[k.value]);
          KeepUpdate(s, k.value, s.jobs[k.value].job.(effectivePriority := s.jobs[k.value].job.basePriority));
        }
        BoundJobs(s);
        KeepMutex(s1, m, s.mutexes[m].(locked := false));
      }
  }
}
