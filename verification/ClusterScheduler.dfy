/** The cluster scheduler object: the static pools of cluster_scheduler.c updated
    in place by its handlers, each proved to do what its function in ClusterState
    says. A creating method takes the factory's answer as its last argument. */
module ClusterScheduler {
  import opened Words
  import opened ClusterState
  import MM = MemoryManager
  import ClusterInvariant
  import ClusterDispatch

  lemma {:induction false} FindJobFrame(jobs: seq<JobSlot>, jobs': seq<JobSlot>, h: u64, i: nat)
    requires |jobs| == |jobs'| && i <= |jobs|
    requires forall k :: 0 <= k < |jobs| ==> jobs[k].used == jobs'[k].used && jobs[k].handle == jobs'[k].handle
    ensures FindJobFrom(jobs, h, i) == FindJobFrom(jobs', h, i)
    decreases |jobs| - i
  {
    if i < |jobs| { FindJobFrame(jobs, jobs', h, i + 1); }
  }

  class Scheduler {
    const jobs: array<JobSlot>
    const index: array<IndexEntry>
    const nodes: array<NodeEntry>
    const mutexes: array<Mutex>
    const completions: array<Completion>
    const manager: MM.Manager
    var resources: map<u64, Resource>
    var resourceNext: nat
    var nodeNext: nat
    var completionNext: nat
    var pool: u64
    ghost var minted: set<u64>

    ghost predicate Valid()
      reads this, manager
    {
      && jobs.Length == MAX_JOBS && index.Length == MAX_RESOURCES && nodes.Length == MAX_NODES
      && mutexes.Length == MAX_MUTEXES && completions.Length == MAX_JOBS
      && manager.Valid()
    }

    ghost function View(): State
      reads this, jobs, index, nodes, mutexes, completions, manager, manager.claims
      requires Valid()
    {
      State(jobs[..], resources, index[..], resourceNext, nodes[..], nodeNext, mutexes[..],
            completions[..], completionNext, minted, pool, manager.Contents())
    }

    constructor (manager: MM.Manager, h: u64)
      requires manager.Valid() && manager.window.min <= manager.window.max
      ensures Valid() && this.manager == manager
      ensures fresh(jobs) && fresh(index) && fresh(nodes) && fresh(mutexes) && fresh(completions)
      ensures View() == Boot(manager.window, manager.Contents(), h)
    {
      this.manager := manager;
      jobs := new JobSlot[MAX_JOBS](_ => NO_JOB);
      index := new IndexEntry[MAX_RESOURCES](_ => NO_ENTRY);
      nodes := new NodeEntry[MAX_NODES](_ => NO_NODE);
      mutexes := new Mutex[MAX_MUTEXES](_ => UNLOCKED);
      completions := new Completion[MAX_JOBS](_ => NO_COMPLETION);
      resources, resourceNext, nodeNext, completionNext, minted, pool := map[], 0, 0, 0, {}, 0;
      new;
      assert View() == Boot(manager.window, manager.Contents(), 0).(resourceNext := 0);
      pool := CreateResourceObject(PoolResource(manager.window), h);
    }

    // -------------------------------------------------------------- lookups

    method FindJobSlot(h: u64) returns (r: Option<nat>)
      requires Valid()
      ensures r == FindJob(jobs[..], h)
    {
      if h == 0 {
        return None;
      }
      var i := 0;
      while i < MAX_JOBS
        invariant 0 <= i <= MAX_JOBS
        invariant FindJobFrom(jobs[..], h, 0) == FindJobFrom(jobs[..], h, i)
      {
        if jobs[i].used && jobs[i].handle == h {
          return Some(i);
        }
        i := i + 1;
      }
      return None;
    }

    method FindNodeSlot(node: u64) returns (r: Option<nat>)
      requires Valid()
      ensures r == FindNode(nodes[..], node, 0)
    {
      var i := 0;
      while i < MAX_NODES
        invariant 0 <= i <= MAX_NODES
        invariant FindNode(nodes[..], node, 0) == FindNode(nodes[..], node, i)
      {
        if nodes[i].used && nodes[i].nodeId == node {
          return Some(i);
        }
        i := i + 1;
      }
      return None;
    }

    method FindIndexSlot(h: u64) returns (r: Option<nat>)
      requires Valid()
      ensures r == FindIndex(index[..], h, 0)
    {
      var i := 0;
      while i < MAX_RESOURCES
        invariant 0 <= i <= MAX_RESOURCES
        invariant FindIndex(index[..], h, 0) == FindIndex(index[..], h, i)
      {
        if index[i].used && index[i].handle == h {
          return Some(i);
        }
        i := i + 1;
      }
      return None;
    }

    // -------------------------------------------------------------- resources

    method CreateResourceObject(rd: Resource, h: u64) returns (r: u64)
      requires Valid()
      modifies this, index
      ensures Valid() && (View(), r) == CreateResource(old(View()), h, rd)
    {
      var slot := resourceNext;
      resourceNext := resourceNext + 1;
      if slot >= MAX_RESOURCES || h == 0 {
        return 0;
      }
      resources := resources[h := rd];
      minted := minted + {h};
      var i := 0;
      while i < MAX_RESOURCES
        invariant 0 <= i <= MAX_RESOURCES && Valid() && index[..] == old(index[..])
        invariant FreeIndex(index[..], 0) == FreeIndex(index[..], i)
      {
        if !index[i].used {
          index[i] := IndexEntry(true, h, rd.kind);
          return h;
        }
        i := i + 1;
      }
      return h;
    }

    method NodeHasMmu(node: u64) returns (r: bool)
      requires Valid()
      ensures r == HasMmu(View(), node)
    {
      var i := 0;
      while i < MAX_RESOURCES
        invariant 0 <= i <= MAX_RESOURCES
        invariant forall k :: 0 <= k < i ==>
                                !(index[k].used && index[k].kind == KIND_MMU && index[k].handle in resources
                                  && resources[index[k].handle].owner == node)
      {
        if index[i].used && index[i].kind == KIND_MMU && index[i].handle in resources
           && resources[index[i].handle].owner == node {
          assert View().index[i].used;
          return true;
        }
        i := i + 1;
      }
      return false;
    }

    method HandleDeclareResource(node: u64, kind: u64, descriptor: u64, capacity: u64, sync: u64, h: u64)
      returns (r: u64)
      requires Valid()
      modifies this, index
      ensures Valid() && (View(), r) == DeclareResource(old(View()), node, kind, descriptor, capacity, sync, h)
    {
      if sync == SYNC_STREAM || sync == SYNC_COW {
        var mmu := NodeHasMmu(node);
        if !mmu {
          return 0;
        }
      }
      r := CreateResourceObject(Resource(node, kind, descriptor, capacity, 0, sync), h);
    }

    method HandleReassignResource(r: u64, node: u64) returns (ok: bool)
      requires Valid()
      modifies `resources
      ensures Valid() && (View(), ok) == ReassignResource(old(View()), r, node)
    {
      var n := FindNodeSlot(node);
      if r !in resources || resources[r].reservedBy != 0 || n.None? {
        return false;
      }
      resources := Reown(resources, r, node);
      return true;
    }

    method HandleRequestAllocation(node: u64, base: u64, size: u64, kind: u64, sync: u64, h: u64)
      returns (ok: bool, r: u64)
      requires Valid()
      modifies this, index, manager, manager.claims
      ensures Valid() && (View(), ok, r) == RequestAllocation(old(View()), node, base, size, kind, sync, h)
    {
      r := 0;
      ok := manager.ClaimLocked(base, size, kind);
      if ok {
        r := CreateResourceObject(Resource(node, KIND_MEMORY, base, size, 0, sync), h);
      }
    }

    /** The address granted is the memory manager's own choice. */
    method HandleAllocateSlice(node: u64, job: u64, size: u64, kind: u64, sync: u64, h: u64)
      returns (ok: bool, r: u64, placed: Option<u64>)
      requires Valid()
      modifies this, index, manager, manager.claims
      ensures Valid() && MM.Answers(old(View()).claims, manager.window, size, placed)
      ensures (View(), ok, r) == AllocateSlice(old(View()), node, job, size, kind, sync, h, placed)
    {
      r := 0;
      placed := manager.AllocLocked(size, kind);
      ok := placed.Some?;
      if ok {
        r := CreateResourceObject(Resource(node, KIND_MEMORY, placed.value, size, job, sync), h);
      }
    }

    method HandleReleaseSlice(r: u64, job: u64) returns (ok: bool)
      requires Valid()
      modifies `resources, index, manager.claims
      ensures Valid() && (View(), ok) == ReleaseSlice(old(View()), r, job)
    {
      if r !in resources || resources[r].kind != KIND_MEMORY || resources[r].reservedBy != job {
        return false;
      }
      ok := manager.FreeLocked(resources[r].descriptor);
      if ok {
        resources := resources - {r};
        var i := FindIndexSlot(r);
        if i.Some? {
          index[i.value] := index[i.value].(used := false);
        }
      }
    }

    // -------------------------------------------------------------- membership

    method HandleJoinNode(node: u64, h: u64) returns (r: u64)
      requires Valid()
      modifies this, nodes
      ensures Valid() && (View(), r) == JoinNode(old(View()), node, h)
    {
      var known := FindNodeSlot(node);
      if known.Some? {
        return 0;
      }
      var slot := nodeNext;
      nodeNext := nodeNext + 1;
      if slot >= MAX_NODES || h == 0 {
        return 0;
      }
      minted := minted + {h};
      var i := 0;
      while i < MAX_NODES
        invariant 0 <= i <= MAX_NODES && Valid() && nodes[..] == old(nodes[..])
        invariant FreeNode(nodes[..], 0) == FreeNode(nodes[..], i)
      {
        if !nodes[i].used {
          nodes[i] := NodeEntry(true, h, node);
          return h;
        }
        i := i + 1;
      }
      return h;
    }

    method DestroyJobObject(h: u64)
      requires Valid()
      modifies jobs
      ensures jobs[..] == DestroyJob(old(jobs[..]), h)
    {
      var k := FindJobSlot(h);
      if k.Some? {
        jobs[k.value] := jobs[k.value].(used := false);
      }
    }

    method HandleLeaveNode(node: u64)
      requires Valid()
      modifies `resources, jobs, index, nodes
      ensures Valid() && View() == LeaveNode(old(View()), node)
    {
      var n := FindNodeSlot(node);
      if n.None? {
        return;
      }
      nodes[n.value] := nodes[n.value].(used := false);
      SweepOwnedResources(node);
      SweepNodeJobs(node);
    }

    method SweepOwnedResources(node: u64)
      requires Valid()
      modifies `resources, index
      ensures View() == SweepResources(old(View()), node, MAX_RESOURCES)
    {
      ghost var s := View();
      var i := 0;
      while i < MAX_RESOURCES
        invariant 0 <= i <= MAX_RESOURCES && View() == SweepResources(s, node, i)
      {
        SweepIndexSlot(node, i);
        i := i + 1;
      }
    }

    method SweepIndexSlot(node: u64, i: nat)
      requires Valid() && i < MAX_RESOURCES
      modifies `resources, index
      ensures View() == SweepResource(old(View()), node, i)
    {
      var e := index[i];
      if e.used && e.handle in resources && resources[e.handle].owner == node {
        resources := resources - {e.handle};
        index[i] := e.(used := false);
      }
    }

    method SweepNodeJobs(node: u64)
      requires Valid()
      modifies `resources, jobs
      ensures View() == SweepJobs(old(View()), node, MAX_JOBS)
    {
      ghost var s := View();
      var i := 0;
      while i < MAX_JOBS
        invariant 0 <= i <= MAX_JOBS && View() == SweepJobs(s, node, i)
      {
        SweepJobSlot(node, i);
        i := i + 1;
      }
    }

    method SweepJobSlot(node: u64, i: nat)
      requires Valid() && i < MAX_JOBS
      modifies `resources, jobs
      ensures Valid() && View() == SweepJob(old(View()), node, i)
    {
      var e := jobs[i];
      if e.used && Touches(e.job, node) {
        if e.job.affinity == node {
          resources := Release(resources, e.job.bound, e.handle);
          DestroyJobObject(e.handle);
        } else {
          jobs[i] := e.(job := e.job.(assignedNode := NODE_ANY));
        }
      }
    }

    // -------------------------------------------------------------- jobs

    method HandleSubmitJob(q: JobSpec, h: u64) returns (r: u64)
      requires Valid()
      modifies `minted, jobs
      ensures Valid() && (View(), r) == SubmitJob(old(View()), q, h)
    {
      var i := 0;
      while i < MAX_JOBS && jobs[i].used
        invariant 0 <= i <= MAX_JOBS
        invariant FreeJobSlot(jobs[..], 0) == FreeJobSlot(jobs[..], i)
      {
        i := i + 1;
      }
      if i == MAX_JOBS {
        return 0;
      }
      if h == 0 {
        jobs[i] := jobs[i].(job := NewJob(q));
      } else {
        jobs[i] := JobSlot(true, h, NewJob(q));
        minted := minted + {h};
      }
      return h;
    }

    method ResourceOkFor(h: u64, j: Job) returns (ok: bool)
      requires Valid()
      ensures ok == ResourceOk(View(), h, j)
    {
      if j.bound != 0 {
        return j.bound in resources && (resources[j.bound].reservedBy == 0 || resources[j.bound].reservedBy == h);
      }
      if j.resourceId == 0 && j.resourceKind == KIND_NONE {
        return true;
      }
      if j.resourceId != 0 {
        return j.resourceId in resources && resources[j.resourceId].reservedBy == 0;
      }
      var i := 0;
      while i < MAX_RESOURCES
        invariant 0 <= i <= MAX_RESOURCES
        invariant forall k :: 0 <= k < i ==> !Matches(View(), j, k)
      {
        if index[i].used && index[i].kind == j.resourceKind && index[i].handle in resources
           && resources[index[i].handle].reservedBy == 0 && resources[index[i].handle].capacity >= j.minCapacity {
          assert Matches(View(), j, i);
          return true;
        }
        i := i + 1;
      }
      return false;
    }

    method FindWanted(j: Job) returns (want: u64)
      requires Valid() && j.bound == 0
      ensures want == Wanted(View(), j)
    {
      want := 0;
      if j.resourceId != 0 {
        return j.resourceId;
      }
      if j.resourceKind != KIND_NONE {
        var i := 0;
        while i < MAX_RESOURCES
          invariant 0 <= i <= MAX_RESOURCES
          invariant want == LastMatch(View(), j, i)
        {
          if index[i].used && index[i].kind == j.resourceKind && index[i].handle in resources
             && resources[index[i].handle].reservedBy == 0 && resources[index[i].handle].capacity >= j.minCapacity {
            want := index[i].handle;
          }
          i := i + 1;
        }
      }
    }

    method BindResourceFor(k: nat)
      requires Valid() && k < MAX_JOBS
      modifies `resources, jobs
      ensures Valid() && View() == Bind(old(View()), k)
    {
      var e := jobs[k];
      if e.job.bound != 0 {
        return;
      }
      var want := FindWanted(e.job);
      if want != 0 {
        var (res, ok) := Reserve(resources, want, e.handle);
        if ok {
          resources := res;
          jobs[k] := e.(job := e.job.(bound := want));
        }
      }
    }

    /** The scan has passed the first i slots of state s. */
    ghost predicate ScannedTo(s: State, node: u64, i: nat)
      reads this, jobs, index, manager
      requires Valid() && |s.jobs| == MAX_JOBS && i <= MAX_JOBS
    {
      && resources == s.resources && index[..] == s.index
      && (forall k :: 0 <= k < i ==> jobs[k] == Unblocked(s, node, k))
      && (forall k :: i <= k < MAX_JOBS ==> jobs[k] == s.jobs[k])
    }

    /** One turn of pick_next_for_node's scan: is the job considered, and is it
        ready once a vanished blocker has been cleared? */
    method ScanSlot(ghost s: State, node: u64, i: nat) returns (ready: bool, retry: bool)
      requires Valid() && |s.jobs| == MAX_JOBS && i < MAX_JOBS && ScannedTo(s, node, i)
      modifies jobs
      ensures ScannedTo(s, node, i + 1)
      ensures ready == Ready(s, node, i) && retry == Retry(s, node, i)
    {
      var e := jobs[i];
      ready, retry := false, false;
      if !e.used || e.job.dispatched || !Eligible(e.job, node) {
        return;
      }
      var ok := ResourceOkFor(e.handle, e.job);
      ClusterDispatch.ResourceOkFrame(s, View(), e.handle, e.job, e.job);
      if !ok {
        return;
      }
      if e.job.blocked && e.job.blockKind == OnJob {
        var blocker := FindJobSlot(e.job.blockId);
        FindJobFrame(jobs[..], s.jobs, e.job.blockId, 0);
        if blocker.None? {
          jobs[i] := e.(job := e.job.(blocked := false, blockKind := NotBlocked));
        }
      }
      ready := !jobs[i].job.blocked;
      retry := !ready && jobs[i].job.blockKind == OnMutex;
    }

    method ScanJobs(node: u64) returns (k: int)
      requires Valid()
      modifies jobs
      ensures View() == Scanned(old(View()), node)
      ensures k == Chosen(old(View()), node)
    {
      ghost var s := View();
      var bestReady, bestBlocked := -1, -1;
      var i := 0;
      while i < MAX_JOBS
        invariant 0 <= i <= MAX_JOBS && Valid() && ScannedTo(s, node, i)
        invariant bestReady == Best(s, node, true, i) && bestBlocked == Best(s, node, false, i)
      {
        var ready, retry := ScanSlot(s, node, i);
        var p := jobs[i].job.effectivePriority;
        if ready {
          if bestReady < 0 || p > jobs[bestReady].job.effectivePriority {
            bestReady := i;
          }
        } else if retry {
          if bestBlocked < 0 || p > jobs[bestBlocked].job.effectivePriority {
            bestBlocked := i;
          }
        }
        i := i + 1;
      }
      assert jobs[..] == Scanned(s, node).jobs;
      k := if bestReady >= 0 then bestReady else bestBlocked;
    }

    method ClaimJob(node: u64, k: nat)
      requires Valid() && k < MAX_JOBS
      modifies `resources, jobs
      ensures Valid() && View() == Dispatch(old(View()), node, k)
    {
      var e := jobs[k];
      jobs[k] := e.(job := e.job.(dispatched := true,
                                  assignedNode := if e.job.assignedNode == NODE_ANY then node else e.job.assignedNode));
      BindResourceFor(k);
    }

    method PickNextForNode(node: u64) returns (k: int)
      requires Valid()
      modifies `resources, jobs
      ensures Valid() && (View(), k) == GetNextJob(old(View()), node)
    {
      ClusterInvariant.GetNextParts(View(), node);
      k := ScanJobs(node);
      if k >= 0 {
        ClaimJob(node, k);
      }
    }

    method HandleReportJobResult(h: u64, result: JobResult, blockId: u64, value: u64)
      requires Valid()
      modifies `resources, `completionNext, jobs, completions
      ensures Valid() && View() == ReportJobResult(old(View()), h, result, blockId, value)
    {
      var k := FindJobSlot(h);
      if k.None? {
        return;
      }
      var e := jobs[k.value];
      match result
      case Finished =>
        resources := Release(resources, e.job.bound, h);
        completions[completionNext % MAX_JOBS] := Completion(true, h, value);
        completionNext := completionNext + 1;
        DestroyJobObject(h);
      case Running =>
        jobs[k.value] := e.(job := e.job.(dispatched := false));
      case BlockedOnMutex =>
        jobs[k.value] := e.(job := e.job.(dispatched := false, blocked := true, blockKind := OnMutex,
                                          blockId := blockId));
      case BlockedOnJob =>
        jobs[k.value] := e.(job := e.job.(dispatched := false, blocked := true, blockKind := OnJob,
                                          blockId := blockId));
    }

    method HandleGetJobResult(job: u64) returns (r: Option<u64>)
      requires Valid()
      ensures r == GetJobResult(View(), job)
    {
      var i := 0;
      while i < MAX_JOBS
        invariant 0 <= i <= MAX_JOBS
        invariant FindCompletion(completions[..], job, 0) == FindCompletion(completions[..], job, i)
      {
        if completions[i].used && completions[i].job == job {
          return Some(completions[i].value);
        }
        i := i + 1;
      }
      return None;
    }

    // -------------------------------------------------------------- mutexes

    method HandleMutexTryLock(id: u64, job: u64) returns (ok: bool)
      requires Valid()
      modifies jobs, mutexes
      ensures Valid() && (View(), ok) == TryLock(old(View()), id, job)
    {
      var m := ToInt(id);
      if m < 0 || m >= MAX_MUTEXES {
        return false;
      }
      if !mutexes[m].locked {
        mutexes[m] := Mutex(true, job);
        return true;
      }
      var self := FindJobSlot(job);
      var holder := FindJobSlot(mutexes[m].holder);
      if self.Some? && holder.Some?
         && jobs[self.value].job.effectivePriority > jobs[holder.value].job.effectivePriority {
        var e, p := jobs[holder.value], jobs[self.value].job.effectivePriority;
        jobs[holder.value] := e.(job := e.job.(effectivePriority := p));
      }
      return false;
    }

    method HandleMutexUnlock(id: u64, job: u64)
      requires Valid()
      modifies jobs, mutexes
      ensures Valid() && View() == Unlock(old(View()), id, job)
    {
      var m := ToInt(id);
      if m < 0 || m >= MAX_MUTEXES || !mutexes[m].locked || mutexes[m].holder != job {
        return;
      }
      mutexes[m] := mutexes[m].(locked := false);
      var self := FindJobSlot(job);
      if self.Some? {
        var e := jobs[self.value];
        jobs[self.value] := e.(job := e.job.(effectivePriority := e.job.basePriority));
      }
    }
  }
}
