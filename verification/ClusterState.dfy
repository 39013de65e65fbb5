/** The cluster scheduler of coreinit/cluster_scheduler.c as a value: its pools
    and indices, and one function per handler. Each handler runs as one atomic
    step. The factory's answer to CREATE is an argument (0 for a refusal), and
    so is the memory manager's choice of address. */
module ClusterState {
  import opened Words
  import MM = MemoryManager

  const NODE_ANY: u64 := 0xFFFF_FFFF_FFFF_FFFF
  const KIND_NONE: u64 := 0xFFFF_FFFF_FFFF_FFFF
  const KIND_MEMORY: u64 := 0
  const KIND_MMU: u64 := 3
  const SYNC_TRANSFER: u64 := 0
  const SYNC_STREAM: u64 := 1
  const SYNC_COW: u64 := 2

  const MAX_NODES: nat := 16
  const MAX_RESOURCES: nat := 128
  const MAX_JOBS: nat := 32
  const MAX_MUTEXES: nat := 8

  datatype BlockKind = NotBlocked | OnMutex | OnJob

  datatype Job = Job(
    kind: u64, arg0: u64, arg1: u64,
    basePriority: int, effectivePriority: int,
    affinity: u64, assignedNode: u64,
    resourceId: u64, resourceKind: u64, minCapacity: u64,
    bound: u64,
    blocked: bool, blockKind: BlockKind, blockId: u64,
    dispatched: bool)

  datatype JobSlot = JobSlot(used: bool, handle: u64, job: Job)

  datatype Resource = Resource(owner: u64, kind: u64, descriptor: u64, capacity: u64, reservedBy: u64, syncKind: u64)

  datatype IndexEntry = IndexEntry(used: bool, handle: u64, kind: u64)

  datatype NodeEntry = NodeEntry(used: bool, handle: u64, nodeId: u64)

  datatype Mutex = Mutex(locked: bool, holder: u64)

  datatype Completion = Completion(used: bool, job: u64, value: u64)

  /** `resources` holds the live resource objects by handle, `minted` every
      handle the factory has ever returned. */
  datatype State = State(
    jobs: seq<JobSlot>,
    resources: map<u64, Resource>,
    index: seq<IndexEntry>,
    resourceNext: nat,
    nodes: seq<NodeEntry>,
    nodeNext: nat,
    mutexes: seq<Mutex>,
    completions: seq<Completion>,
    completionNext: nat,
    minted: set<u64>,
    pool: u64,
    claims: MM.Table)

  // ---------------------------------------------------------------- lookups

  /** job_data_for_handle_locked, as a slot number. */
  function FindJob(jobs: seq<JobSlot>, h: u64): (r: Option<nat>)
    ensures r.Some? ==> h != 0 && r.value < |jobs| && jobs[r.value].used && jobs[r.value].handle == h
    ensures r.None? ==> h == 0 || forall i :: 0 <= i < |jobs| && jobs[i].used ==> jobs[i].handle != h
  {
    if h == 0 then None else FindJobFrom(jobs, h, 0)
  }

  function FindJobFrom(jobs: seq<JobSlot>, h: u64, i: nat): (r: Option<nat>)
    requires i <= |jobs|
    ensures r.Some? ==> i <= r.value < |jobs| && jobs[r.value].used && jobs[r.value].handle == h
    ensures r.None? ==> forall k :: i <= k < |jobs| && jobs[k].used ==> jobs[k].handle != h
    decreases |jobs| - i
  {
    if i == |jobs| then None
    else if jobs[i].used && jobs[i].handle == h then Some(i)
    else FindJobFrom(jobs, h, i + 1)
  }

  function FreeJobSlot(jobs: seq<JobSlot>, i: nat): (r: Option<nat>)
    requires i <= |jobs|
    ensures r.Some? ==> i <= r.value < |jobs| && !jobs[r.value].used
    ensures r.Some? ==> forall k :: i <= k < r.value ==> jobs[k].used
    ensures r.None? ==> forall k :: i <= k < |jobs| ==> jobs[k].used
    decreases |jobs| - i
  {
    if i == |jobs| then None else if !jobs[i].used then Some(i) else FreeJobSlot(jobs, i + 1)
  }

  function FreeIndex(index: seq<IndexEntry>, i: nat): (r: Option<nat>)
    requires i <= |index|
    ensures r.Some? ==> i <= r.value < |index| && !index[r.value].used
    ensures r.Some? ==> forall k :: i <= k < r.value ==> index[k].used
    ensures r.None? ==> forall k :: i <= k < |index| ==> index[k].used
    decreases |index| - i
  {
    if i == |index| then None else if !index[i].used then Some(i) else FreeIndex(index, i + 1)
  }

  function FindIndex(index: seq<IndexEntry>, h: u64, i: nat): (r: Option<nat>)
    requires i <= |index|
    ensures r.Some? ==> i <= r.value < |index| && index[r.value].used && index[r.value].handle == h
    ensures r.None? ==> forall k :: i <= k < |index| && index[k].used ==> index[k].handle != h
    decreases |index| - i
  {
    if i == |index| then None
    else if index[i].used && index[i].handle == h then Some(i)
    else FindIndex(index, h, i + 1)
  }

  function FreeNode(nodes: seq<NodeEntry>, i: nat): (r: Option<nat>)
    requires i <= |nodes|
    ensures r.Some? ==> i <= r.value < |nodes| && !nodes[r.value].used
    ensures r.Some? ==> forall k :: i <= k < r.value ==> nodes[k].used
    ensures r.None? ==> forall k :: i <= k < |nodes| ==> nodes[k].used
    decreases |nodes| - i
  {
    if i == |nodes| then None else if !nodes[i].used then Some(i) else FreeNode(nodes, i + 1)
  }

  function FindNode(nodes: seq<NodeEntry>, node: u64, i: nat): (r: Option<nat>)
    requires i <= |nodes|
    ensures r.Some? ==> i <= r.value < |nodes| && nodes[r.value].used && nodes[r.value].nodeId == node
    ensures r.None? ==> forall k :: i <= k < |nodes| && nodes[k].used ==> nodes[k].nodeId != node
    decreases |nodes| - i
  {
    if i == |nodes| then None
    else if nodes[i].used && nodes[i].nodeId == node then Some(i)
    else FindNode(nodes, node, i + 1)
  }

  // ---------------------------------------------------------------- resource objects

  function Reserve(res: map<u64, Resource>, r: u64, job: u64): (map<u64, Resource>, bool) {
    if r !in res then (res, false)
    else if res[r].reservedBy == job then (res, true)
    else if res[r].reservedBy == 0 then (res[r := res[r].(reservedBy := job)], true)
    else (res, false)
  }

  function Release(res: map<u64, Resource>, r: u64, job: u64): map<u64, Resource> {
    if r in res && res[r].reservedBy == job then res[r := res[r].(reservedBy := 0)] else res
  }

  function Reown(res: map<u64, Resource>, r: u64, node: u64): map<u64, Resource> {
    if r in res && res[r].reservedBy == 0 then res[r := res[r].(owner := node)] else res
  }

  /** create_resource_object; the pool is a bump allocator, so a slot is spent
      even when the factory refuses. */
  function CreateResource(s: State, h: u64, rd: Resource): (State, u64) {
    var spent := s.(resourceNext := s.resourceNext + 1);
    if s.resourceNext >= MAX_RESOURCES || h == 0 then (spent, 0)
    else
      var made := spent.(resources := s.resources[h := rd], minted := s.minted + {h});
      match FreeIndex(s.index, 0)
      case Some(i) => (made.(index := s.index[i := IndexEntry(true, h, rd.kind)]), h)
      case None => (made, h)
  }

  // ---------------------------------------------------------------- start-up

  const NO_JOB := JobSlot(false, 0, Job(0, 0, 0, 0, 0, 0, 0, 0, 0, 0, 0, false, NotBlocked, 0, false))
  const NO_ENTRY := IndexEntry(false, 0, 0)
  const NO_NODE := NodeEntry(false, 0, 0)
  const UNLOCKED := Mutex(false, 0)
  const NO_COMPLETION := Completion(false, 0, 0)

  function PoolResource(w: MM.Window): Resource
    requires w.min <= w.max
  {
    Resource(0, KIND_MEMORY, w.min, w.max - w.min, 0, SYNC_TRANSFER)
  }

  /** cluster_scheduler_init_schema: empty pools and one resource for the whole
      allocatable window. */
  function Boot(w: MM.Window, claims: MM.Table, h: u64): State
    requires w.min <= w.max
  {
    var empty := State(seq(MAX_JOBS, _ => NO_JOB), map[], seq(MAX_RESOURCES, _ => NO_ENTRY), 0,
                       seq(MAX_NODES, _ => NO_NODE), 0, seq(MAX_MUTEXES, _ => UNLOCKED),
                       seq(MAX_JOBS, _ => NO_COMPLETION), 0, {}, 0, claims);
    var (s, r) := CreateResource(empty, h, PoolResource(w));
    s.(pool := r)
  }

  // ---------------------------------------------------------------- membership

  function JoinNode(s: State, node: u64, h: u64): (State, u64) {
    if FindNode(s.nodes, node, 0).Some? then (s, 0)
    else
      var spent := s.(nodeNext := s.nodeNext + 1);
      if s.nodeNext >= MAX_NODES || h == 0 then (spent, 0)
      else
        var made := spent.(minted := s.minted + {h});
        match FreeNode(s.nodes, 0)
        case Some(i) => (made.(nodes := s.nodes[i := NodeEntry(true, h, node)]), h)
        case None => (made, h)
  }

  /** One turn of leave_node's resource sweep. */
  function SweepResource(s: State, node: u64, k: nat): State
    requires k < |s.index|
  {
    var e := s.index[k];
    if e.used && e.handle in s.resources && s.resources[e.handle].owner == node then
      s.(resources := s.resources - {e.handle}, index := s.index[k := e.(used := false)])
    else s
  }

  function SweepResources(s: State, node: u64, k: nat): (s': State)
    requires k <= |s.index|
    ensures |s'.index| == |s.index| && s' == s.(index := s'.index, resources := s'.resources)
    decreases k
  {
    if k == 0 then s else SweepResource(SweepResources(s, node, k - 1), node, k - 1)
  }

  predicate Touches(j: Job, node: u64) {
    j.assignedNode == node || (j.assignedNode == NODE_ANY && j.affinity == node)
  }

  function DestroyJob(jobs: seq<JobSlot>, h: u64): (r: seq<JobSlot>)
    ensures |r| == |jobs|
  {
    match FindJob(jobs, h)
    case Some(i) => jobs[i := jobs[i].(used := false)]
    case None => jobs
  }

  /** One turn of leave_node's job sweep. */
  function SweepJob(s: State, node: u64, k: nat): State
    requires k < |s.jobs|
  {
    var e := s.jobs[k];
    if !e.used || !Touches(e.job, node) then s
    else if e.job.affinity == node then
      s.(resources := Release(s.resources, e.job.bound, e.handle), jobs := DestroyJob(s.jobs, e.handle))
    else s.(jobs := s.jobs[k := e.(job := e.job.(assignedNode := NODE_ANY))])
  }

  function SweepJobs(s: State, node: u64, k: nat): (s': State)
    requires k <= |s.jobs|
    ensures |s'.jobs| == |s.jobs| && s' == s.(jobs := s'.jobs, resources := s'.resources)
    decreases k
  {
    if k == 0 then s else SweepJob(SweepJobs(s, node, k - 1), node, k - 1)
  }

  function LeaveNode(s: State, node: u64): State {
    match FindNode(s.nodes, node, 0)
    case None => s
    case Some(i) =>
      var s1 := s.(nodes := s.nodes[i := s.nodes[i].(used := false)]);
      var s2 := SweepResources(s1, node, |s1.index|);
      SweepJobs(s2, node, |s2.jobs|)
  }

  // ---------------------------------------------------------------- resources and slices

  predicate HasMmu(s: State, node: u64) {
    exists i :: 0 <= i < |s.index| && s.index[i].used && s.index[i].kind == KIND_MMU
                && s.index[i].handle in s.resources && s.resources[s.index[i].handle].owner == node
  }

  function DeclareResource(s: State, node: u64, kind: u64, descriptor: u64, capacity: u64, sync: u64,
                           h: u64): (State, u64) {
    if (sync == SYNC_STREAM || sync == SYNC_COW) && !HasMmu(s, node) then (s, 0)
    else CreateResource(s, h, Resource(node, kind, descriptor, capacity, 0, sync))
  }

  function ReassignResource(s: State, r: u64, node: u64): (State, bool) {
    if r in s.resources && s.resources[r].reservedBy == 0 && FindNode(s.nodes, node, 0).Some? then
      (s.(resources := Reown(s.resources, r, node)), true)
    else (s, false)
  }

  ghost function RequestAllocation(s: State, node: u64, base: u64, size: u64, kind: u64, sync: u64,
                                   h: u64): (State, bool, u64) {
    if MM.ClaimOk(s.claims, base, size) then
      var (s', r) := CreateResource(s.(claims := MM.Claimed(s.claims, base, size, kind)), h,
                                    Resource(node, KIND_MEMORY, base, size, 0, sync));
      (s', true, r)
    else (s, false, 0)
  }

  /** `placed` is the memory manager's answer to ALLOC. */
  function AllocateSlice(s: State, node: u64, job: u64, size: u64, kind: u64, sync: u64, h: u64,
                         placed: Option<u64>): (State, bool, u64) {
    if placed.Some? then
      var (s', r) := CreateResource(s.(claims := s.claims + [MM.Claim(placed.value, size, kind, true)]), h,
                                    Resource(node, KIND_MEMORY, placed.value, size, job, sync));
      (s', true, r)
    else (s, false, 0)
  }

  predicate MayRelease(s: State, r: u64, job: u64) {
    && r in s.resources && s.resources[r].kind == KIND_MEMORY && s.resources[r].reservedBy == job
    && MM.FirstUsed(s.claims, s.resources[r].descriptor).Some?
  }

  function ReleaseSlice(s: State, r: u64, job: u64): (State, bool) {
    if !MayRelease(s, r, job) then (s, false)
    else
      var freed := s.(claims := MM.Freed(s.claims, s.resources[r].descriptor), resources := s.resources - {r});
      match FindIndex(s.index, r, 0)
      case Some(i) => (freed.(index := s.index[i := s.index[i].(used := false)]), true)
      case None => (freed, true)
  }

  // ---------------------------------------------------------------- jobs

  /** The C cast of a 64-bit message word to a 32-bit signed int. */
  function ToInt(w: u64): int {
    var low := w % TWO32;
    if low < 0x8000_0000 then low else low - TWO32
  }

  datatype JobSpec = JobSpec(affinity: u64, kind: u64, arg0: u64, arg1: u64, priority: u64,
                             resourceId: u64, resourceKind: u64, minCapacity: u64)

  function NewJob(q: JobSpec): Job {
    Job(q.kind, q.arg0, q.arg1, ToInt(q.priority), ToInt(q.priority), q.affinity, NODE_ANY,
        q.resourceId, q.resourceKind, q.minCapacity, 0, false, NotBlocked, 0, false)
  }

  function SubmitJob(s: State, q: JobSpec, h: u64): (State, u64) {
    match FreeJobSlot(s.jobs, 0)
    case None => (s, 0)
    case Some(i) =>
      if h == 0 then (s.(jobs := s.jobs[i := s.jobs[i].(job := NewJob(q))]), 0)
      else (s.(jobs := s.jobs[i := JobSlot(true, h, NewJob(q))], minted := s.minted + {h}), h)
  }

  predicate Matches(s: State, j: Job, i: int)
    requires 0 <= i < |s.index|
  {
    && s.index[i].used && s.index[i].kind == j.resourceKind && s.index[i].handle in s.resources
    && s.resources[s.index[i].handle].reservedBy == 0 && s.resources[s.index[i].handle].capacity >= j.minCapacity
  }

  predicate ResourceOk(s: State, h: u64, j: Job) {
    if j.bound != 0 then
      j.bound in s.resources && (s.resources[j.bound].reservedBy == 0 || s.resources[j.bound].reservedBy == h)
    else if j.resourceId == 0 && j.resourceKind == KIND_NONE then true
    else if j.resourceId != 0 then
      j.resourceId in s.resources && s.resources[j.resourceId].reservedBy == 0
    else exists i :: 0 <= i < |s.index| && Matches(s, j, i)
  }

  /** bind_resource_for's kind scan keeps the last match of the first n entries. */
  function LastMatch(s: State, j: Job, n: nat): (h: u64)
    requires n <= |s.index|
    ensures (exists i :: 0 <= i < n && Matches(s, j, i)) ==>
              exists i :: 0 <= i < n && Matches(s, j, i) && s.index[i].handle == h
    ensures (forall i :: 0 <= i < n ==> !Matches(s, j, i)) ==> h == 0
    decreases n
  {
    if n == 0 then 0 else if Matches(s, j, n - 1) then s.index[n - 1].handle else LastMatch(s, j, n - 1)
  }

  function Wanted(s: State, j: Job): u64 {
    if j.bound != 0 then 0
    else if j.resourceId != 0 then j.resourceId
    else if j.resourceKind != KIND_NONE then LastMatch(s, j, |s.index|)
    else 0
  }

  function Bind(s: State, k: nat): State
    requires k < |s.jobs|
  {
    var e := s.jobs[k];
    var want := Wanted(s, e.job);
    if want == 0 then s
    else
      var (res, ok) := Reserve(s.resources, want, e.handle);
      if ok then s.(resources := res, jobs := s.jobs[k := e.(job := e.job.(bound := want))]) else s
  }

  predicate Eligible(j: Job, node: u64) {
    j.assignedNode == node || (j.assignedNode == NODE_ANY && (j.affinity == node || j.affinity == NODE_ANY))
  }

  predicate Considered(s: State, node: u64, i: int)
    requires 0 <= i < |s.jobs|
  {
    && s.jobs[i].used && !s.jobs[i].job.dispatched && Eligible(s.jobs[i].job, node)
    && ResourceOk(s, s.jobs[i].handle, s.jobs[i].job)
  }

  /** Waiting on a job that no longer exists. */
  predicate Vanished(s: State, j: Job) {
    j.blocked && j.blockKind == OnJob && FindJob(s.jobs, j.blockId).None?
  }

  predicate Ready(s: State, node: u64, i: int)
    requires 0 <= i < |s.jobs|
  {
    Considered(s, node, i) && (!s.jobs[i].job.blocked || Vanished(s, s.jobs[i].job))
  }

  predicate Retry(s: State, node: u64, i: int)
    requires 0 <= i < |s.jobs|
  {
    Considered(s, node, i) && s.jobs[i].job.blocked && s.jobs[i].job.blockKind == OnMutex
  }

  predicate Offered(s: State, node: u64, ready: bool, i: int)
    requires 0 <= i < |s.jobs|
  {
    if ready then Ready(s, node, i) else Retry(s, node, i)
  }

  /** The scan's running best among the first n slots, -1 for none: highest
      effective priority, lowest slot on a tie. */
  function Best(s: State, node: u64, ready: bool, n: nat): (b: int)
    requires n <= |s.jobs|
    ensures -1 <= b < n
    decreases n
  {
    if n == 0 then -1
    else
      var b := Best(s, node, ready, n - 1);
      if Offered(s, node, ready, n - 1) &&
         (b < 0 || s.jobs[n - 1].job.effectivePriority > s.jobs[b].job.effectivePriority) then n - 1
      else b
  }

  function Unblocked(s: State, node: u64, i: int): JobSlot
    requires 0 <= i < |s.jobs|
  {
    var e := s.jobs[i];
    if Considered(s, node, i) && Vanished(s, e.job) then e.(job := e.job.(blocked := false, blockKind := NotBlocked))
    else e
  }

  /** The scan also clears the block of every considered job whose blocker has vanished. */
  function Scanned(s: State, node: u64): (s': State)
    ensures |s'.jobs| == |s.jobs|
  {
    s.(jobs := seq(|s.jobs|, i requires 0 <= i < |s.jobs| => Unblocked(s, node, i)))
  }

  function Chosen(s: State, node: u64): (k: int)
    ensures -1 <= k < |s.jobs|
  {
    var b := Best(s, node, true, |s.jobs|);
    if b >= 0 then b else Best(s, node, false, |s.jobs|)
  }

  function Dispatch(s: State, node: u64, k: nat): State
    requires k < |s.jobs|
  {
    var e := s.jobs[k];
    var at := if e.job.assignedNode == NODE_ANY then node else e.job.assignedNode;
    var j := e.job.(dispatched := true, assignedNode := at);
    Bind(s.(jobs := s.jobs[k := e.(job := j)]), k)
  }

  /** GET_NEXT_JOB: the new state and the chosen slot, -1 for "not found". */
  function GetNextJob(s: State, node: u64): (r: (State, int))
    ensures -1 <= r.1 < |s.jobs|
  {
    var k := Chosen(s, node);
    var s1 := Scanned(s, node);
    if k < 0 then (s1, -1) else (Dispatch(s1, node, k), k)
  }

  datatype JobResult = Running | Finished | BlockedOnMutex | BlockedOnJob

  function Record(s: State, job: u64, value: u64): State
    requires |s.completions| == MAX_JOBS
  {
    s.(completions := s.completions[s.completionNext % MAX_JOBS := Completion(true, job, value)],
       completionNext := s.completionNext + 1)
  }

  function ReportJobResult(s: State, h: u64, result: JobResult, blockId: u64, value: u64): State
    requires |s.completions| == MAX_JOBS
  {
    match FindJob(s.jobs, h)
    case None => s
    case Some(k) =>
      var e := s.jobs[k];
      match result
      case Finished =>
        var s1 := s.(resources := Release(s.resources, e.job.bound, h));
        var s2 := Record(s1, h, value);
        s2.(jobs := DestroyJob(s2.jobs, h))
      case Running => s.(jobs := s.jobs[k := e.(job := e.job.(dispatched := false))])
      case BlockedOnMutex =>
        s.(jobs := s.jobs[k := e.(job := e.job.(dispatched := false, blocked := true, blockKind := OnMutex,
                                                blockId := blockId))])
      case BlockedOnJob =>
        s.(jobs := s.jobs[k := e.(job := e.job.(dispatched := false, blocked := true, blockKind := OnJob,
                                                blockId := blockId))])
  }

  function FindCompletion(c: seq<Completion>, job: u64, i: nat): (r: Option<nat>)
    requires i <= |c|
    ensures r.Some? ==> i <= r.value < |c| && c[r.value].used && c[r.value].job == job
    ensures r.None? ==> forall k :: i <= k < |c| && c[k].used ==> c[k].job != job
    decreases |c| - i
  {
    if i == |c| then None
    else if c[i].used && c[i].job == job then Some(i)
    else FindCompletion(c, job, i + 1)
  }

  function GetJobResult(s: State, job: u64): Option<u64> {
    match FindCompletion(s.completions, job, 0)
    case Some(i) => Some(s.completions[i].value)
    case None => None
  }

  // ---------------------------------------------------------------- mutexes

  function MutexFor(s: State, id: u64): Option<nat> {
    var m := ToInt(id);
    if 0 <= m < MAX_MUTEXES && m < |s.mutexes| then Some(m) else None
  }

  /** The holder inherits the contender's effective priority when that is higher. */
  function Inherit(jobs: seq<JobSlot>, self: u64, holder: u64): (r: seq<JobSlot>)
    ensures |r| == |jobs|
  {
    match (FindJob(jobs, self), FindJob(jobs, holder))
    case (Some(a), Some(b)) =>
      if jobs[a].job.effectivePriority > jobs[b].job.effectivePriority then
        jobs[b := jobs[b].(job := jobs[b].job.(effectivePriority := jobs[a].job.effectivePriority))]
      else jobs
    case _ => jobs
  }

  function TryLock(s: State, id: u64, job: u64): (State, bool) {
    match MutexFor(s, id)
    case None => (s, false)
    case Some(m) =>
      if !s.mutexes[m].locked then (s.(mutexes := s.mutexes[m := Mutex(true, job)]), true)
      else (s.(jobs := Inherit(s.jobs, job, s.mutexes[m].holder)), false)
  }

  predicate Holds(s: State, m: int, job: u64)
    requires 0 <= m < |s.mutexes|
  {
    s.mutexes[m].locked && s.mutexes[m].holder == job
  }

  function Restore(jobs: seq<JobSlot>, h: u64): (r: seq<JobSlot>)
    ensures |r| == |jobs|
  {
    match FindJob(jobs, h)
    case Some(k) => jobs[k := jobs[k].(job := jobs[k].job.(effectivePriority := jobs[k].job.basePriority))]
    case None => jobs
  }

  function Unlock(s: State, id: u64, job: u64): State {
    match MutexFor(s, id)
    case Some(m) =>
      if Holds(s, m, job) then
        s.(mutexes := s.mutexes[m := s.mutexes[m].(locked := false)], jobs := Restore(s.jobs, job))
      else s
    case None => s
  }
}
