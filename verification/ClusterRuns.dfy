/** Runs of the cluster scheduler: any sequence of its methods, of direct calls
    on resource objects and of calls on the memory manager, and what holds over
    all of them. */
module ClusterRuns {
  import opened Words
  import opened ClusterState
  import opened ClusterInvariant
  import MM = MemoryManager

  datatype Op =
    | Join(node: u64, h: u64)
    | Leave(node: u64)
    | Request(node: u64, base: u64, size: u64, kind: u64, sync: u64, h: u64)
    | Declare(node: u64, kind: u64, descriptor: u64, capacity: u64, sync: u64, h: u64)
    | Reassign(r: u64, node: u64)
    | Submit(spec: JobSpec, h: u64)
    | GetNext(node: u64)
    | Report(job: u64, result: JobResult, blockId: u64, value: u64)
    | Lock(id: u64, job: u64)
    | Unlocking(id: u64, job: u64)
    | Allocate(node: u64, job: u64, size: u64, kind: u64, sync: u64, h: u64, placed: Option<u64>)
    | ReleaseOf(r: u64, job: u64)
    // on a resource object itself
    | ReserveDirect(r: u64, job: u64)
    | ReleaseDirect(r: u64, job: u64)
    | ReassignDirect(r: u64, node: u64)
    // on the memory manager itself
    | ClaimDirect(base: u64, size: u64, kind: u64)
    | AllocDirect(size: u64, kind: u64, placed: Option<u64>)
    | FreeDirect(base: u64)

  ghost function Next(s: State, op: Op): State
    requires |s.completions| == MAX_JOBS
  {
    match op
    case Join(n, h) => JoinNode(s, n, h).0
    case Leave(n) => LeaveNode(s, n)
    case Request(n, b, z, k, y, h) => RequestAllocation(s, n, b, z, k, y, h).0
    case Declare(n, k, d, c, y, h) => DeclareResource(s, n, k, d, c, y, h).0
    case Reassign(r, n) => ReassignResource(s, r, n).0
    case Submit(q, h) => SubmitJob(s, q, h).0
    case GetNext(n) => GetNextJob(s, n).0
    case Report(j, r, b, v) => ReportJobResult(s, j, r, b, v)
    case Lock(i, j) => TryLock(s, i, j).0
    case Unlocking(i, j) => Unlock(s, i, j)
    case Allocate(n, j, z, k, y, h, p) => AllocateSlice(s, n, j, z, k, y, h, p).0
    case ReleaseOf(r, j) => ReleaseSlice(s, r, j).0
    case ReserveDirect(r, j) => s.(resources := Reserve(s.resources, r, j).0)
    case ReleaseDirect(r, j) => s.(resources := Release(s.resources, r, j))
    case ReassignDirect(r, n) => s.(resources := Reown(s.resources, r, n))
    case ClaimDirect(b, z, k) => s.(claims := MM.Claimed(s.claims, b, z, k))
    case AllocDirect(z, k, p) => s.(claims := s.claims + (if p.Some? then [MM.Claim(p.value, z, k, true)] else []))
    case FreeDirect(b) => s.(claims := MM.Freed(s.claims, b))
  }

  ghost predicate BoundThrough(s: State, r: u64, job: u64) {
    r != 0 && exists i :: 0 <= i < |s.jobs| && s.jobs[i].used && s.jobs[i].handle == job && s.jobs[i].job.bound == r
  }

  ghost function Handle(op: Op): u64 {
    match op
    case Join(_, h) => h
    case Request(_, _, _, _, _, h) => h
    case Declare(_, _, _, _, _, h) => h
    case Submit(_, h) => h
    case Allocate(_, _, _, _, _, h, _) => h
    case _ => 0
  }

  /** What the environment owes: the factory never repeats a handle, the memory
      manager answers as specified, and nobody gives back a reservation on behalf
      of a job bound through it. */
  ghost predicate Enabled(s: State, w: MM.Window, op: Op) {
    && Fresh(s, Handle(op))
    && match op
       case Allocate(_, _, z, _, _, _, p) => MM.Answers(s.claims, w, z, p)
       case AllocDirect(z, _, p) => MM.Answers(s.claims, w, z, p)
       case ReleaseDirect(r, j) => !BoundThrough(s, r, j)
       case _ => true
  }

  lemma KeepCreateWith(s: State, t: MM.Table, h: u64, rd: Resource)
    requires Inv(s) && Fresh(s, h)
    ensures Inv(CreateResource(s.(claims := t), h, rd).0)
  {
    KeepClaims(s, t);
    KeepCreate(s.(claims := t), h, rd);
  }

  /** Methods that leave the job table alone. */
  ghost predicate SparesJobs(op: Op) {
    !op.Leave? && !op.Submit? && !op.GetNext? && !op.Report? && !op.Lock? && !op.Unlocking?
  }

  lemma CreatingStepKeepsInv(s: State, w: MM.Window, op: Op)
    requires Inv(s) && Enabled(s, w, op) && (op.Join? || op.Request? || op.Declare? || op.Allocate?)
    ensures Inv(Next(s, op)) && Next(s, op).jobs == s.jobs
  {
    match op
    case Join(n, h) => KeepJoin(s, n, h);
    case Request(n, b, z, k, y, h) =>
      KeepCreateWith(s, MM.Claimed(s.claims, b, z, k), h, Resource(n, KIND_MEMORY, b, z, 0, y));
    case Declare(n, k, d, c, y, h) => KeepCreate(s, h, Resource(n, k, d, c, 0, y));
    case Allocate(n, j, z, k, y, h, p) =>
      if p.Some? {
        KeepCreateWith(s, s.claims + [MM.Claim(p.value, z, k, true)], h, Resource(n, KIND_MEMORY, p.value, z, j, y));
      }
  }

  lemma SparingStepKeepsInv(s: State, w: MM.Window, op: Op)
    requires Inv(s) && Enabled(s, w, op) && SparesJobs(op)
    ensures Inv(Next(s, op)) && Next(s, op).jobs == s.jobs
  {
    if op.Join? || op.Request? || op.Declare? || op.Allocate? {
      CreatingStepKeepsInv(s, w, op);
    } else {
      match op
      case Reassign(r, n) => KeepReown(s, r, n);
      case ReleaseOf(r, j) => KeepReleaseSlice(s, r, j);
      case ReserveDirect(r, j) => KeepReserve(s, r, j);
      case ReleaseDirect(r, j) => KeepRelease(s, r, j);
      case ReassignDirect(r, n) => KeepReown(s, r, n);
      case ClaimDirect(b, z, k) => KeepClaims(s, MM.Claimed(s.claims, b, z, k));
      case AllocDirect(z, k, p) => KeepClaims(s, s.claims + (if p.Some? then [MM.Claim(p.value, z, k, true)] else []));
      case FreeDirect(b) => KeepClaims(s, MM.Freed(s.claims, b));
    }
  }

  lemma StepKeepsInv(s: State, w: MM.Window, op: Op)
    requires Inv(s) && Enabled(s, w, op)
    ensures Inv(Next(s, op))
  {
    if SparesJobs(op) {
      SparingStepKeepsInv(s, w, op);
    } else {
      match op
      case Leave(n) => KeepLeave(s, n);
      case Submit(q, h) => KeepSubmit(s, q, h);
      case GetNext(n) => KeepGetNext(s, n);
      case Report(j, r, b, v) => KeepReport(s, j, r, b, v);
      case Lock(i, j) => KeepTryLock(s, i, j);
      case Unlocking(i, j) => KeepUnlock(s, i, j);
    }
  }

  /** Why that last duty is there: giving back a reservation from outside breaks
      the invariant exactly when a live job is bound to the live resource through it. */
  lemma OutsideReleaseIsSafeIff(s: State, r: u64, job: u64)
    requires Inv(s)
    ensures Inv(Next(s, ReleaseDirect(r, job))) <==> !(BoundThrough(s, r, job) && r in s.resources)
  {
    var s' := Next(s, ReleaseDirect(r, job));
    if BoundThrough(s, r, job) && r in s.resources {
      var i :| 0 <= i < |s.jobs| && s.jobs[i].used && s.jobs[i].handle == job && s.jobs[i].job.bound == r;
      assert SlotOk(s, s.jobs[i]) && !SlotOk(s', s'.jobs[i]);
    } else if r in s.resources {
      KeepRelease(s, r, job);
    }
  }

  lemma BootKeepsInv(w: MM.Window, claims: MM.Table, h: u64)
    requires w.min <= w.max
    ensures Inv(Boot(w, claims, h))
  {
    var empty := Boot(w, claims, 0).(resourceNext := 0);
    assert Inv(empty);
    KeepCreate(empty, h, PoolResource(w));
    var (s, r) := CreateResource(empty, h, PoolResource(w));
    BoundJobs(s);
    KeepJobs(s, s.(pool := r));
  }

  /** The states of a run: `ss[i + 1]` is what `ops[i]` makes of `ss[i]`. */
  ghost predicate IsRun(ss: seq<State>, w: MM.Window, ops: seq<Op>) {
    && |ss| == |ops| + 1 && Inv(ss[0])
    && forall i :: 0 <= i < |ops| ==>
                     |ss[i].completions| == MAX_JOBS && Enabled(ss[i], w, ops[i]) && ss[i + 1] == Next(ss[i], ops[i])
  }

  lemma {:induction false} RunKeepsInv(ss: seq<State>, w: MM.Window, ops: seq<Op>, n: nat)
    requires IsRun(ss, w, ops) && n < |ss|
    ensures Inv(ss[n])
  {
    if n > 0 {
      RunKeepsInv(ss, w, ops, n - 1);
      StepKeepsInv(ss[n - 1], w, ops[n - 1]);
    }
  }
}
