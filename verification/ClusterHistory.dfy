/** How one job changes over a run of the cluster scheduler: its binding sticks,
    its priority is kept up while others wait on it, it is dispatched to one node
    at a time, and its result can be collected afterwards. */
module ClusterHistory {
  import opened Words
  import opened ClusterState
  import opened ClusterInvariant
  import opened ClusterRuns
  import MM = MemoryManager

  /** `op` gives up a mutex on behalf of job `h`. */
  ghost predicate Unlocks(s: State, op: Op, h: u64) {
    op.Unlocking? && op.job == h && MutexFor(s, op.id).Some? && Holds(s, MutexFor(s, op.id).value, h)
  }

  ghost predicate Reports(op: Op, h: u64) { op.Report? && op.job == h }

  /** What never changes in a live job. */
  ghost predicate SameRequest(j: Job, j': Job) {
    && j'.kind == j.kind && j'.arg0 == j.arg0 && j'.arg1 == j.arg1
    && j'.basePriority == j.basePriority && j'.affinity == j.affinity
    && j'.resourceId == j.resourceId && j'.resourceKind == j.resourceKind && j'.minCapacity == j.minCapacity
    && (j.bound != 0 ==> j'.bound == j.bound)
  }

  /** The same job one step later. `unlocks` and `reports` say whether the step
      was an unlock or a report by this job. */
  ghost predicate Keeps(e: JobSlot, e': JobSlot, unlocks: bool, reports: bool) {
    && e'.handle == e.handle && SameRequest(e.job, e'.job)
    && (!unlocks ==> e.job.effectivePriority <= e'.job.effectivePriority)
    && (!reports && e.job.dispatched ==> e'.job.dispatched)
  }

  /** A job keeps its slot while it lives, and a slot is only refilled under a
      handle that was never used before. */
  ghost predicate SlotStep(s: State, op: Op, e: JobSlot, e': JobSlot) {
    e'.used ==>
      if e.used then Keeps(e, e', Unlocks(s, op, e.handle), Reports(op, e.handle)) else e'.handle !in s.minted
  }

  ghost predicate OneStep(s: State, op: Op, s': State) {
    |s'.jobs| == |s.jobs| && forall i :: 0 <= i < |s.jobs| ==> SlotStep(s, op, s.jobs[i], s'.jobs[i])
  }

  /** No job appears, and every one that stays keeps everything. */
  ghost predicate Quiet(s: State, s': State) {
    && |s'.jobs| == |s.jobs|
    && forall i :: 0 <= i < |s.jobs| && s'.jobs[i].used ==> s.jobs[i].used && Keeps(s.jobs[i], s'.jobs[i], false, false)
  }

  lemma {:induction false} SweepIsQuiet(s: State, node: u64, k: nat)
    requires Inv(s) && k <= |s.jobs|
    ensures Quiet(s, SweepJobs(s, node, k))
    decreases k
  {
    if k > 0 {
      SweepIsQuiet(s, node, k - 1);
    }
  }

  lemma LeaveIsQuiet(s: State, node: u64)
    requires Inv(s)
    ensures Quiet(s, LeaveNode(s, node))
  {
    match FindNode(s.nodes, node, 0)
    case None =>
    case Some(i) =>
      KeepNodeGone(s, i);
      var s1 := s.(nodes := s.nodes[i := s.nodes[i].(used := false)]);
      KeepSweepResources(s1, node, |s1.index|);
      var s2 := SweepResources(s1, node, |s1.index|);
      SweepIsQuiet(s2, node, |s2.jobs|);
  }

  lemma DispatchIsQuiet(s: State, node: u64, k: nat)
    requires k < |s.jobs| && s.jobs[k].used
    ensures Quiet(s, Dispatch(s, node, k))
  {
  }

  lemma ScanIsQuiet(s: State, node: u64)
    ensures Quiet(s, Scanned(s, node))
  {
    forall i | 0 <= i < |s.jobs|
      ensures Scanned(s, node).jobs[i].used ==>
              s.jobs[i].used && Keeps(s.jobs[i], Scanned(s, node).jobs[i], false, false)
    {
      ScanKeepsPlacement(s, node, i);
    }
  }

  lemma QuietChain(a: State, b: State, c: State)
    requires Quiet(a, b) && Quiet(b, c)
    ensures Quiet(a, c)
  {
  }

  lemma GetNextIsQuiet(s: State, node: u64)
    requires Inv(s)
    ensures Quiet(s, GetNextJob(s, node).0)
  {
    ScanIsQuiet(s, node);
    ChosenAfterScan(s, node);
    GetNextParts(s, node);
    if Chosen(s, node) >= 0 {
      DispatchIsQuiet(Scanned(s, node), node, Chosen(s, node));
      QuietChain(s, Scanned(s, node), GetNextJob(s, node).0);
    }
  }

  lemma UnlockStep(s: State, id: u64, job: u64)
    requires Inv(s)
    ensures OneStep(s, Unlocking(id, job), Unlock(s, id, job))
  {
  }

  lemma ReportStep(s: State, h: u64, result: JobResult, blockId: u64, value: u64)
    requires Inv(s)
    ensures OneStep(s, Report(h, result, blockId, value), ReportJobResult(s, h, result, blockId, value))
  {
  }

  lemma LockIsQuiet(s: State, id: u64, job: u64)
    requires Inv(s)
    ensures Quiet(s, TryLock(s, id, job).0)
  {
  }

  lemma StepIsOneStep(s: State, w: MM.Window, op: Op)
    requires Inv(s) && Enabled(s, w, op)
    ensures OneStep(s, op, Next(s, op))
  {
    if SparesJobs(op) {
      SparingStepKeepsInv(s, w, op);
    } else {
      match op
      case Leave(n) => LeaveIsQuiet(s, n);
      case GetNext(n) => GetNextIsQuiet(s, n);
      case Lock(i, j) => LockIsQuiet(s, i, j);
      case Unlocking(i, j) => UnlockStep(s, i, j);
      case Report(j, r, b, v) => ReportStep(s, j, r, b, v);
      case Submit(q, h) =>
    }
  }

  lemma StepMints(s: State, op: Op)
    requires |s.completions| == MAX_JOBS
    ensures s.minted <= Next(s, op).minted
  {
  }

  // ---------------------------------------------------------------- following one job

  ghost predicate Identified(s: State) {
    Distinct(s.jobs) && forall i :: 0 <= i < |s.jobs| && s.jobs[i].used ==> s.jobs[i].handle in s.minted
  }

  /** A run seen through the job table alone. */
  ghost predicate History(ss: seq<State>, ops: seq<Op>) {
    && |ss| == |ops| + 1
    && (forall n :: 0 <= n < |ss| ==> Identified(ss[n]))
    && (forall k :: 0 <= k < |ops| ==> OneStep(ss[k], ops[k], ss[k + 1]) && ss[k].minted <= ss[k + 1].minted)
  }

  lemma RunIsHistory(ss: seq<State>, w: MM.Window, ops: seq<Op>)
    requires IsRun(ss, w, ops)
    ensures History(ss, ops)
  {
    forall n | 0 <= n < |ss|
      ensures Identified(ss[n])
    {
      RunKeepsInv(ss, w, ops, n);
      BoundJobs(ss[n]);
    }
    forall k | 0 <= k < |ops|
      ensures OneStep(ss[k], ops[k], ss[k + 1]) && ss[k].minted <= ss[k + 1].minted
    {
      RunKeepsInv(ss, w, ops, k);
      StepMints(ss[k], ops[k]);
      StepIsOneStep(ss[k], w, ops[k]);
    }
  }

  ghost predicate Occupies(s: State, i: nat, h: u64) {
    i < |s.jobs| && s.jobs[i].used && s.jobs[i].handle == h
  }

  /** One step further: a job is where it was, or it is gone. */
  lemma FollowStep(s: State, op: Op, s': State, i: nat, h: u64)
    requires Identified(s) && Identified(s') && OneStep(s, op, s') && s.minted <= s'.minted && h in s.minted
    requires Live(s.jobs, h) ==> Occupies(s, i, h)
    ensures h in s'.minted
    ensures Live(s'.jobs, h) ==>
              Occupies(s, i, h) && Occupies(s', i, h) && Keeps(s.jobs[i], s'.jobs[i], Unlocks(s, op, h), Reports(op, h))
  {
    if Live(s'.jobs, h) {
      var j :| 0 <= j < |s'.jobs| && s'.jobs[j].used && s'.jobs[j].handle == h;
      assert SlotStep(s, op, s.jobs[j], s'.jobs[j]);
      assert Live(s.jobs, h);
    }
  }

  /** A live job keeps its slot and its request, and once bound its binding; a
      finished one never comes back under the same handle. */
  lemma {:induction false} Follow(ss: seq<State>, ops: seq<Op>, a: nat, b: nat, i: nat, h: u64)
    requires History(ss, ops) && a <= b < |ss| && Occupies(ss[a], i, h)
    ensures h in ss[b].minted
    ensures Live(ss[b].jobs, h) ==> Occupies(ss[b], i, h) && SameRequest(ss[a].jobs[i].job, ss[b].jobs[i].job)
    decreases b - a
  {
    assert Identified(ss[b]);
    if a < b {
      Follow(ss, ops, a, b - 1, i, h);
      FollowStep(ss[b - 1], ops[b - 1], ss[b], i, h);
    }
  }

  /** In every reachable state a live job bound to a live resource is its
      reserver, so two live jobs are never bound to the same live resource. */
  lemma ExclusiveBinding(ss: seq<State>, w: MM.Window, ops: seq<Op>, n: nat, i: nat, j: nat)
    requires IsRun(ss, w, ops) && n < |ss| && i < |ss[n].jobs| && j < |ss[n].jobs|
    requires ss[n].jobs[i].used && ss[n].jobs[j].used
    requires ss[n].jobs[i].job.bound == ss[n].jobs[j].job.bound != 0 && ss[n].jobs[i].job.bound in ss[n].resources
    ensures i == j && ss[n].resources[ss[n].jobs[i].job.bound].reservedBy == ss[n].jobs[i].handle
  {
    RunKeepsInv(ss, w, ops, n);
    BoundJobs(ss[n]);
  }

  /** A binding is permanent. */
  lemma StickyBinding(ss: seq<State>, w: MM.Window, ops: seq<Op>, a: nat, b: nat, i: nat, j: nat)
    requires IsRun(ss, w, ops) && a <= b < |ss| && i < |ss[a].jobs| && j < |ss[b].jobs|
    requires ss[a].jobs[i].used && ss[b].jobs[j].used && ss[a].jobs[i].handle == ss[b].jobs[j].handle
    requires ss[a].jobs[i].job.bound != 0
    ensures ss[b].jobs[j].job.bound == ss[a].jobs[i].job.bound
  {
    RunIsHistory(ss, w, ops);
    Follow(ss, ops, a, b, i, ss[a].jobs[i].handle);
    assert Identified(ss[b]);
  }

  // ---------------------------------------------------------------- priority inheritance

  lemma {:induction false} PriorityLasts(ss: seq<State>, ops: seq<Op>, a: nat, b: nat, i: nat, h: u64)
    requires History(ss, ops) && a <= b < |ss| && Occupies(ss[a], i, h)
    requires forall k :: a <= k < b ==> !Unlocks(ss[k], ops[k], h)
    ensures Live(ss[b].jobs, h) ==>
              Occupies(ss[b], i, h) && ss[a].jobs[i].job.effectivePriority <= ss[b].jobs[i].job.effectivePriority
    decreases b - a
  {
    Follow(ss, ops, a, b, i, h);
    if a < b {
      Follow(ss, ops, a, b - 1, i, h);
      PriorityLasts(ss, ops, a, b - 1, i, h);
      FollowStep(ss[b - 1], ops[b - 1], ss[b], i, h);
    }
  }

  ghost predicate Contends(s: State, op: Op, m: nat, self: nat, holder: nat) {
    && op.Lock? && MutexFor(s, op.id) == Some(m) && s.mutexes[m].locked
    && Occupies(s, self, op.job) && Occupies(s, holder, s.mutexes[m].holder)
  }

  lemma ContentionRaises(s: State, op: Op, m: nat, self: nat, holder: nat)
    requires Inv(s) && Contends(s, op, m, self, holder)
    ensures Occupies(Next(s, op), holder, s.mutexes[m].holder)
    ensures s.jobs[self].job.effectivePriority <= Next(s, op).jobs[holder].job.effectivePriority
  {
    BoundJobs(s);
    FindLive(s.jobs, self);
    FindLive(s.jobs, holder);
  }

  /** After a failed try_lock the holder runs at no less than the contender's
      priority at that moment, until the holder's next successful unlock. */
  lemma PriorityInheritance(ss: seq<State>, w: MM.Window, ops: seq<Op>, a: nat, b: nat, m: nat, self: nat, holder: nat)
    requires IsRun(ss, w, ops) && a < b < |ss| && Contends(ss[a], ops[a], m, self, holder)
    requires forall k :: a < k < b ==> !Unlocks(ss[k], ops[k], ss[a].mutexes[m].holder)
    ensures Live(ss[b].jobs, ss[a].mutexes[m].holder) ==>
              && Occupies(ss[b], holder, ss[a].mutexes[m].holder)
              && ss[a].jobs[self].job.effectivePriority <= ss[b].jobs[holder].job.effectivePriority
  {
    RunKeepsInv(ss, w, ops, a);
    RunIsHistory(ss, w, ops);
    ContentionRaises(ss[a], ops[a], m, self, holder);
    PriorityLasts(ss, ops, a + 1, b, holder, ss[a].mutexes[m].holder);
  }

  lemma UnlockRestores(s: State, op: Op, i: nat, h: u64)
    requires Inv(s) && Unlocks(s, op, h) && Occupies(s, i, h)
    ensures var s' := Next(s, op);
            && Occupies(s', i, h) && s'.jobs[i].job.basePriority == s.jobs[i].job.basePriority
            && s'.jobs[i].job.effectivePriority == s.jobs[i].job.basePriority
  {
    assert SlotOk(s, s.jobs[i]);
    FindLive(s.jobs, i);
  }

  /** Any successful unlock by the holder ends what it inherited, also from a contention on a
      mutex it goes on holding: afterwards it still ranks with the contender if and only if
      its base priority does. */
  lemma UnlockKeepsInheritanceIff(ss: seq<State>, w: MM.Window, ops: seq<Op>, a: nat, b: nat, m: nat, self: nat,
                                  holder: nat)
    requires IsRun(ss, w, ops) && a < b < |ops| && Contends(ss[a], ops[a], m, self, holder)
    requires Unlocks(ss[b], ops[b], ss[a].mutexes[m].holder) && Live(ss[b].jobs, ss[a].mutexes[m].holder)
    ensures Occupies(ss[b + 1], holder, ss[a].mutexes[m].holder)
    ensures ss[a].jobs[self].job.effectivePriority <= ss[b + 1].jobs[holder].job.effectivePriority <==>
            ss[a].jobs[self].job.effectivePriority <= ss[a].jobs[holder].job.basePriority
  {
    RunIsHistory(ss, w, ops);
    Follow(ss, ops, a, b, holder, ss[a].mutexes[m].holder);
    RunKeepsInv(ss, w, ops, b);
    UnlockRestores(ss[b], ops[b], holder, ss[a].mutexes[m].holder);
  }

  /** Outside that, no job runs above its base priority without holding a mutex. */
  lemma NoStrayBoost(ss: seq<State>, w: MM.Window, ops: seq<Op>, n: nat, i: nat)
    requires IsRun(ss, w, ops) && n < |ss| && i < |ss[n].jobs| && ss[n].jobs[i].used
    ensures ss[n].jobs[i].job.basePriority <= ss[n].jobs[i].job.effectivePriority
    ensures !HoldsSome(ss[n].mutexes, ss[n].jobs[i].handle) ==>
            ss[n].jobs[i].job.basePriority == ss[n].jobs[i].job.effectivePriority
  {
    RunKeepsInv(ss, w, ops, n);
    assert SlotOk(ss[n], ss[n].jobs[i]);
  }

  // ---------------------------------------------------------------- dispatch

  lemma {:induction false} StaysDispatched(ss: seq<State>, ops: seq<Op>, a: nat, b: nat, i: nat, h: u64)
    requires History(ss, ops) && a <= b < |ss| && Occupies(ss[a], i, h) && ss[a].jobs[i].job.dispatched
    requires forall k :: a <= k < b ==> !Reports(ops[k], h)
    ensures Live(ss[b].jobs, h) ==> Occupies(ss[b], i, h) && ss[b].jobs[i].job.dispatched
    decreases b - a
  {
    Follow(ss, ops, a, b, i, h);
    if a < b {
      Follow(ss, ops, a, b - 1, i, h);
      StaysDispatched(ss, ops, a, b - 1, i, h);
      FollowStep(ss[b - 1], ops[b - 1], ss[b], i, h);
    }
  }

  ghost predicate HandsOut(s: State, op: Op, i: nat, h: u64) {
    op.GetNext? && GetNextJob(s, op.node).1 == i && Occupies(s, i, h)
  }

  lemma DispatchMarks(s: State, node: u64, k: nat)
    requires k < |s.jobs|
    ensures var e := Dispatch(s, node, k).jobs[k];
            e.used == s.jobs[k].used && e.handle == s.jobs[k].handle && e.job.dispatched
  {
  }

  lemma HandedOutIsDispatched(s: State, op: Op, s': State, i: nat, h: u64)
    requires HandsOut(s, op, i, h) && s' == GetNextJob(s, op.node).0
    ensures !s.jobs[i].job.dispatched
    ensures Occupies(s', i, h) && s'.jobs[i].job.dispatched
  {
    GetNextParts(s, op.node);
    ChosenIsConsidered(s, op.node);
    ScanKeepsPlacement(s, op.node, i);
    DispatchMarks(Scanned(s, op.node), op.node, i);
  }

  /** A dispatched job is offered to no node before somebody reports on it. This
      is what keeps one job off two nodes. It also strands a job whose node
      leaves while running it: LEAVE_NODE unassigns it and leaves the mark. */
  lemma NoDoubleDispatch(ss: seq<State>, w: MM.Window, ops: seq<Op>, a: nat, b: nat, i: nat, j: nat, h: u64)
    requires IsRun(ss, w, ops) && a < b < |ops|
    requires HandsOut(ss[a], ops[a], i, h) && HandsOut(ss[b], ops[b], j, h)
    ensures exists c :: a < c < b && Reports(ops[c], h)
  {
    RunIsHistory(ss, w, ops);
    HandedOutIsDispatched(ss[a], ops[a], ss[a + 1], i, h);
    HandedOutIsDispatched(ss[b], ops[b], ss[b + 1], j, h);
    MarkedTwice(ss, ops, a + 1, b, i, j, h);
  }

  lemma MarkedTwice(ss: seq<State>, ops: seq<Op>, a: nat, b: nat, i: nat, j: nat, h: u64)
    requires History(ss, ops) && a <= b < |ss|
    requires Occupies(ss[a], i, h) && ss[a].jobs[i].job.dispatched
    requires Occupies(ss[b], j, h) && !ss[b].jobs[j].job.dispatched
    ensures exists c :: a <= c < b && Reports(ops[c], h)
  {
    assert Live(ss[b].jobs, h) && Identified(ss[b]);
    if forall c :: a <= c < b ==> !Reports(ops[c], h) {
      StaysDispatched(ss, ops, a, b, i, h);
    }
  }

  // ---------------------------------------------------------------- completions

  /** `op` takes the free mutex m for job h. */
  ghost predicate Takes(s: State, op: Op, m: nat, h: u64) {
    op.Lock? && op.job == h && MutexFor(s, op.id) == Some(m) && !s.mutexes[m].locked
  }

  /** `op` gives up mutex m on behalf of its holder h. */
  ghost predicate GivesUp(s: State, op: Op, m: nat, h: u64) {
    op.Unlocking? && op.job == h && MutexFor(s, op.id) == Some(m) && Holds(s, m, h)
  }

  ghost predicate HeldBy(s: State, m: nat, h: u64) { m < |s.mutexes| && Holds(s, m, h) }

  /** A held mutex stays with its holder except when the holder gives it up. */
  lemma HeldStep(s: State, op: Op, m: nat, h: u64)
    requires |s.completions| == MAX_JOBS && HeldBy(s, m, h) && !GivesUp(s, op, m, h)
    ensures HeldBy(Next(s, op), m, h)
  {
  }

  lemma TakeHolds(s: State, op: Op, m: nat, h: u64)
    requires |s.completions| == MAX_JOBS && Takes(s, op, m, h)
    ensures HeldBy(Next(s, op), m, h)
  {
  }

  /** While it is held, nobody takes it: job h has it from step a until h gives it up. */
  lemma {:induction false} StaysHeld(ss: seq<State>, w: MM.Window, ops: seq<Op>, a: nat, b: nat, m: nat, h: u64)
    requires IsRun(ss, w, ops) && a < b < |ss| && Takes(ss[a], ops[a], m, h)
    requires forall c :: a < c < b ==> !GivesUp(ss[c], ops[c], m, h)
    ensures HeldBy(ss[b], m, h)
    decreases b
  {
    if b == a + 1 {
      TakeHolds(ss[a], ops[a], m, h);
    } else {
      StaysHeld(ss, w, ops, a, b - 1, m, h);
      HeldStep(ss[b - 1], ops[b - 1], m, h);
    }
  }

  /** Mutual exclusion: between two successful try_locks of a mutex, the first job gave it up. */
  lemma MutexExclusion(ss: seq<State>, w: MM.Window, ops: seq<Op>, a: nat, b: nat, m: nat, h: u64, g: u64)
    requires IsRun(ss, w, ops) && a < b < |ops| && Takes(ss[a], ops[a], m, h) && Takes(ss[b], ops[b], m, g)
    ensures exists c :: a < c < b && GivesUp(ss[c], ops[c], m, h)
  {
    if forall c :: a < c < b ==> !GivesUp(ss[c], ops[c], m, h) {
      StaysHeld(ss, w, ops, a, b, m, h);
    }
  }

  ghost predicate Completes(s: State, op: Op) {
    op.Report? && op.result.Finished? && FindJob(s.jobs, op.job).Some?
  }

  lemma CompletionStep(s: State, op: Op)
    requires |s.completions| == MAX_JOBS
    ensures var s' := Next(s, op);
            if Completes(s, op) then
              && s'.completionNext == s.completionNext + 1
              && s'.completions == s.completions[s.completionNext % MAX_JOBS := Completion(true, op.job, op.value)]
            else s'.completionNext == s.completionNext && s'.completions == s.completions
  {
  }

  ghost predicate Forgotten(s: State, h: u64) {
    forall i :: 0 <= i < |s.completions| && s.completions[i].used ==> s.completions[i].job != h
  }

  /** Where job `h`'s result is, `n` being the ring position it was written at. */
  ghost predicate ResultAt(s: State, h: u64, v: u64, n: nat) {
    && |s.completions| == MAX_JOBS && h in s.minted && !Live(s.jobs, h) && n < s.completionNext
    && if s.completionNext <= n + MAX_JOBS then s.completions[n % MAX_JOBS] == Completion(true, h, v)
       else Forgotten(s, h)
  }

  lemma RingSlot(n: nat, m: nat)
    requires n < m < n + MAX_JOBS
    ensures n % MAX_JOBS != m % MAX_JOBS
  {
  }

  lemma ResultStep(s: State, w: MM.Window, op: Op, h: u64, v: u64, n: nat)
    requires Inv(s) && Enabled(s, w, op) && ResultAt(s, h, v, n)
    ensures ResultAt(Next(s, op), h, v, n)
  {
    var s' := Next(s, op);
    StepKeepsInv(s, w, op);
    StepMints(s, op);
    StepIsOneStep(s, w, op);
    BoundJobs(s);
    BoundJobs(s');
    FollowStep(s, op, s', 0, h);
    CompletionStep(s, op);
    if Completes(s, op) {
      assert op.job != h;
      if s.completionNext < n + MAX_JOBS {
        RingSlot(n, s.completionNext);
      }
    }
  }

  lemma FinishRecords(s: State, op: Op)
    requires Inv(s) && Completes(s, op)
    ensures ResultAt(Next(s, op), op.job, op.value, s.completionNext)
  {
    var k := FindJob(s.jobs, op.job).value;
    BoundJobs(s);
    CompletionStep(s, op);
  }

  lemma {:induction false} ResultKept(ss: seq<State>, w: MM.Window, ops: seq<Op>, a: nat, b: nat)
    requires IsRun(ss, w, ops) && a < b < |ss| && Completes(ss[a], ops[a])
    ensures ResultAt(ss[b], ops[a].job, ops[a].value, ss[a].completionNext)
    decreases b - a
  {
    RunKeepsInv(ss, w, ops, b - 1);
    if b == a + 1 {
      FinishRecords(ss[a], ops[a]);
    } else {
      ResultKept(ss, w, ops, a, b - 1);
      ResultStep(ss[b - 1], w, ops[b - 1], ops[a].job, ops[a].value, ss[a].completionNext);
    }
  }

  /** GET_JOB_RESULT returns a finished job's value exactly until MAX_JOBS later
      jobs have finished, and nothing from then on. */
  lemma ResultCollectable(ss: seq<State>, w: MM.Window, ops: seq<Op>, a: nat, b: nat)
    requires IsRun(ss, w, ops) && a < b < |ss| && Completes(ss[a], ops[a])
    ensures GetJobResult(ss[b], ops[a].job) ==
            if ss[b].completionNext <= ss[a].completionNext + MAX_JOBS then Some(ops[a].value) else None
  {
    ResultKept(ss, w, ops, a, b);
    RunKeepsInv(ss, w, ops, b);
  }
}
