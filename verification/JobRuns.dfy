/** Whole runs of the executor: spawns, one kickoff, then the running jobs' waits and wakes. */
module JobRuns {
  import opened Words
  import opened JobExec

  datatype Op =
    | DoSpawn(rsp: u64, priority: int)
    | DoKickoff(slot: nat)
    | DoWait(q: Queue, rsp: u64)
    | DoWake(q: Queue, rsp: u64)

  /** A highest-priority ready slot. */
  predicate Top(t: seq<Slot>, k: nat) {
    k < |t| && t[k].state == Ready && forall i :: 0 <= i < |t| && t[i].state == Ready ==> t[i].priority <= t[k].priority
  }

  /** Spawning comes before the kickoff, everything else but it after; a halted core does no
      more. */
  predicate Enabled(c: Core, op: Op)
    requires Sized(c)
  {
    && !c.halted
    && (op.DoSpawn? ==> c.current == -1)
    && (op.DoKickoff? ==> c.current == -1 && Top(c.table, op.slot))
    && (op.DoWait? ==> c.current >= 0)
  }

  function Next(c: Core, op: Op): (r: Core)
    requires Sized(c) && (op.DoKickoff? ==> op.slot < MAX_RESIDENT) && (op.DoWait? ==> c.current >= 0)
    ensures Sized(r)
  {
    match op
    case DoSpawn(rsp, p) => Spawn(c, rsp, p).0
    case DoKickoff(k) => Kickoff(c, k)
    case DoWait(q, rsp) => Wait(c, q, rsp)
    case DoWake(q, rsp) => Wake(c, q, rsp)
  }

  function Boot(): (r: Core)
    ensures Sized(r)
  {
    Core(seq(MAX_RESIDENT, _ => Slot(0, 0, Unused, None)), -1, false)
  }

  // What every reachable state keeps.

  predicate Waiting(t: seq<Slot>) { forall i :: 0 <= i < |t| ==> (t[i].state == Blocked <==> t[i].waitingOn.Some?) }

  predicate NoneRuns(t: seq<Slot>) { forall i :: 0 <= i < |t| ==> t[i].state != Running }

  /** Exactly this slot runs, and nothing ready outranks it. */
  predicate Runs(t: seq<Slot>, k: nat) {
    && k < |t| && t[k].state == Running
    && (forall i :: 0 <= i < |t| && t[i].state == Running ==> i == k)
    && (forall i :: 0 <= i < |t| && t[i].state == Ready ==> t[i].priority <= t[k].priority)
  }

  predicate NoneReady(t: seq<Slot>) { forall i :: 0 <= i < |t| ==> t[i].state == Unused || t[i].state == Blocked }

  predicate Inv(c: Core) {
    && Sized(c) && Waiting(c.table)
    && if c.halted then c.current >= 0 && NoneReady(c.table)
       else if c.current == -1 then NoneRuns(c.table)
       else Runs(c.table, c.current)
  }

  lemma SpawnKeepsInv(c: Core, rsp: u64, priority: int)
    requires Inv(c) && Enabled(c, DoSpawn(rsp, priority))
    ensures Inv(Spawn(c, rsp, priority).0)
  {
  }

  /** The kickoff establishes the running invariant exactly for a highest-priority ready slot
      (or one no ready slot outranks). */
  lemma KickoffRunsIff(c: Core, k: nat)
    requires Inv(c) && c.current == -1 && !c.halted && k < MAX_RESIDENT && c.table[k].state == Ready
    ensures Inv(Kickoff(c, k)) <==> Top(c.table, k)
  {
    var t := Kickoff(c, k).table;
    if Inv(Kickoff(c, k)) {
      forall i | 0 <= i < |t| && c.table[i].state == Ready
        ensures c.table[i].priority <= c.table[k].priority
      {
        assert i != k ==> t[i].state == Ready;
      }
    }
  }

  lemma WaitKeepsInv(c: Core, q: Queue, rsp: u64)
    requires Inv(c) && Enabled(c, DoWait(q, rsp))
    ensures Inv(Wait(c, q, rsp))
  {
    var t := c.table[c.current := c.table[c.current].(state := Blocked, waitingOn := Some(q))];
    PickIsBest(t, AnyReady);
  }

  lemma WakeKeepsInv(c: Core, q: Queue, rsp: u64)
    requires Inv(c) && Enabled(c, DoWake(q, rsp))
    ensures Inv(Wake(c, q, rsp))
  {
    PickIsBest(c.table, Waiter(q));
  }

  lemma StepKeepsInv(c: Core, op: Op)
    requires Inv(c) && Enabled(c, op)
    ensures Inv(Next(c, op))
  {
    match op
    case DoSpawn(rsp, p) => SpawnKeepsInv(c, rsp, p);
    case DoKickoff(k) => KickoffRunsIff(c, k);
    case DoWait(q, rsp) => WaitKeepsInv(c, q, rsp);
    case DoWake(q, rsp) => WakeKeepsInv(c, q, rsp);
  }

  /** A job spawned while another runs keeps the invariant exactly when it does not outrank
      the running one: spawning never preempts. */
  lemma LateSpawnKeepsIff(c: Core, rsp: u64, priority: int)
    requires Inv(c) && !c.halted && c.current >= 0 && Spawn(c, rsp, priority).1 >= 0
    ensures Inv(Spawn(c, rsp, priority).0) <==> priority <= c.table[c.current].priority
  {
    var k := Spawn(c, rsp, priority).1;
    FreeIsFirst(c.table, 0);
    assert Spawn(c, rsp, priority).0.table[k].priority == priority;
  }

  /** Waiting halts exactly when no other slot is ready; then every spawned job is blocked. */
  lemma WaitHaltsIff(c: Core, q: Queue, rsp: u64)
    requires Inv(c) && Enabled(c, DoWait(q, rsp))
    ensures Wait(c, q, rsp).halted <==> forall i :: 0 <= i < |c.table| ==> c.table[i].state != Ready
  {
    var t := c.table[c.current := c.table[c.current].(state := Blocked, waitingOn := Some(q))];
    PickIsBest(t, AnyReady);
    if k :| 0 <= k < |c.table| && c.table[k].state == Ready {
      assert Fits(t[k], AnyReady);
    }
    if !Wait(c, q, rsp).halted {
      assert c.table[Pick(t, AnyReady).value].state == Ready;
    }
  }

  /** After a wait that does not halt, the first of the highest-priority ready slots runs. */
  lemma WaitRunsBest(c: Core, q: Queue, rsp: u64)
    requires Inv(c) && Enabled(c, DoWait(q, rsp)) && !Wait(c, q, rsp).halted
    ensures Wait(c, q, rsp).current >= 0 && IsBest(c.table, AnyReady, |c.table|, Some(Wait(c, q, rsp).current))
  {
    var t := c.table[c.current := c.table[c.current].(state := Blocked, waitingOn := Some(q))];
    PickIsBest(t, AnyReady);
    assert forall i :: 0 <= i < |t| ==>
      (Fits(t[i], AnyReady) <==> Fits(c.table[i], AnyReady)) && t[i].priority == c.table[i].priority;
  }

  /** A wake preempts exactly when some waiter on the queue strictly outranks the caller; then
      the best waiter runs and the caller is ready. Otherwise the caller goes on. */
  lemma WakePreemptsIff(c: Core, q: Queue, rsp: u64)
    requires Inv(c) && Enabled(c, DoWake(q, rsp)) && c.current >= 0
    ensures Wake(c, q, rsp).current != c.current <==>
            exists k :: 0 <= k < |c.table| && Fits(c.table[k], Waiter(q))
                        && c.table[k].priority > c.table[c.current].priority
    ensures Wake(c, q, rsp).current != c.current ==>
            && Wake(c, q, rsp).current >= 0 && IsBest(c.table, Waiter(q), |c.table|, Some(Wake(c, q, rsp).current))
            && Wake(c, q, rsp).table[c.current].state == Ready
  {
    PickIsBest(c.table, Waiter(q));
  }

  // What one step does to one slot.

  /** Selected: the highest-priority waiter on q, first among equals. */
  predicate Selected(t: seq<Slot>, q: Queue, k: nat) { IsBest(t, Waiter(q), |t|, Some(k)) }

  /** The slot leaves the processor in this step. */
  predicate Leaves(c: Core, d: Core, k: nat) { c.current == k && d.current != k }

  /** A used slot stays used with its priority; a blocked one changes exactly when a wake of
      its queue selects it; its stack pointer is saved exactly as it leaves. */
  predicate SlotChange(s: Slot, op: Op, s': Slot, selected: bool, leaves: bool) {
    && (s.state != Unused ==> s'.state != Unused && s'.priority == s.priority)
    && (s.state == Blocked ==>
          if op.DoWake? && s.waitingOn == Some(op.q) && selected then s'.state != Blocked else s' == s)
    && (s.state != Unused ==>
          if leaves then (op.DoWait? || op.DoWake?) && s'.savedRsp == op.rsp else s'.savedRsp == s.savedRsp)
  }

  predicate SlotStep(c: Core, op: Op, d: Core, k: nat)
    requires Sized(c) && Sized(d) && k < MAX_RESIDENT
  {
    SlotChange(c.table[k], op, d.table[k], op.DoWake? && Selected(c.table, op.q, k), Leaves(c, d, k))
  }

  lemma WaitSlot(c: Core, q: Queue, rsp: u64, k: nat)
    requires Inv(c) && Enabled(c, DoWait(q, rsp)) && k < MAX_RESIDENT
    ensures SlotStep(c, DoWait(q, rsp), Wait(c, q, rsp), k)
  {
    var t := c.table[c.current := c.table[c.current].(state := Blocked, waitingOn := Some(q))];
    PickIsBest(t, AnyReady);
  }

  lemma SelectedIsPick(t: seq<Slot>, q: Queue, k: nat)
    requires Selected(t, q, k)
    ensures Pick(t, Waiter(q)) == Some(k)
  {
    PickIsBest(t, Waiter(q));
    assert Fits(t[k], Waiter(q));
  }

  lemma WakeSlot(c: Core, q: Queue, rsp: u64, k: nat)
    requires Inv(c) && Enabled(c, DoWake(q, rsp)) && k < MAX_RESIDENT
    ensures SlotStep(c, DoWake(q, rsp), Wake(c, q, rsp), k)
  {
    PickIsBest(c.table, Waiter(q));
    if Selected(c.table, q, k) { SelectedIsPick(c.table, q, k); }
  }

  lemma StepSlot(c: Core, op: Op, k: nat)
    requires Inv(c) && Enabled(c, op) && k < MAX_RESIDENT
    ensures SlotStep(c, op, Next(c, op), k)
  {
    match op
    case DoSpawn(_, _) => FreeIsFirst(c.table, 0);
    case DoKickoff(_) =>
    case DoWait(q, rsp) => WaitSlot(c, q, rsp, k);
    case DoWake(q, rsp) => WakeSlot(c, q, rsp, k);
  }

  // Runs.

  ghost predicate IsStep(c: Core, op: Op, d: Core) { Sized(c) && Enabled(c, op) && d == Next(c, op) }

  ghost predicate IsRun(cs: seq<Core>, ops: seq<Op>) {
    && |cs| == |ops| + 1 && cs[0] == Boot()
    && forall i :: 0 <= i < |ops| ==> IsStep(cs[i], ops[i], cs[i + 1])
  }

  lemma BootInv()
    ensures Inv(Boot())
  {
  }

  lemma {:induction false} RunKeepsInv(cs: seq<Core>, ops: seq<Op>, i: nat)
    requires IsRun(cs, ops) && i <= |ops|
    ensures Inv(cs[i])
  {
    if i == 0 {
      BootInv();
    } else {
      RunKeepsInv(cs, ops, i - 1);
      assert IsStep(cs[i - 1], ops[i - 1], cs[i]);
      StepKeepsInv(cs[i - 1], ops[i - 1]);
    }
  }

  lemma RunSlot(cs: seq<Core>, ops: seq<Op>, i: nat, k: nat)
    requires IsRun(cs, ops) && i < |ops| && k < MAX_RESIDENT
    ensures Inv(cs[i]) && Inv(cs[i + 1]) && SlotStep(cs[i], ops[i], cs[i + 1], k)
  {
    RunKeepsInv(cs, ops, i);
    RunKeepsInv(cs, ops, i + 1);
    assert IsStep(cs[i], ops[i], cs[i + 1]);
    StepSlot(cs[i], ops[i], k);
  }

  predicate Spawned(c: Core, k: nat, priority: int) {
    Sized(c) && k < MAX_RESIDENT && c.table[k].state != Unused && c.table[k].priority == priority
  }

  lemma StaysSpawned(cs: seq<Core>, ops: seq<Op>, i: nat, k: nat, priority: int)
    requires IsRun(cs, ops) && i < |ops| && Spawned(cs[i], k, priority)
    ensures Spawned(cs[i + 1], k, priority)
  {
    RunSlot(cs, ops, i, k);
  }

  /** No spawned slot is lost, and its priority never changes. */
  lemma {:induction false} NeverLost(cs: seq<Core>, ops: seq<Op>, i: nat, j: nat, k: nat, priority: int)
    requires IsRun(cs, ops) && i <= j <= |ops| && Spawned(cs[i], k, priority)
    ensures Spawned(cs[j], k, priority)
    decreases j
  {
    if i < j {
      NeverLost(cs, ops, i, j - 1, k, priority);
      StaysSpawned(cs, ops, j - 1, k, priority);
    }
  }

  /** A blocked slot leaves that state only at a wake of its own queue that selected it as the
      highest-priority waiter; until then nothing about it changes. */
  lemma {:induction false} OnlyOwnWake(cs: seq<Core>, ops: seq<Op>, i: nat, j: nat, k: nat, q: Queue) returns (m: nat)
    requires IsRun(cs, ops) && i <= j <= |ops| && k < MAX_RESIDENT
    requires Inv(cs[i]) && Inv(cs[j]) && cs[i].table[k].state == Blocked && cs[i].table[k].waitingOn == Some(q)
    requires cs[j].table[k] != cs[i].table[k]
    ensures i <= m < j && ops[m].DoWake? && ops[m].q == q && Sized(cs[m]) && Selected(cs[m].table, q, k)
    ensures cs[m].table[k] == cs[i].table[k] && Inv(cs[m + 1]) && cs[m + 1].table[k].state != Blocked
    decreases j
  {
    RunSlot(cs, ops, j - 1, k);
    if cs[j - 1].table[k] == cs[i].table[k] {
      return j - 1;
    }
    m := OnlyOwnWake(cs, ops, i, j - 1, k, q);
  }

  predicate Saved(c: Core, k: nat, rsp: u64) {
    Sized(c) && k < MAX_RESIDENT && c.table[k].state != Unused && c.table[k].savedRsp == rsp
  }

  lemma StaysSaved(cs: seq<Core>, ops: seq<Op>, i: nat, k: nat, rsp: u64)
    requires IsRun(cs, ops) && i < |ops| && Saved(cs[i], k, rsp) && cs[i].current != k
    ensures Saved(cs[i + 1], k, rsp)
  {
    RunSlot(cs, ops, i, k);
  }

  /** A job off the processor keeps the stack pointer its last switch saved. */
  lemma {:induction false} SavedUntilResumed(cs: seq<Core>, ops: seq<Op>, i: nat, j: nat, k: nat, rsp: u64)
    requires IsRun(cs, ops) && i <= j <= |ops| && Saved(cs[i], k, rsp)
    requires forall m :: i <= m < j ==> cs[m].current != k
    ensures Saved(cs[j], k, rsp)
    decreases j
  {
    if i < j {
      SavedUntilResumed(cs, ops, i, j - 1, k, rsp);
      StaysSaved(cs, ops, j - 1, k, rsp);
    }
  }

  /** What a job's next resumption loads is where its last switch away left its frame. */
  lemma ResumesWhereLeft(cs: seq<Core>, ops: seq<Op>, i: nat, j: nat, k: nat)
    requires IsRun(cs, ops) && i < j <= |ops| && k < MAX_RESIDENT
    requires Leaves(cs[i], cs[i + 1], k) && forall m :: i < m <= j ==> cs[m].current != k
    ensures ops[i].DoWait? || ops[i].DoWake?
    ensures Saved(cs[j], k, ops[i].rsp)
  {
    RunSlot(cs, ops, i, k);
    assert cs[i].table[k].state == Running by {
      assert IsStep(cs[i], ops[i], cs[i + 1]);
    }
    SavedUntilResumed(cs, ops, i + 1, j, k, ops[i].rsp);
  }

  /** A job of priority 1 runs when one of priority 5 is spawned, and goes on running. */
  lemma LateSpawnWaits() returns (cs: seq<Core>, ops: seq<Op>, d: Core)
    ensures IsRun(cs, ops) && Inv(cs[|ops|]) && d == Spawn(cs[|ops|], 0, 5).0 && !Inv(d)
    ensures Sized(d) && d.current == 0 && d.table[0].state == Running && d.table[0].priority == 1
    ensures d.table[1].state == Ready && d.table[1].priority == 5
  {
    var a := Boot();
    var b := Next(a, DoSpawn(0, 1));
    var c := Next(b, DoKickoff(0));
    assert b.table[0] == Slot(0, 1, Ready, None) by { FreeIsFirst(a.table, 0); }
    cs, ops := [a, b, c], [DoSpawn(0, 1), DoKickoff(0)];
    assert IsStep(a, ops[0], b) && IsStep(b, ops[1], c);
    RunKeepsInv(cs, ops, 2);
    d := Spawn(c, 0, 5).0;
    FreeIsFirst(c.table, 0);
    assert FreeFrom(c.table, 0) == Some(1);
    LateSpawnKeepsIff(c, 0, 5);
  }
}
