/** The executor's table and the machine it switches, together: whole runs in which the jobs
    compute, are spawned, wait and wake, and the processor goes where the table says. */
module ExecutorRuns {
  import opened Words
  import opened JobExec
  import opened ContextSwitch
  import J = JobRuns
  import S = SwitchRuns

  /** Job k of the world is slot k of the table; the job after them is the one that calls
      job_exec_run. */
  const DRIVER := MAX_RESIDENT

  datatype System = System(core: Core, world: S.World)

  datatype Op =
    | Compute(mem: seq<u64>, cpu: Context)
    | SpawnAt(top: u64, entry: u64, arg: u64, priority: int)
    | Call(op: J.Op)

  function OnCpu(c: Core): (r: nat)
    requires Sized(c)
    ensures r <= DRIVER
  {
    if c.current < 0 then DRIVER else c.current
  }

  predicate Shaped(y: System) { Sized(y.core) && S.Layout(y.world) && |y.world.stacks| == DRIVER + 1 }

  function Told(op: Op): (r: J.Op)
    requires op.SpawnAt? && AlignedTop(op.top) >= 160
  {
    J.DoSpawn(AlignedTop(op.top) - 160, op.priority)
  }

  predicate Allowed(c: Core, op: Op) {
    && Sized(c)
    && (op.SpawnAt? ==> AlignedTop(op.top) >= 160 && J.Enabled(c, Told(op)))
    && (op.Call? ==> !op.op.DoSpawn? && J.Enabled(c, op.op))
  }

  /** The slot a spawn takes, or -1. */
  function SlotFor(c: Core, op: Op): (r: int)
    requires op.SpawnAt? && Allowed(c, op)
    ensures r < MAX_RESIDENT
  {
    Spawn(c, AlignedTop(op.top) - 160, op.priority).1
  }

  /** What the table becomes. */
  function CoreAfter(c: Core, op: Op): (r: Core)
    requires Allowed(c, op)
    ensures Sized(r)
  {
    match op
    case Compute(_, _) => c
    case SpawnAt(_, _, _, _) => J.Next(c, Told(op))
    case Call(o) => J.Next(c, o)
  }

  /** What the machine does: the switch exactly when the table names another slot. */
  function WorldStep(y: System, op: Op): (r: S.Step)
    requires Allowed(y.core, op)
  {
    match op
    case Compute(mem, cpu) => S.Work(mem, cpu)
    case SpawnAt(top, entry, arg, _) =>
      var k := SlotFor(y.core, op);
      if k >= 0 then S.Create(k, top, entry, arg) else S.Work(y.world.mem, y.world.cpu)
    case Call(o) =>
      var next := OnCpu(CoreAfter(y.core, op));
      if next == OnCpu(y.core) then S.Work(y.world.mem, y.world.cpu) else S.SwitchTo(next)
  }

  /** The compiled code is at `job_exec_switch(&table[me].saved_rsp, table[next].saved_rsp)`,
      with room on its stack. */
  predicate AtSwitch(y: System, o: J.Op, next: nat)
    requires Shaped(y) && next < MAX_RESIDENT
  {
    var w := y.world;
    var s := w.stacks[w.current];
    && w.cpu.regs[RDI] == w.cells[w.current] && w.cpu.regs[RSI] == y.core.table[next].savedRsp
    && s.lo + 168 <= w.cpu.rsp && w.cpu.rsp + 8 <= s.hi && w.cpu.rsp % 8 == 0
    && (o.DoWait? || o.DoWake? ==> o.rsp == w.cpu.rsp - 168)
  }

  /** Between switches nothing writes the running slot's saved pointer either. */
  predicate SavedKept(w: S.World, mem: seq<u64>)
    requires S.Layout(w) && |mem| == |w.mem|
  {
    mem[w.cells[w.current] / 8] == w.mem[w.cells[w.current] / 8]
  }

  predicate Enabled(y: System, op: Op) {
    && Shaped(y) && Allowed(y.core, op)
    && var w := y.world;
       match op
       case Compute(mem, cpu) =>
         Whole(cpu) && S.Worked(w, mem) && (w.current == DRIVER || SavedKept(w, mem))
       case SpawnAt(top, _, _, _) =>
         var k := SlotFor(y.core, op);
         k >= 0 ==> w.stacks[k].lo + 160 <= AlignedTop(top) <= w.stacks[k].hi
       case Call(o) =>
         var next := OnCpu(CoreAfter(y.core, op));
         next == OnCpu(y.core) || (next < MAX_RESIDENT && AtSwitch(y, o, next))
  }

  // The table and the machine agree.

  /** A spawned slot is a job of the machine, and its saved pointer is the one in memory. */
  predicate SlotTied(s: Slot, w: S.World, k: nat)
    requires S.Layout(w) && k < |w.stacks|
  {
    (s.state != Unused <==> w.parked[k].Some?) && (s.state != Unused ==> s.savedRsp == w.mem[w.cells[k] / 8])
  }

  predicate Tied(y: System) {
    && Shaped(y) && J.Inv(y.core) && S.Inv(y.world) && y.world.current == OnCpu(y.core)
    && forall k :: 0 <= k < MAX_RESIDENT ==> SlotTied(y.core.table[k], y.world, k)
  }

  lemma SpawnReaches(y: System, op: Op)
    requires Tied(y) && Enabled(y, op) && op.SpawnAt?
    ensures S.Enabled(y.world, WorldStep(y, op))
  {
    FreeIsFirst(y.core.table, 0);
    var k := SlotFor(y.core, op);
    if k >= 0 {
      assert SlotTied(y.core.table[k], y.world, k);
      EightDivides(AlignedTop(op.top) - 160);
      assert S.JobOk(y.world.mem, y.world.stacks[k], y.world.cells[k], y.world.parked[k]);
    }
  }

  /** A slot that a call puts on the processor was spawned before. */
  lemma NextIsUsed(c: Core, o: J.Op)
    requires J.Inv(c) && J.Enabled(c, o) && !o.DoSpawn? && J.Next(c, o).current != c.current
    ensures var d := J.Next(c, o); d.current >= 0 && c.table[d.current].state != Unused
  {
    match o
    case DoKickoff(_) =>
    case DoWait(q, _) =>
      PickIsBest(c.table[c.current := c.table[c.current].(state := Blocked, waitingOn := Some(q))], AnyReady);
    case DoWake(q, _) => PickIsBest(c.table, Waiter(q));
  }

  lemma CallReaches(y: System, op: Op)
    requires Tied(y) && Enabled(y, op) && op.Call?
    ensures S.Enabled(y.world, WorldStep(y, op))
  {
    var next := OnCpu(CoreAfter(y.core, op));
    if next != OnCpu(y.core) {
      NextIsUsed(y.core, op.op);
      assert SlotTied(y.core.table[next], y.world, next);
      S.CallCanSwitch(y.world, next);
    }
  }

  /** What the table decides, the machine can do. */
  lemma Reaches(y: System, op: Op)
    requires Tied(y) && Enabled(y, op)
    ensures S.Enabled(y.world, WorldStep(y, op))
  {
    match op
    case Compute(_, _) =>
    case SpawnAt(_, _, _, _) => SpawnReaches(y, op);
    case Call(_) => CallReaches(y, op);
  }

  function After(y: System, op: Op): (r: System)
    requires Shaped(y) && Allowed(y.core, op) && S.Enabled(y.world, WorldStep(y, op))
    ensures r.core == CoreAfter(y.core, op) && r.world == S.Next(y.world, WorldStep(y, op))
  {
    System(CoreAfter(y.core, op), S.Next(y.world, WorldStep(y, op)))
  }

  /** A call neither spawns nor loses a slot, and saves a pointer only for the slot it takes off
      the processor. */
  lemma CallSlot(c: Core, o: J.Op, k: nat)
    requires J.Inv(c) && J.Enabled(c, o) && !o.DoSpawn? && k < MAX_RESIDENT
    ensures var d := J.Next(c, o);
      && (d.table[k].state == Unused <==> c.table[k].state == Unused)
      && if J.Leaves(c, d, k) then (o.DoWait? || o.DoWake?) && d.table[k].savedRsp == o.rsp
         else d.table[k].savedRsp == c.table[k].savedRsp
  {
    match o
    case DoKickoff(_) =>
    case DoWait(q, _) =>
      PickIsBest(c.table[c.current := c.table[c.current].(state := Blocked, waitingOn := Some(q))], AnyReady);
    case DoWake(q, _) => PickIsBest(c.table, Waiter(q));
  }

  lemma CallTies(y: System, op: Op, k: nat)
    requires Tied(y) && Enabled(y, op) && op.Call? && k < MAX_RESIDENT && S.Enabled(y.world, WorldStep(y, op))
    requires S.Layout(After(y, op).world)
    ensures SlotTied(After(y, op).core.table[k], After(y, op).world, k)
  {
    var c, w, w' := y.core, y.world, After(y, op).world;
    CallSlot(c, op.op, k);
    assert SlotTied(c.table[k], w, k);
    if WorldStep(y, op).SwitchTo? {
      if k == w.current {
        S.SwitchParks(w, WorldStep(y, op).job);
      } else {
        S.SwitchSpares(w, WorldStep(y, op).job, k);
      }
    }
  }

  lemma SpawnTies(y: System, op: Op, k: nat)
    requires Tied(y) && Enabled(y, op) && op.SpawnAt? && k < MAX_RESIDENT && S.Enabled(y.world, WorldStep(y, op))
    requires S.Layout(After(y, op).world)
    ensures SlotTied(After(y, op).core.table[k], After(y, op).world, k)
  {
    var w := y.world;
    assert SlotTied(y.core.table[k], w, k);
    var slot := SlotFor(y.core, op);
    if slot >= 0 {
      if k == slot {
        S.CreateParks(w, WorldStep(y, op));
      } else {
        S.CreateSpares(w, WorldStep(y, op), k);
      }
    }
  }

  lemma ComputeTies(y: System, op: Op, k: nat)
    requires Tied(y) && Enabled(y, op) && op.Compute? && k < MAX_RESIDENT && S.Enabled(y.world, WorldStep(y, op))
    requires S.Layout(After(y, op).world)
    ensures SlotTied(After(y, op).core.table[k], After(y, op).world, k)
  {
    assert SlotTied(y.core.table[k], y.world, k);
    if k != y.world.current { assert S.Spared(y.world, op.mem, k); }
  }

  lemma SlotStaysTied(y: System, op: Op, k: nat)
    requires Tied(y) && Enabled(y, op) && k < MAX_RESIDENT && S.Enabled(y.world, WorldStep(y, op))
    requires S.Layout(After(y, op).world)
    ensures SlotTied(After(y, op).core.table[k], After(y, op).world, k)
  {
    match op
    case Compute(_, _) => ComputeTies(y, op, k);
    case SpawnAt(_, _, _, _) => SpawnTies(y, op, k);
    case Call(_) => CallTies(y, op, k);
  }

  /** Every step keeps the table and the machine in agreement. */
  lemma StepKeepsTied(y: System, op: Op)
    requires Tied(y) && Enabled(y, op)
    ensures S.Enabled(y.world, WorldStep(y, op)) && Tied(After(y, op))
  {
    Reaches(y, op);
    S.StepKeepsInv(y.world, WorldStep(y, op));
    if op.SpawnAt? { J.StepKeepsInv(y.core, Told(op)); }
    if op.Call? { J.StepKeepsInv(y.core, op.op); }
    forall k | 0 <= k < MAX_RESIDENT
      ensures SlotTied(After(y, op).core.table[k], After(y, op).world, k)
    {
      SlotStaysTied(y, op, k);
    }
  }

  // Runs.

  /** The table is empty, and the caller of job_exec_run has the processor. */
  predicate Initial(y: System) {
    && Shaped(y) && y.core == J.Boot() && y.world.current == DRIVER
    && forall k :: 0 <= k <= DRIVER ==> y.world.parked[k].None?
  }

  ghost predicate IsStep(y: System, op: Op, y': System) {
    Enabled(y, op) && S.Enabled(y.world, WorldStep(y, op)) && y' == After(y, op)
  }

  ghost predicate IsRun(ys: seq<System>, ops: seq<Op>) {
    && |ys| == |ops| + 1 && Initial(ys[0])
    && forall i {:trigger ops[i]} :: 0 <= i < |ops| ==> IsStep(ys[i], ops[i], ys[i + 1])
  }

  lemma InitialTied(y: System)
    requires Initial(y)
    ensures Tied(y)
  {
    J.BootInv();
  }

  lemma NextTied(y: System, op: Op, y': System)
    requires Tied(y) && IsStep(y, op, y')
    ensures Tied(y')
  {
    StepKeepsTied(y, op);
  }

  lemma {:induction false} RunKeepsTied(ys: seq<System>, ops: seq<Op>, i: nat)
    requires IsRun(ys, ops) && i <= |ops|
    ensures Tied(ys[i])
  {
    if i == 0 {
      InitialTied(ys[0]);
    } else {
      RunKeepsTied(ys, ops, i - 1);
      assert IsStep(ys[i - 1], ops[i - 1], ys[i]);
      NextTied(ys[i - 1], ops[i - 1], ys[i]);
    }
  }

  ghost function Worlds(ys: seq<System>): (r: seq<S.World>)
    ensures |r| == |ys| && forall i :: 0 <= i < |ys| ==> r[i] == ys[i].world
  {
    seq(|ys|, i requires 0 <= i < |ys| => ys[i].world)
  }

  ghost function Steps(ys: seq<System>, ops: seq<Op>): (r: seq<S.Step>)
    requires IsRun(ys, ops)
    ensures |r| == |ops|
    ensures forall i {:trigger ops[i]} :: 0 <= i < |ops| ==>
              IsStep(ys[i], ops[i], ys[i + 1]) && r[i] == WorldStep(ys[i], ops[i])
  {
    seq(|ops|, i requires 0 <= i < |ops| => assert IsStep(ys[i], ops[i], ys[i + 1]); WorldStep(ys[i], ops[i]))
  }

  /** A run of the system is a run of its machine. */
  lemma WorldRun(ys: seq<System>, ops: seq<Op>)
    requires IsRun(ys, ops)
    ensures S.IsRun(Worlds(ys), Steps(ys, ops))
  {
    var ws, steps := Worlds(ys), Steps(ys, ops);
    InitialTied(ys[0]);
    forall i | 0 <= i < |steps|
      ensures S.IsStep(ws[i], steps[i], ws[i + 1])
    {
      assert IsStep(ys[i], ops[i], ys[i + 1]);
    }
  }

  /** Slot k is not on the processor at any state after i up to j. */
  ghost predicate Off(ys: seq<System>, i: nat, j: nat, k: nat) {
    forall m :: i < m <= j < |ys| ==> ys[m].core.current != k
  }

  lemma OffCpu(ys: seq<System>, ops: seq<Op>, i: nat, j: nat, k: nat)
    requires IsRun(ys, ops) && i <= j <= |ops| && k < MAX_RESIDENT && Off(ys, i, j, k)
    ensures forall m :: i < m <= j ==> Worlds(ys)[m].current != k
  {
    forall m | i < m <= j
      ensures Worlds(ys)[m].current != k
    {
      RunKeepsTied(ys, ops, m);
    }
  }

  /** A slot comes onto the processor by the machine's switch to it, which loads the pointer
      its table entry holds. */
  lemma ComesOn(ys: seq<System>, ops: seq<Op>, j: nat, k: nat)
    requires IsRun(ys, ops) && j < |ops| && k < MAX_RESIDENT
    requires ys[j].core.current != k && ys[j + 1].core.current == k
    ensures Steps(ys, ops)[j] == S.SwitchTo(k) && Shaped(ys[j])
    ensures ys[j].world.cpu.regs[RSI] == ys[j].core.table[k].savedRsp
  {
    RunKeepsTied(ys, ops, j);
    assert IsStep(ys[j], ops[j], ys[j + 1]);
  }

  lemma GoesOff(ys: seq<System>, ops: seq<Op>, i: nat, k: nat)
    requires IsRun(ys, ops) && i < |ops| && k < MAX_RESIDENT
    requires ys[i].core.current == k && ys[i + 1].core.current != k
    ensures Steps(ys, ops)[i].SwitchTo? && ys[i].world.current == k
  {
    RunKeepsTied(ys, ops, i);
    assert IsStep(ys[i], ops[i], ys[i + 1]);
    if ops[i].Call? { NextIsUsed(ys[i].core, ops[i].op); }
  }

  /** A job spawned into slot k begins, when the table first puts it on the processor, at its
      entry with its argument and its own aligned stack. */
  lemma SpawnedBegins(ys: seq<System>, ops: seq<Op>, i: nat, j: nat, k: nat)
    requires IsRun(ys, ops) && i < j < |ops| && k < MAX_RESIDENT && Off(ys, i, j, k)
    requires ops[i].SpawnAt? && Allowed(ys[i].core, ops[i]) && SlotFor(ys[i].core, ops[i]) == k
    requires ys[j + 1].core.current == k
    ensures ys[j + 1].world.cpu == Fresh(ops[i].top, ops[i].entry, ops[i].arg)
  {
    assert ys[j].core.current != k;
    ComesOn(ys, ops, j, k);
    WorldRun(ys, ops);
    OffCpu(ys, ops, i, j, k);
    S.BeginsAtEntry(Worlds(ys), Steps(ys, ops), i, j, k);
  }

  /** A job that the table took off the processor at step i and next puts on at step j: the
      switch loads the pointer of its table entry, which is where step i left its frame; the
      job goes on with its registers, flags and return address of step i, and its stack as it
      left it. */
  lemma TableResumes(ys: seq<System>, ops: seq<Op>, i: nat, j: nat, k: nat)
    requires IsRun(ys, ops) && i < j < |ops| && k < MAX_RESIDENT && Off(ys, i, j, k)
    requires ys[i].core.current == k && ys[j + 1].core.current == k
    ensures var w, w' := ys[i].world, ys[j + 1].world;
      && Shaped(ys[j]) && ys[j].world.cpu.regs[RSI] == ys[j].core.table[k].savedRsp == w.cpu.rsp - 168
      && CanSwitch(w.cpu, w.mem) && w'.cpu == Parked(w.cpu, w.mem)
      && k < |w.stacks| && S.Same(w.mem, w'.mem, w'.cpu.rsp, w.stacks[k].hi)
  {
    assert ys[i + 1].core.current != k && ys[j].core.current != k;
    GoesOff(ys, ops, i, k);
    ComesOn(ys, ops, j, k);
    WorldRun(ys, ops);
    OffCpu(ys, ops, i, j, k);
    S.ResumesExactly(Worlds(ys), Steps(ys, ops), i, j, k);
  }
}
