/** Any number of jobs on one core, created and switching among themselves, none writing
    another's stack or saved pointer: every job comes back exactly to where it left. */
module SwitchRuns {
  import opened Words
  import opened ContextSwitch

  /** A stack's byte range. */
  datatype Stack = Stack(lo: int, hi: int)

  /** `cells[j]` is the address of job j's saved stack pointer; `parked[j]` is what job j, if
      it was created and is not running, is to come back to. */
  datatype World =
    World(mem: seq<u64>, cpu: Context, current: nat, stacks: seq<Stack>, cells: seq<int>, parked: seq<Option<Context>>)

  predicate StackOk(s: Stack, mem: seq<u64>) {
    0 <= s.lo <= s.hi && s.lo % 8 == 0 && s.hi % 8 == 0 && s.hi / 8 <= |mem| && s.hi < TWO64
  }

  predicate Apart(s: Stack, t: Stack) { s.hi <= t.lo || t.hi <= s.lo }

  predicate Outside(a: int, s: Stack) { a + 8 <= s.lo || s.hi <= a }

  predicate JobOk(mem: seq<u64>, s: Stack, cell: int, parked: Option<Context>) {
    StackOk(s, mem) && Room(mem, cell, 1) && (parked.Some? ==> Whole(parked.value))
  }

  /** Disjoint stacks, and one saved-pointer cell per job that lies in no stack. */
  predicate Layout(w: World) {
    && |w.cells| == |w.stacks| == |w.parked|
    && (forall j :: 0 <= j < |w.stacks| ==> JobOk(w.mem, w.stacks[j], w.cells[j], w.parked[j]))
    && (forall i, j :: 0 <= i < |w.stacks| && 0 <= j < |w.stacks| && i != j ==> Apart(w.stacks[i], w.stacks[j]))
    && (forall i, j :: 0 <= i < |w.cells| && 0 <= j < |w.stacks| ==> Outside(w.cells[i], w.stacks[j]))
    && (forall i, j :: 0 <= i < |w.cells| && 0 <= j < |w.cells| && i != j ==> w.cells[i] != w.cells[j])
    && w.current < |w.stacks| && Whole(w.cpu)
  }

  /** The context sits in the stack as a frame at a. */
  predicate Holds(mem: seq<u64>, s: Stack, a: int, c: Context) {
    Whole(c) && StackOk(s, mem) && s.lo <= a && a + 160 <= s.hi && a % 8 == 0 && Slice(mem, a, 20) == Frame(c)
  }

  predicate Suspended(w: World, j: nat)
    requires Layout(w) && j < |w.stacks|
  {
    w.parked[j].Some? ==> Holds(w.mem, w.stacks[j], w.mem[w.cells[j] / 8], w.parked[j].value)
  }

  predicate Inv(w: World) {
    Layout(w) && forall j :: 0 <= j < |w.stacks| && j != w.current ==> Suspended(w, j)
  }

  // Steps.

  datatype Step =
    | Work(mem: seq<u64>, cpu: Context)
    | Create(job: nat, top: u64, entry: u64, arg: u64)
    | SwitchTo(job: nat)

  /** The same words from lo up to hi. */
  predicate Same(mem: seq<u64>, mem': seq<u64>, lo: int, hi: int) {
    |mem'| == |mem| && forall k :: 0 <= k < |mem| && lo <= 8 * k < hi ==> mem'[k] == mem[k]
  }

  /** Memory changed, but nothing of job j's. */
  predicate Spared(w: World, mem: seq<u64>, j: nat)
    requires Layout(w) && j < |w.stacks|
  {
    Same(w.mem, mem, w.stacks[j].lo, w.stacks[j].hi) && mem[w.cells[j] / 8] == w.mem[w.cells[j] / 8]
  }

  /** The running job computed: its registers are anything, and it may have written any memory
      but the other jobs' stacks and saved pointers. */
  predicate Worked(w: World, mem: seq<u64>)
    requires Layout(w)
  {
    |mem| == |w.mem| && forall j :: 0 <= j < |w.stacks| && j != w.current ==> Spared(w, mem, j)
  }

  /** A job that does not exist yet and whose stack has room for its first frame. */
  predicate CanCreate(w: World, job: nat, top: u64)
    requires Layout(w)
  {
    && job < |w.stacks| && job != w.current && w.parked[job].None?
    && w.stacks[job].lo + 160 <= AlignedTop(top) <= w.stacks[job].hi && Room(w.mem, AlignedTop(top) - 160, 20)
  }

  /** The running job is at its call of the switch: its own cell and the other job's saved
      pointer as arguments, its return address on top of its stack, room below. */
  predicate AtCall(w: World, job: nat)
    requires Layout(w)
  {
    var s := w.stacks[w.current];
    && job < |w.stacks| && job != w.current && w.parked[job].Some?
    && w.cpu.regs[RDI] == w.cells[w.current] && w.cpu.regs[RSI] == w.mem[w.cells[job] / 8]
    && s.lo + 168 <= w.cpu.rsp && w.cpu.rsp + 8 <= s.hi && w.cpu.rsp % 8 == 0
  }

  predicate Enabled(w: World, step: Step)
    requires Layout(w)
  {
    match step
    case Work(mem, cpu) => Whole(cpu) && Worked(w, mem)
    case Create(job, top, _, _) => CanCreate(w, job, top)
    case SwitchTo(job) => AtCall(w, job) && CanSwitch(w.cpu, w.mem)
  }

  /** As long as the other job is parked, being at the call is enough. */
  lemma CallCanSwitch(w: World, job: nat)
    requires Inv(w) && AtCall(w, job)
    ensures CanSwitch(w.cpu, w.mem)
  {
    assert Suspended(w, job);
    assert JobOk(w.mem, w.stacks[w.current], w.cells[w.current], w.parked[w.current]);
  }

  /** Memory with a new job's frame at a and its saved pointer set to it. */
  function CreatedMemory(mem: seq<u64>, cell: int, a: u64, frame: seq<u64>): (r: seq<u64>)
    requires Room(mem, a, |frame|) && Room(mem, cell, 1)
    ensures |r| == |mem|
  {
    Put(mem, a, frame)[cell / 8 := a]
  }

  function Next(w: World, step: Step): World
    requires Layout(w) && Enabled(w, step)
  {
    match step
    case Work(mem, cpu) => w.(mem := mem, cpu := cpu)
    case Create(job, top, entry, arg) =>
      var first := Fresh(top, entry, arg);
      assert JobOk(w.mem, w.stacks[job], w.cells[job], w.parked[job]);
      w.(mem := CreatedMemory(w.mem, w.cells[job], AlignedTop(top) - 160, Frame(first)),
         parked := w.parked[job := Some(first)])
    case SwitchTo(job) =>
      World(SavedMemory(w.cpu, w.mem), Resumed(w.cpu, w.mem), job, w.stacks, w.cells,
            w.parked[w.current := Some(Parked(w.cpu, w.mem))])
  }

  // What a step writes.

  lemma SavedElsewhere(c: Context, mem: seq<u64>, lo: int, hi: int)
    requires CanSwitch(c, mem) && (hi <= c.rsp - 168 || c.rsp <= lo) && (hi <= c.regs[RDI] || c.regs[RDI] + 8 <= lo)
    ensures Same(mem, SavedMemory(c, mem), lo, hi)
  {
  }

  lemma SavedHere(c: Context, mem: seq<u64>)
    requires CanSwitch(c, mem) && (c.regs[RDI] + 8 <= c.rsp - 168 || c.rsp <= c.regs[RDI])
    ensures Slice(SavedMemory(c, mem), c.rsp - 168, 20) == Frame(Parked(c, mem))
  {
  }

  lemma CreatedElsewhere(mem: seq<u64>, cell: int, a: u64, frame: seq<u64>, lo: int, hi: int)
    requires Room(mem, a, |frame|) && Room(mem, cell, 1)
    requires (hi <= a || a + 8 * |frame| <= lo) && (hi <= cell || cell + 8 <= lo)
    ensures Same(mem, CreatedMemory(mem, cell, a, frame), lo, hi)
  {
  }

  lemma CellOf(mem: seq<u64>, mem': seq<u64>, a: int)
    requires Room(mem, a, 1) && Same(mem, mem', a, a + 8)
    ensures mem'[a / 8] == mem[a / 8]
  {
  }

  /** Job i's stack and cell and job j's do not touch. */
  lemma JobsApart(w: World, i: nat, j: nat)
    requires Layout(w) && i < |w.stacks| && j < |w.stacks| && i != j
    ensures Apart(w.stacks[j], w.stacks[i]) && Outside(w.cells[i], w.stacks[j]) && Outside(w.cells[j], w.stacks[i])
    ensures w.cells[i] + 8 <= w.cells[j] || w.cells[j] + 8 <= w.cells[i]
    ensures JobOk(w.mem, w.stacks[i], w.cells[i], w.parked[i]) && JobOk(w.mem, w.stacks[j], w.cells[j], w.parked[j])
  {
    assert w.cells[i] != w.cells[j];
  }

  lemma SwitchSpares(w: World, job: nat, j: nat)
    requires Layout(w) && Enabled(w, SwitchTo(job)) && j < |w.stacks| && j != w.current
    ensures Spared(w, SavedMemory(w.cpu, w.mem), j)
  {
    JobsApart(w, w.current, j);
    var cell := w.cells[j];
    SavedElsewhere(w.cpu, w.mem, w.stacks[j].lo, w.stacks[j].hi);
    SavedElsewhere(w.cpu, w.mem, cell, cell + 8);
    CellOf(w.mem, SavedMemory(w.cpu, w.mem), cell);
  }

  lemma CreatedSpares(w: World, job: nat, j: nat, a: u64, f: seq<u64>)
    requires Layout(w) && job < |w.stacks| && j < |w.stacks| && j != job && |f| == 20
    requires w.stacks[job].lo <= a && a + 160 <= w.stacks[job].hi && Room(w.mem, a, 20) && Room(w.mem, w.cells[job], 1)
    ensures Spared(w, CreatedMemory(w.mem, w.cells[job], a, f), j)
  {
    JobsApart(w, job, j);
    var cell := w.cells[j];
    CreatedElsewhere(w.mem, w.cells[job], a, f, w.stacks[j].lo, w.stacks[j].hi);
    CreatedElsewhere(w.mem, w.cells[job], a, f, cell, cell + 8);
    CellOf(w.mem, CreatedMemory(w.mem, w.cells[job], a, f), cell);
  }

  lemma CreateSpares(w: World, step: Step, j: nat)
    requires Layout(w) && step.Create? && Enabled(w, step) && j < |w.stacks| && j != step.job
    ensures Spared(w, Next(w, step).mem, j)
  {
    assert JobOk(w.mem, w.stacks[step.job], w.cells[step.job], w.parked[step.job]);
    CreatedSpares(w, step.job, j, AlignedTop(step.top) - 160, Frame(Fresh(step.top, step.entry, step.arg)));
  }

  /** A step leaves alone every job that is neither running nor the one it creates. */
  lemma StepSpares(w: World, step: Step, j: nat)
    requires Layout(w) && Enabled(w, step) && j < |w.stacks| && j != w.current && !(step.Create? && step.job == j)
    ensures Spared(w, Next(w, step).mem, j)
  {
    match step
    case Work(_, _) =>
    case Create(_, _, _, _) => CreateSpares(w, step, j);
    case SwitchTo(job) => SwitchSpares(w, job, j);
  }

  lemma SparedHolds(w: World, mem: seq<u64>, j: nat, a: int, c: Context)
    requires Layout(w) && j < |w.stacks| && Spared(w, mem, j) && Holds(w.mem, w.stacks[j], a, c)
    ensures Holds(mem, w.stacks[j], a, c)
  {
    assert Slice(mem, a, 20) == Slice(w.mem, a, 20);
  }

  /** The other job's frame is untouched by the save, so it is what comes back. */
  lemma SwitchResumes(w: World, job: nat)
    requires Inv(w) && AtCall(w, job)
    ensures CanSwitch(w.cpu, w.mem) && Resumed(w.cpu, w.mem) == w.parked[job].value
  {
    CallCanSwitch(w, job);
    assert Suspended(w, job);
    SwitchSpares(w, job, job);
    SparedHolds(w, SavedMemory(w.cpu, w.mem), job, w.cpu.regs[RSI], w.parked[job].value);
    FrameRoundTrip(w.parked[job].value);
  }

  /** The caller is parked: its frame is in its stack and its cell points at it. */
  lemma SwitchParks(w: World, job: nat)
    requires Inv(w) && AtCall(w, job)
    ensures CanSwitch(w.cpu, w.mem)
    ensures SavedMemory(w.cpu, w.mem)[w.cells[w.current] / 8] == w.cpu.rsp - 168
    ensures Holds(SavedMemory(w.cpu, w.mem), w.stacks[w.current], w.cpu.rsp - 168, Parked(w.cpu, w.mem))
  {
    CallCanSwitch(w, job);
    assert Outside(w.cells[w.current], w.stacks[w.current]);
    assert JobOk(w.mem, w.stacks[w.current], w.cells[w.current], w.parked[w.current]);
    SavedHere(w.cpu, w.mem);
  }

  lemma PutHolds(mem: seq<u64>, s: Stack, cell: int, a: u64, c: Context)
    requires Whole(c) && StackOk(s, mem) && s.lo <= a && a + 160 <= s.hi && a % 8 == 0
    requires Room(mem, cell, 1) && Outside(cell, s)
    ensures Room(mem, a, 20) && Holds(CreatedMemory(mem, cell, a, Frame(c)), s, a, c)
  {
    assert Slice(CreatedMemory(mem, cell, a, Frame(c)), a, 20) == Frame(c);
  }

  /** A frame that job_exec_init built and a cell that job_exec_spawn set park the job at its
      entry. */
  lemma CreateParks(w: World, step: Step)
    requires Layout(w) && step.Create? && Enabled(w, step)
    ensures var a := AlignedTop(step.top) - 160;
      && Next(w, step).mem[w.cells[step.job] / 8] == a
      && Holds(Next(w, step).mem, w.stacks[step.job], a, Fresh(step.top, step.entry, step.arg))
  {
    EightDivides(AlignedTop(step.top) - 160);
    assert JobOk(w.mem, w.stacks[step.job], w.cells[step.job], w.parked[step.job]);
    assert Outside(w.cells[step.job], w.stacks[step.job]);
    PutHolds(w.mem, w.stacks[step.job], w.cells[step.job], AlignedTop(step.top) - 160,
             Fresh(step.top, step.entry, step.arg));
  }

  // What every step keeps.

  lemma StepKeepsLayout(w: World, step: Step)
    requires Layout(w) && Enabled(w, step)
    ensures Layout(Next(w, step))
  {
    var w' := Next(w, step);
    forall j | 0 <= j < |w.stacks|
      ensures JobOk(w'.mem, w'.stacks[j], w'.cells[j], w'.parked[j])
    {
      assert JobOk(w.mem, w.stacks[j], w.cells[j], w.parked[j]);
    }
  }

  lemma StaysSuspended(w: World, w': World, j: nat)
    requires Layout(w) && Layout(w') && j < |w.stacks| && w'.stacks == w.stacks && w'.cells == w.cells
    requires Suspended(w, j) && Spared(w, w'.mem, j) && w'.parked[j] == w.parked[j]
    ensures Suspended(w', j)
  {
    if w.parked[j].Some? { SparedHolds(w, w'.mem, j, w.mem[w.cells[j] / 8], w.parked[j].value); }
  }

  /** A job the step does not run is suspended after it if it was, or if it is new. */
  lemma StepSuspends(w: World, step: Step, j: nat)
    requires Inv(w) && Enabled(w, step) && Layout(Next(w, step)) && j < |w.stacks| && j != w.current
    ensures Suspended(Next(w, step), j)
  {
    if step.Create? && j == step.job {
      CreateParks(w, step);
    } else {
      StepSpares(w, step, j);
      StaysSuspended(w, Next(w, step), j);
    }
  }

  lemma StepKeepsInv(w: World, step: Step)
    requires Inv(w) && Enabled(w, step)
    ensures Inv(Next(w, step))
  {
    var w' := Next(w, step);
    StepKeepsLayout(w, step);
    if step.SwitchTo? { SwitchParks(w, step.job); }
    forall j | 0 <= j < |w.stacks| && j != w'.current
      ensures Suspended(w', j)
    {
      if j != w.current { StepSuspends(w, step, j); }
    }
  }

  // Runs.

  ghost predicate IsStep(w: World, step: Step, w': World) { Layout(w) && Enabled(w, step) && w' == Next(w, step) }

  ghost predicate IsRun(ws: seq<World>, steps: seq<Step>) {
    && |ws| == |steps| + 1 && Inv(ws[0])
    && forall i {:trigger steps[i]} :: 0 <= i < |steps| ==> IsStep(ws[i], steps[i], ws[i + 1])
  }

  lemma {:induction false} RunKeepsInv(ws: seq<World>, steps: seq<Step>, i: nat)
    requires IsRun(ws, steps) && i <= |steps|
    ensures Inv(ws[i])
  {
    if i > 0 {
      RunKeepsInv(ws, steps, i - 1);
      assert IsStep(ws[i - 1], steps[i - 1], ws[i]);
      StepKeepsInv(ws[i - 1], steps[i - 1]);
    }
  }

  /** A job at rest: its stack, where its frame is saved, what it comes back to, and the memory
      its stack reads as from its stack pointer up. */
  datatype Rest = Rest(stack: Stack, saved: u64, context: Context, mem: seq<u64>)

  predicate Rests(w: World, k: nat, r: Rest) {
    && Layout(w) && k < |w.stacks| && w.stacks[k] == r.stack && r.stack.lo <= r.context.rsp
    && w.mem[w.cells[k] / 8] == r.saved && w.parked[k] == Some(r.context)
    && Same(r.mem, w.mem, r.context.rsp, r.stack.hi)
  }

  /** Only its own steps move a job. */
  lemma StaysAtRest(w: World, step: Step, w': World, k: nat, r: Rest)
    requires IsStep(w, step, w') && w.current != k && Rests(w, k, r)
    ensures Rests(w', k, r)
  {
    StepKeepsLayout(w, step);
    StepSpares(w, step, k);
  }

  lemma {:induction false} RestsUntilResumed(ws: seq<World>, steps: seq<Step>, i: nat, j: nat, k: nat, r: Rest)
    requires IsRun(ws, steps) && i <= j <= |steps| && Rests(ws[i], k, r)
    requires forall m :: i <= m < j ==> ws[m].current != k
    ensures Rests(ws[j], k, r)
    decreases j
  {
    if i < j {
      RestsUntilResumed(ws, steps, i, j - 1, k, r);
      assert IsStep(ws[j - 1], steps[j - 1], ws[j]);
      StaysAtRest(ws[j - 1], steps[j - 1], ws[j], k, r);
    }
  }

  lemma Resumes(ws: seq<World>, steps: seq<Step>, j: nat, k: nat, r: Rest)
    requires IsRun(ws, steps) && j < |steps| && steps[j] == SwitchTo(k) && Rests(ws[j], k, r)
    ensures Whole(ws[j].cpu) && ws[j].cpu.regs[RSI] == r.saved
    ensures ws[j + 1].current == k && ws[j + 1].cpu == r.context
    ensures Same(r.mem, ws[j + 1].mem, r.context.rsp, r.stack.hi)
  {
    RunKeepsInv(ws, steps, j);
    assert IsStep(ws[j], steps[j], ws[j + 1]);
    SwitchResumes(ws[j], k);
    StaysAtRest(ws[j], steps[j], ws[j + 1], k, r);
  }

  /** A job created at step i and first switched to at step j begins at its entry, its argument
      in rdi, on its own 16-byte aligned stack, whatever the other jobs did in between. */
  lemma BeginsAtEntry(ws: seq<World>, steps: seq<Step>, i: nat, j: nat, k: nat)
    requires IsRun(ws, steps) && i < j < |steps| && steps[i].Create? && steps[i].job == k && steps[j] == SwitchTo(k)
    requires forall m :: i < m < j ==> ws[m].current != k
    ensures ws[j + 1].current == k && ws[j + 1].cpu == Fresh(steps[i].top, steps[i].entry, steps[i].arg)
  {
    var w := ws[i];
    assert IsStep(w, steps[i], ws[i + 1]);
    var c := Fresh(steps[i].top, steps[i].entry, steps[i].arg);
    var r := Rest(w.stacks[k], AlignedTop(steps[i].top) - 160, c, ws[i + 1].mem);
    StepKeepsLayout(w, steps[i]);
    CreateParks(w, steps[i]);
    RestsUntilResumed(ws, steps, i + 1, j, k, r);
    Resumes(ws, steps, j, k, r);
  }

  /** A job that switched away at step i and is next switched to at step j: the switch loads
      where the job's frame was left, and after it the job has all its registers, its flags of
      before the call, is at its return address with the stack of after the return, and finds
      everything on that stack as it left it. */
  lemma ResumesExactly(ws: seq<World>, steps: seq<Step>, i: nat, j: nat, k: nat)
    requires IsRun(ws, steps) && i < j < |steps| && ws[i].current == k && steps[i].SwitchTo? && steps[j] == SwitchTo(k)
    requires forall m :: i < m < j ==> ws[m].current != k
    ensures CanSwitch(ws[i].cpu, ws[i].mem) && k < |ws[i].stacks|
    ensures Whole(ws[j].cpu) && ws[j].cpu.regs[RSI] == ws[i].cpu.rsp - 168
    ensures ws[j + 1].current == k && ws[j + 1].cpu == Parked(ws[i].cpu, ws[i].mem)
    ensures Same(ws[i].mem, ws[j + 1].mem, ws[j + 1].cpu.rsp, ws[i].stacks[k].hi)
  {
    var w := ws[i];
    assert IsStep(w, steps[i], ws[i + 1]);
    var r := Rest(w.stacks[k], w.cpu.rsp - 168, Parked(w.cpu, w.mem), w.mem);
    RunKeepsInv(ws, steps, i);
    StepKeepsLayout(w, steps[i]);
    SwitchParks(w, steps[i].job);
    assert Outside(w.cells[k], r.stack);
    SavedElsewhere(w.cpu, w.mem, r.context.rsp, r.stack.hi);
    RestsUntilResumed(ws, steps, i + 1, j, k, r);
    Resumes(ws, steps, j, k, r);
  }
}
