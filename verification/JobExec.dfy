/** The per-core preemptive priority executor of coreinit/job_exec.c. */
module JobExec {
  import opened Words

  const MAX_RESIDENT := 16

  datatype State = Unused | Ready | Running | Blocked

  /** A wait queue is only a token: its address. */
  type Queue = nat

  datatype Slot = Slot(savedRsp: u64, priority: int, state: State, waitingOn: Option<Queue>)

  /** The core's job table; `current` is the running slot, -1 before the kickoff; `halted` is
      the endless wait for interrupts of a job that blocked with nothing ready. */
  datatype Core = Core(table: seq<Slot>, current: int, halted: bool)

  predicate Sized(c: Core) { |c.table| == MAX_RESIDENT && -1 <= c.current < MAX_RESIDENT }

  // Choosing a slot.

  /** What the two selection loops look for: a ready slot, or a waiter on a queue. */
  datatype Want = AnyReady | Waiter(q: Queue)

  predicate Fits(s: Slot, w: Want) {
    match w
    case AnyReady => s.state == Ready
    case Waiter(q) => s.state == Blocked && s.waitingOn == Some(q)
  }

  /** The selection loop from slot i on, with the best found so far. */
  function PickFrom(t: seq<Slot>, w: Want, i: nat, best: Option<nat>): (r: Option<nat>)
    requires i <= |t| && (best.Some? ==> best.value < |t|)
    ensures r.Some? ==> r.value < |t|
    decreases |t| - i
  {
    if i == |t| then best
    else
      var better := Fits(t[i], w) && (best.None? || t[i].priority > t[best.value].priority);
      PickFrom(t, w, i + 1, if better then Some(i) else best)
  }

  function Pick(t: seq<Slot>, w: Want): (r: Option<nat>)
    ensures r.Some? ==> r.value < |t|
  {
    PickFrom(t, w, 0, None)
  }

  /** The first of the highest-priority fitting slots below n. */
  predicate IsBest(t: seq<Slot>, w: Want, n: nat, r: Option<nat>) {
    && n <= |t|
    && (r.None? ==> forall i :: 0 <= i < n ==> !Fits(t[i], w))
    && (r.Some? ==> r.value < n && Fits(t[r.value], w)
                    && (forall i :: 0 <= i < n && Fits(t[i], w) ==> t[i].priority <= t[r.value].priority)
                    && (forall i :: 0 <= i < r.value && Fits(t[i], w) ==> t[i].priority < t[r.value].priority))
  }

  lemma {:induction false} PickFromIsBest(t: seq<Slot>, w: Want, i: nat, best: Option<nat>)
    requires i <= |t| && IsBest(t, w, i, best)
    ensures IsBest(t, w, |t|, PickFrom(t, w, i, best))
    decreases |t| - i
  {
    if i < |t| {
      var next := if Fits(t[i], w) && (best.None? || t[i].priority > t[best.value].priority) then Some(i) else best;
      PickFromIsBest(t, w, i + 1, next);
    }
  }

  lemma PickIsBest(t: seq<Slot>, w: Want)
    ensures IsBest(t, w, |t|, Pick(t, w))
  {
    PickFromIsBest(t, w, 0, None);
  }

  function FreeFrom(t: seq<Slot>, i: nat): (r: Option<nat>)
    requires i <= |t|
    ensures r.Some? ==> r.value < |t|
    decreases |t| - i
  {
    if i == |t| then None else if t[i].state == Unused then Some(i) else FreeFrom(t, i + 1)
  }

  predicate IsFirstFree(t: seq<Slot>, r: Option<nat>) {
    && (r.None? ==> forall j :: 0 <= j < |t| ==> t[j].state != Unused)
    && (r.Some? ==>
          r.value < |t| && t[r.value].state == Unused && forall j :: 0 <= j < r.value ==> t[j].state != Unused)
  }

  lemma {:induction false} FreeIsFirst(t: seq<Slot>, i: nat)
    requires i <= |t| && forall j :: 0 <= j < i ==> t[j].state != Unused
    ensures IsFirstFree(t, FreeFrom(t, i))
    decreases |t| - i
  {
    if i < |t| && t[i].state != Unused { FreeIsFirst(t, i + 1); }
  }

  // The operations. Where one switches away from a job, `rsp` is where the switch left that
  // job's frame.

  function Spawn(c: Core, rsp: u64, priority: int): (r: (Core, int))
    requires Sized(c)
    ensures Sized(r.0)
  {
    var k := FreeFrom(c.table, 0);
    var slot: int := if k.None? then -1 else k.value;
    if k.None? then (c, slot) else (c.(table := c.table[k.value := Slot(rsp, priority, Ready, None)]), slot)
  }

  function Kickoff(c: Core, slot: nat): (r: Core)
    requires Sized(c) && slot < MAX_RESIDENT
    ensures Sized(r)
  {
    c.(table := c.table[slot := c.table[slot].(state := Running)], current := slot)
  }

  /** The table after `me` went off and `next` came on. */
  function Switched(t: seq<Slot>, me: nat, rsp: u64, next: nat): (r: seq<Slot>)
    requires me < |t| && next < |t|
    ensures |r| == |t|
  {
    t[next := t[next].(state := Running)][me := t[me].(savedRsp := rsp)]
  }

  function Wait(c: Core, q: Queue, rsp: u64): (r: Core)
    requires Sized(c) && c.current >= 0
    ensures Sized(r)
  {
    var me := c.current;
    var t := c.table[me := c.table[me].(state := Blocked, waitingOn := Some(q))];
    var next := Pick(t, AnyReady);
    if next.None? then c.(table := t, halted := true)
    else c.(table := Switched(t, me, rsp, next.value), current := next.value)
  }

  function Wake(c: Core, q: Queue, rsp: u64): (r: Core)
    requires Sized(c)
    ensures Sized(r)
  {
    var woken := Pick(c.table, Waiter(q));
    if woken.None? then c else
      var k := woken.value;
      var t := c.table[k := c.table[k].(state := Ready, waitingOn := None)];
      if c.current < 0 || t[k].priority <= t[c.current].priority then c.(table := t)
      else c.(table := Switched(t[c.current := t[c.current].(state := Ready)], c.current, rsp, k), current := k)
  }

  class Executor {
    const table: array<Slot>
    var current: int
    var halted: bool

    ghost predicate Valid()
      reads this, table
    {
      Sized(Value())
    }

    ghost function Value(): Core
      reads this, table
    {
      Core(table[..], current, halted)
    }

    constructor ()
      ensures Valid() && fresh(table)
      ensures Value() == Core(seq(MAX_RESIDENT, _ => Slot(0, 0, Unused, None)), -1, false)
    {
      table := new Slot[MAX_RESIDENT](_ => Slot(0, 0, Unused, None));
      current, halted := -1, false;
    }

    /** pick_highest_priority_ready, and the same loop over the waiters of a queue. */
    method PickBest(w: Want) returns (best: Option<nat>)
      requires Valid()
      ensures best == Pick(table[..], w)
      ensures best.Some? ==> best.value < MAX_RESIDENT
    {
      best := None;
      for i := 0 to MAX_RESIDENT
        invariant best.Some? ==> best.value < MAX_RESIDENT
        invariant PickFrom(table[..], w, i, best) == Pick(table[..], w)
      {
        if Fits(table[i], w) && (best.None? || table[i].priority > table[best.value].priority) {
          best := Some(i);
        }
      }
    }

    /** job_exec_spawn: the slot, or -1 when the table is full. */
    method SpawnJob(rsp: u64, priority: int) returns (slot: int)
      requires Valid()
      modifies table
      ensures Valid() && (Value(), slot) == Spawn(old(Value()), rsp, priority)
    {
      for i := 0 to MAX_RESIDENT
        invariant table[..] == old(table[..])
        invariant FreeFrom(table[..], i) == FreeFrom(table[..], 0)
      {
        if table[i].state == Unused {
          table[i] := Slot(rsp, priority, Ready, None);
          return i;
        }
      }
      return -1;
    }

    /** job_exec_run, up to the switch into the slot. */
    method Run(slot: nat) returns (load: u64)
      requires Valid() && slot < MAX_RESIDENT
      modifies this, table
      ensures Valid() && Value() == Kickoff(old(Value()), slot) && load == old(table[slot].savedRsp)
    {
      table[slot] := table[slot].(state := Running);
      current := slot;
      load := table[slot].savedRsp;
    }

    /** job_exec_wait; `load` is the stack the switch resumes, if it does not halt. */
    method WaitOn(q: Queue, rsp: u64) returns (load: Option<u64>)
      requires Valid() && current >= 0
      modifies this, table
      ensures Valid() && Value() == Wait(old(Value()), q, rsp)
      ensures !old(halted) ==> (load.None? <==> halted)
      ensures load.Some? ==> load == Some(old(table[..])[current].savedRsp)
    {
      var me := current;
      table[me] := table[me].(state := Blocked, waitingOn := Some(q));
      assert table[..] == old(table[..])[me := old(table[current]).(state := Blocked, waitingOn := Some(q))];
      var next := PickBest(AnyReady);
      if next.None? {
        halted := true;
        return None;
      }
      table[next.value] := table[next.value].(state := Running);
      current := next.value;
      load := Some(table[next.value].savedRsp);
      PickIsBest(old(table[..])[me := old(table[current]).(state := Blocked, waitingOn := Some(q))], AnyReady);
      table[me] := table[me].(savedRsp := rsp);
    }

    /** job_exec_wake; `load` is the stack the switch resumes, if the woken job preempts. */
    method WakeOne(q: Queue, rsp: u64) returns (load: Option<u64>)
      requires Valid()
      modifies this, table
      ensures Valid() && Value() == Wake(old(Value()), q, rsp)
      ensures load.Some? <==> current != old(current)
      ensures load.Some? ==> load == Some(old(table[..])[current].savedRsp)
    {
      var woken := PickBest(Waiter(q));
      if woken.None? {
        return None;
      }
      PickIsBest(table[..], Waiter(q));
      var k := woken.value;
      table[k] := table[k].(state := Ready, waitingOn := None);
      var cur := current;
      if cur >= 0 && table[k].priority > table[cur].priority {
        table[cur] := table[cur].(state := Ready);
        table[k] := table[k].(state := Running);
        current := k;
        load := Some(table[k].savedRsp);
        table[cur] := table[cur].(savedRsp := rsp);
      } else {
        load := None;
      }
    }
  }
}
