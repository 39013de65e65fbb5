/** The scheduler's memory resources against the memory manager's claims: every
    live slice is backed by a claim of its own, so slices never overlap. */
module ClusterMemory {
  import opened Words
  import opened ClusterState
  import opened ClusterInvariant
  import opened ClusterRuns
  import MM = MemoryManager

  ghost predicate IsSlice(s: State, r: u64) {
    r in s.resources && r != s.pool && s.resources[r].kind == KIND_MEMORY
  }

  ghost predicate ClaimFor(t: MM.Table, base: u64, size: u64) {
    exists i :: 0 <= i < |t| && t[i].used && t[i].base == base && t[i].size == size
  }

  ghost predicate Backed(s: State, r: u64)
    requires r in s.resources
  {
    0 < s.resources[r].capacity && ClaimFor(s.claims, s.resources[r].descriptor, s.resources[r].capacity)
  }

  ghost predicate MemoryOk(s: State) {
    && MM.WellFormed(s.claims) && MM.Positive(s.claims)
    && (forall r :: IsSlice(s, r) ==> Backed(s, r))
    && (forall r, q :: IsSlice(s, r) && IsSlice(s, q) && r != q ==>
        s.resources[r].descriptor != s.resources[q].descriptor)
  }

  /** Slices come only from the allocating methods, sizes are positive and stay in
      the address space, the pool is not released and nobody frees behind the
      scheduler's back. */
  ghost predicate Disciplined(s: State, op: Op) {
    match op
    case Request(_, b, z, _, _, _) => 0 < z && b + z < TWO64
    case Allocate(_, _, z, _, _, _, _) => 0 < z
    case Declare(_, k, _, _, _, _) => k != KIND_MEMORY
    case ReleaseOf(r, _) => r != s.pool
    case ClaimDirect(b, z, _) => 0 < z && b + z < TWO64
    case AllocDirect(z, _, _) => 0 < z
    case FreeDirect(_) => false
    case _ => true
  }

  /** Resources may go or change hands; what memory they stand for stays. */
  ghost predicate Shrinks(res: map<u64, Resource>, res': map<u64, Resource>) {
    forall r :: r in res' ==>
                  && r in res && res'[r].kind == res[r].kind
                  && res'[r].descriptor == res[r].descriptor && res'[r].capacity == res[r].capacity
  }

  lemma KeepMemory(s: State, s': State)
    requires MemoryOk(s) && s'.claims == s.claims && s'.pool == s.pool && Shrinks(s.resources, s'.resources)
    ensures MemoryOk(s')
  {
    forall r | IsSlice(s', r)
      ensures IsSlice(s, r) && Backed(s', r)
    {
      assert IsSlice(s, r) && Backed(s, r);
    }
  }

  lemma KeepMoreClaims(s: State, t: MM.Table)
    requires MemoryOk(s) && MM.WellFormed(t) && MM.Positive(t) && s.claims <= t
    ensures MemoryOk(s.(claims := t))
  {
    var s' := s.(claims := t);
    forall r | IsSlice(s', r)
      ensures Backed(s', r)
    {
      assert IsSlice(s, r) && Backed(s, r);
      var i :| 0 <= i < |s.claims| && s.claims[i].used && s.claims[i].base == s.resources[r].descriptor
               && s.claims[i].size == s.resources[r].capacity;
      assert t[i] == s.claims[i];
    }
    forall r, q | IsSlice(s', r) && IsSlice(s', q) && r != q
      ensures s'.resources[r].descriptor != s'.resources[q].descriptor
    {
      assert IsSlice(s, r) && IsSlice(s, q);
    }
  }

  /** A range that meets no used claim starts where no slice starts. */
  lemma FreshBase(s: State, base: u64, size: u64, r: u64)
    requires MemoryOk(s) && IsSlice(s, r) && 0 < size
    requires forall i :: 0 <= i < |s.claims| && s.claims[i].used ==>
                           !MM.Meet(base, base + size, s.claims[i].base, s.claims[i].Limit())
    ensures s.resources[r].descriptor != base
  {
    assert Backed(s, r);
  }

  lemma CreateSlice(s: State, h: u64, rd: Resource, kind: u64)
    requires Inv(s) && MemoryOk(s) && Fresh(s, h) && rd.kind == KIND_MEMORY && 0 < rd.capacity
    requires forall i :: 0 <= i < |s.claims| && s.claims[i].used ==>
                           !MM.Meet(rd.descriptor, rd.descriptor + rd.capacity, s.claims[i].base, s.claims[i].Limit())
    requires var t := s.claims + [MM.Claim(rd.descriptor, rd.capacity, kind, true)]; MM.WellFormed(t) && MM.Positive(t)
    ensures var c := MM.Claim(rd.descriptor, rd.capacity, kind, true);
            MemoryOk(CreateResource(s.(claims := s.claims + [c]), h, rd).0)
  {
    var t := s.claims + [MM.Claim(rd.descriptor, rd.capacity, kind, true)];
    var s1 := s.(claims := t);
    KeepMoreClaims(s, t);
    var s' := CreateResource(s1, h, rd).0;
    assert t[|s.claims|].used;
    assert ClaimFor(t, rd.descriptor, rd.capacity);
    forall r | IsSlice(s', r)
      ensures Backed(s', r)
    {
      if r != h {
        assert IsSlice(s1, r) && Backed(s1, r);
      }
    }
    forall r, q | IsSlice(s', r) && IsSlice(s', q) && r != q
      ensures s'.resources[r].descriptor != s'.resources[q].descriptor
    {
      if r == h {
        assert IsSlice(s, q);
        FreshBase(s, rd.descriptor, rd.capacity, q);
      } else if q == h {
        assert IsSlice(s, r);
        FreshBase(s, rd.descriptor, rd.capacity, r);
      } else {
        assert IsSlice(s1, r) && IsSlice(s1, q);
      }
    }
  }

  lemma KeepRequest(s: State, w: MM.Window, op: Op)
    requires Inv(s) && MemoryOk(s) && Enabled(s, w, op) && Disciplined(s, op) && op.Request?
    ensures MemoryOk(Next(s, op))
  {
    if MM.ClaimOk(s.claims, op.base, op.size) {
      MM.ClaimKeepsWellFormed(s.claims, op.base, op.size, op.kind);
      forall i | 0 <= i < |s.claims| && s.claims[i].used
        ensures !MM.Meet(op.base, op.base + op.size, s.claims[i].base, s.claims[i].Limit())
      {
        assert !MM.Meet(op.base, Wrap64(op.base + op.size), s.claims[i].base, s.claims[i].End());
      }
      CreateSlice(s, op.h, Resource(op.node, KIND_MEMORY, op.base, op.size, 0, op.sync), op.kind);
    }
  }

  lemma KeepAllocate(s: State, w: MM.Window, op: Op)
    requires Inv(s) && MemoryOk(s) && Enabled(s, w, op) && Disciplined(s, op) && op.Allocate?
    ensures MemoryOk(Next(s, op))
  {
    if op.placed.Some? {
      var t := s.claims + [MM.Claim(op.placed.value, op.size, op.kind, true)];
      MM.AllocKeepsWellFormed(s.claims, w, op.size, op.kind, op.placed, t);
      CreateSlice(s, op.h, Resource(op.node, KIND_MEMORY, op.placed.value, op.size, op.job, op.sync), op.kind);
    }
  }

  /** Declaring anything but memory leaves the slices as they are. */
  lemma KeepDeclare(s: State, h: u64, rd: Resource)
    requires Inv(s) && MemoryOk(s) && Fresh(s, h) && rd.kind != KIND_MEMORY
    ensures MemoryOk(CreateResource(s, h, rd).0)
  {
    var s' := CreateResource(s, h, rd).0;
    forall r | IsSlice(s', r)
      ensures IsSlice(s, r) && Backed(s', r) && s'.resources[r] == s.resources[r]
    {
      assert IsSlice(s, r) && Backed(s, r);
    }
  }

  /** Freeing one base address leaves every claim with another base in place. */
  lemma FreedKeeps(t: MM.Table, base: u64, other: u64, size: u64)
    requires ClaimFor(t, other, size) && other != base
    ensures ClaimFor(MM.Freed(t, base), other, size)
  {
    var i :| 0 <= i < |t| && t[i].used && t[i].base == other && t[i].size == size;
    assert MM.Freed(t, base)[i] == t[i];
  }

  /** RELEASE_SLICE takes the resource and its claim away together: its whole
      range is unclaimed afterwards, and every other slice is still backed. */
  lemma ReleaseTakesBoth(s: State, r: u64, job: u64)
    requires Inv(s) && MemoryOk(s) && r != s.pool && ReleaseSlice(s, r, job).1
    ensures var s' := ReleaseSlice(s, r, job).0; var rd := s.resources[r];
            && MemoryOk(s') && s'.resources == s.resources - {r}
            && (forall a :: rd.descriptor <= a < rd.descriptor + rd.capacity ==> !MM.Covered(s'.claims, a))
            && (forall a :: !(rd.descriptor <= a < rd.descriptor + rd.capacity) ==>
                (MM.Covered(s'.claims, a) <==> MM.Covered(s.claims, a)))
  {
    var s' := ReleaseSlice(s, r, job).0;
    var rd := s.resources[r];
    var t, t' := s.claims, s'.claims;
    assert IsSlice(s, r) && Backed(s, r);
    var k := MM.FirstUsed(t, rd.descriptor).value;
    assert t[k].size == rd.capacity;
    assert t' == t[k := t[k].(used := false)];
    forall q | IsSlice(s', q)
      ensures Backed(s', q)
    {
      assert IsSlice(s, q) && Backed(s, q);
      FreedKeeps(t, rd.descriptor, s.resources[q].descriptor, s.resources[q].capacity);
    }
    forall p, q | IsSlice(s', p) && IsSlice(s', q) && p != q
      ensures s'.resources[p].descriptor != s'.resources[q].descriptor
    {
      assert IsSlice(s, p) && IsSlice(s, q);
    }
    forall a: int
      ensures MM.Covered(t', a) <==> MM.Covered(t, a) && !(rd.descriptor <= a < rd.descriptor + rd.capacity)
    {
      UncoverOne(t, k, a);
    }
  }

  lemma UncoverOne(t: MM.Table, k: nat, a: int)
    requires MM.WellFormed(t) && MM.Positive(t) && k < |t| && t[k].used
    ensures MM.Covered(t[k := t[k].(used := false)], a) <==> MM.Covered(t, a) && !(t[k].base <= a < t[k].Limit())
  {
    var t' := t[k := t[k].(used := false)];
    if MM.Covered(t', a) {
      var i :| 0 <= i < |t'| && t'[i].used && t'[i].base <= a < t'[i].Limit();
      assert t[i] == t'[i];
      assert i < k ==> !MM.Meet(t[i].base, t[i].Limit(), t[k].base, t[k].Limit());
      assert k < i ==> !MM.Meet(t[k].base, t[k].Limit(), t[i].base, t[i].Limit());
    }
    if MM.Covered(t, a) && !(t[k].base <= a < t[k].Limit()) {
      var i :| 0 <= i < |t| && t[i].used && t[i].base <= a < t[i].Limit();
      assert t'[i] == t[i];
    }
  }

  lemma {:induction false} SweepShrinks(s: State, node: u64, k: nat)
    requires k <= |s.index|
    ensures Shrinks(s.resources, SweepResources(s, node, k).resources)
    decreases k
  {
    if k > 0 { SweepShrinks(s, node, k - 1); }
  }

  lemma {:induction false} JobSweepShrinks(s: State, node: u64, k: nat)
    requires k <= |s.jobs|
    ensures Shrinks(s.resources, SweepJobs(s, node, k).resources)
    decreases k
  {
    if k > 0 { JobSweepShrinks(s, node, k - 1); }
  }

  lemma KeepLeaveMemory(s: State, node: u64)
    requires MemoryOk(s)
    ensures MemoryOk(LeaveNode(s, node))
  {
    match FindNode(s.nodes, node, 0)
    case None =>
    case Some(i) =>
      var s1 := s.(nodes := s.nodes[i := s.nodes[i].(used := false)]);
      SweepShrinks(s1, node, |s1.index|);
      var s2 := SweepResources(s1, node, |s1.index|);
      JobSweepShrinks(s2, node, |s2.jobs|);
      KeepMemory(s, s1);
      KeepMemory(s1, s2);
      KeepMemory(s2, SweepJobs(s2, node, |s2.jobs|));
  }

  lemma KeepGetNextMemory(s: State, node: u64)
    requires MemoryOk(s)
    ensures MemoryOk(GetNextJob(s, node).0)
  {
    GetNextParts(s, node);
    if Chosen(s, node) >= 0 {
      KeepMemory(s, Dispatch(Scanned(s, node), node, Chosen(s, node)));
    } else {
      KeepMemory(s, Scanned(s, node));
    }
  }

  lemma KeepDirectMemory(s: State, w: MM.Window, op: Op)
    requires Inv(s) && MemoryOk(s) && Enabled(s, w, op) && Disciplined(s, op) && (op.ClaimDirect? || op.AllocDirect?)
    ensures MemoryOk(Next(s, op))
  {
    match op
    case ClaimDirect(b, z, k) =>
      MM.ClaimKeepsWellFormed(s.claims, b, z, k);
      KeepMoreClaims(s, MM.Claimed(s.claims, b, z, k));
    case AllocDirect(z, k, p) =>
      var t := s.claims + (if p.Some? then [MM.Claim(p.value, z, k, true)] else []);
      MM.AllocKeepsWellFormed(s.claims, w, z, k, p, t);
      KeepMoreClaims(s, t);
  }

  /** Methods that neither touch claims nor create resources. */
  ghost predicate SparesMemory(op: Op) {
    || op.Join? || op.Reassign? || op.Submit? || op.Report? || op.Lock? || op.Unlocking?
    || op.ReserveDirect? || op.ReleaseDirect? || op.ReassignDirect?
  }

  lemma SparingStepKeepsMemory(s: State, op: Op)
    requires |s.completions| == MAX_JOBS && MemoryOk(s) && SparesMemory(op)
    ensures MemoryOk(Next(s, op))
  {
    KeepMemory(s, Next(s, op));
  }

  lemma StepKeepsMemory(s: State, w: MM.Window, op: Op)
    requires Inv(s) && MemoryOk(s) && Enabled(s, w, op) && Disciplined(s, op)
    ensures MemoryOk(Next(s, op))
  {
    if SparesMemory(op) {
      SparingStepKeepsMemory(s, op);
    } else {
      match op
      case Request(_, _, _, _, _, _) => KeepRequest(s, w, op);
      case Allocate(_, _, _, _, _, _, _) => KeepAllocate(s, w, op);
      case Declare(n, k, d, c, y, h) => KeepDeclare(s, h, Resource(n, k, d, c, 0, y));
      case ReleaseOf(r, j) => if ReleaseSlice(s, r, j).1 { ReleaseTakesBoth(s, r, j); }
      case Leave(n) => KeepLeaveMemory(s, n);
      case GetNext(n) => KeepGetNextMemory(s, n);
      case ClaimDirect(_, _, _) => KeepDirectMemory(s, w, op);
      case AllocDirect(_, _, _) => KeepDirectMemory(s, w, op);
    }
  }

  lemma BootKeepsMemory(w: MM.Window, claims: MM.Table, h: u64)
    requires w.min <= w.max && MM.WellFormed(claims) && MM.Positive(claims)
    ensures MemoryOk(Boot(w, claims, h))
  {
    var s := Boot(w, claims, h);
    assert s.claims == claims && forall r :: !IsSlice(s, r);
  }

  /** In particular over the claims the memory manager makes at boot. */
  lemma BootClaimsKeepMemory(w: MM.Window, loader: Option<MM.Region>, h: u64)
    requires w.min <= w.max && (loader.Some? ==> loader.value.base + loader.value.size < TWO64)
    ensures MemoryOk(Boot(w, MM.BootTable(loader), h))
  {
    MM.BootTableGood(loader);
    BootKeepsMemory(w, MM.BootTable(loader), h);
  }

  lemma {:induction false} RunKeepsMemory(ss: seq<State>, w: MM.Window, ops: seq<Op>, n: nat)
    requires IsRun(ss, w, ops) && MemoryOk(ss[0]) && n < |ss|
    requires forall k :: 0 <= k < |ops| ==> Disciplined(ss[k], ops[k])
    ensures MemoryOk(ss[n])
  {
    if n > 0 {
      RunKeepsMemory(ss, w, ops, n - 1);
      RunKeepsInv(ss, w, ops, n - 1);
      StepKeepsMemory(ss[n - 1], w, ops[n - 1]);
    }
  }

  /** In every disciplined run, two live slices never share an address. */
  lemma SlicesDisjoint(ss: seq<State>, w: MM.Window, ops: seq<Op>, n: nat, r: u64, q: u64)
    requires IsRun(ss, w, ops) && MemoryOk(ss[0]) && n < |ss|
    requires forall k :: 0 <= k < |ops| ==> Disciplined(ss[k], ops[k])
    requires IsSlice(ss[n], r) && IsSlice(ss[n], q) && r != q
    ensures var (x, y) := (ss[n].resources[r], ss[n].resources[q]);
            !MM.Meet(x.descriptor, x.descriptor + x.capacity, y.descriptor, y.descriptor + y.capacity)
  {
    RunKeepsMemory(ss, w, ops, n);
    BackedApart(ss[n], r, q);
  }

  lemma BackedApart(s: State, r: u64, q: u64)
    requires MemoryOk(s) && IsSlice(s, r) && IsSlice(s, q) && r != q
    ensures var (x, y) := (s.resources[r], s.resources[q]);
            !MM.Meet(x.descriptor, x.descriptor + x.capacity, y.descriptor, y.descriptor + y.capacity)
  {
    assert Backed(s, r) && Backed(s, q);
    var x, y := s.resources[r], s.resources[q];
    var i :| 0 <= i < |s.claims| && s.claims[i].used && s.claims[i].base == x.descriptor
             && s.claims[i].size == x.capacity;
    var j :| 0 <= j < |s.claims| && s.claims[j].used && s.claims[j].base == y.descriptor
             && s.claims[j].size == y.capacity;
    assert i < j ==> !MM.Meet(s.claims[i].base, s.claims[i].Limit(), s.claims[j].base, s.claims[j].Limit());
    assert j < i ==> !MM.Meet(s.claims[j].base, s.claims[j].Limit(), s.claims[i].base, s.claims[i].Limit());
  }

  /** Releasing the pool resource frees whatever claim starts where the pool does,
      so it keeps the slices backed exactly when no slice starts there. */
  lemma PoolReleaseIsSafeIff(s: State, job: u64)
    requires Inv(s) && MemoryOk(s) && ReleaseSlice(s, s.pool, job).1
    ensures MemoryOk(ReleaseSlice(s, s.pool, job).0) <==>
            forall r :: IsSlice(s, r) ==> s.resources[r].descriptor != s.resources[s.pool].descriptor
  {
    var s' := ReleaseSlice(s, s.pool, job).0;
    var base := s.resources[s.pool].descriptor;
    var k := MM.FirstUsed(s.claims, base).value;
    if r :| IsSlice(s, r) && s.resources[r].descriptor == base {
      assert IsSlice(s', r);
      forall i | 0 <= i < |s'.claims| && s'.claims[i].used
        ensures s'.claims[i].base != base
      {
        assert i < k ==> !MM.Meet(s.claims[i].base, s.claims[i].Limit(), s.claims[k].base, s.claims[k].Limit());
        assert k < i ==> !MM.Meet(s.claims[k].base, s.claims[k].Limit(), s.claims[i].base, s.claims[i].Limit());
      }
      assert !Backed(s', r);
    } else {
      forall q | IsSlice(s', q)
        ensures Backed(s', q)
      {
        assert IsSlice(s, q) && Backed(s, q);
        FreedKeeps(s.claims, base, s.resources[q].descriptor, s.resources[q].capacity);
      }
      forall p, q | IsSlice(s', p) && IsSlice(s', q) && p != q
        ensures s'.resources[p].descriptor != s'.resources[q].descriptor
      {
        assert IsSlice(s, p) && IsSlice(s, q);
      }
    }
  }
}
