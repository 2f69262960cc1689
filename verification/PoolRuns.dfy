/** Whole runs of the pool. */
module PoolRuns {
  import opened Blocks
  import opened ForkTree
  import opened Rerooting
  import opened PoolSteps
  import opened PoolMachine

  datatype Step =
    | DoInsert(chain: Id, block: Block)
    | DoFork(parent: Id, snippet: Snippet)
    | DoWrite
    | DoRollback(height: int)
    | DoDirect(block: Block)
    | DoSwitch(target: Id)

  /** What the code asks of a step; for a switch, only that no swap dereferences nil. */
  ghost predicate Enabled(p: Pool, st: Step)
    requires Inv(p)
  {
    match st
    case DoInsert(c, _) => c in p.chains
    case DoFork(parent, s) => Forks(p, parent, s)
    case DoWrite => p.chains[p.current].tail < p.chains[p.current].head
    case DoRollback(n) => -1 <= n
    case DoDirect(b) => NextOnDisk(p.disk, b)
    case DoSwitch(to) => to in p.chains && Switch(p, to, false).Some?
  }

  /** An accepted switch is over fitting hops: the condition of RerootingExact. */
  ghost predicate Fitting(p: Pool, st: Step)
    requires Inv(p) && Enabled(p, st)
  {
    st.DoSwitch? && HoldsHead(p, st.target) ==> HopsFit(p, st.target, false)
  }

  /** And the target's root stands complete at the disk's head. */
  ghost predicate Safe(p: Pool, st: Step)
    requires Inv(p) && Enabled(p, st)
  {
    && Fitting(p, st)
    && (st.DoSwitch? && HoldsHead(p, st.target) ==> RootedAtHead(p, st.target))
  }

  ghost function Apply(p: Pool, st: Step): Pool
    requires Inv(p) && Enabled(p, st)
  {
    match st
    case DoInsert(c, w) => Insert(p, c, w)
    case DoFork(parent, s) => Fork(p, parent, s)
    case DoWrite => WriteIsRegrown(p); Write(p)
    case DoRollback(n) => PopTo(p, n)
    case DoDirect(b) => Direct(p, b)
    case DoSwitch(to) => Switch(p, to, false).value
  }

  /** A rollback disturbs a chain that reaches the disk other than through current, above the
      height rolled back to. Nothing else disturbs a chain. */
  ghost predicate Undisturbed(p: Pool, st: Step, id: Id)
    requires Acyclic(p) && id in p.chains
  {
    st.DoRollback? ==> Root(p, id) == p.current || LowTail(p, id) <= st.height
  }

  lemma InsertKeepsInv(p: Pool, c: Id, w: Block)
    requires Inv(p) && c in p.chains
    ensures Inv(Insert(p, c, w))
  {
    var q := Insert(p, c, w);
    InsertTreeOk(p, c, w);
    forall id | id in q.chains && Root(q, id) == q.current
      ensures Sound(q, id)
    {
      SameRefsRoot(p, q, id);
      InsertContinues(p, c, w, id);
    }
  }

  lemma WriteKeepsInv(p: Pool)
    requires Inv(p) && p.chains[p.current].tail < p.chains[p.current].head
    ensures p.chains[p.current].tail + 1 in p.chains[p.current].blocks && Inv(Write(p))
  {
    WriteIsRegrown(p);
    WriteDiskOk(p);
    var q := Write(p);
    forall id | id in q.chains && Root(q, id) == q.current
      ensures Sound(q, id)
    {
      SameRefsRoot(p, q, id);
      WriteContinues(p, id);
    }
  }

  /** Every step but a switch keeps the invariant; a switch over fitting hops keeps it exactly
      when it is safe. */
  lemma StepKeepsInvExactly(p: Pool, st: Step)
    requires Inv(p) && Enabled(p, st) && Fitting(p, st)
    ensures Inv(Apply(p, st)) <==> Safe(p, st)
  {
    match st
    case DoInsert(c, w) => InsertKeepsInv(p, c, w);
    case DoFork(parent, s) => ForkKeepsInv(p, parent, s);
    case DoWrite => WriteKeepsInv(p);
    case DoRollback(n) => CurrentIsSound(p); PopToContinues(p, n, p.current);
    case DoDirect(b) => DirectKeepsInv(p, b);
    case DoSwitch(to) =>
      if HoldsHead(p, to) { SwitchKeepsInvExactly(p, to, false); } else { SwitchMeans(p, to, false); }
  }

  /** A step that does not disturb a complete chain leaves its blocks as they were; at most it
      extends the chain at its head. A switch need not be safe for that. */
  lemma StepContinues(p: Pool, st: Step, id: Id)
    requires Inv(p) && Enabled(p, st) && Fitting(p, st)
    requires id in p.chains && Sound(p, id) && Undisturbed(p, st, id)
    ensures Acyclic(Apply(p, st)) && Continues(p, Apply(p, st), id)
  {
    match st
    case DoInsert(c, w) => InsertContinues(p, c, w, id);
    case DoFork(parent, s) => ForkContinues(p, parent, s, id);
    case DoWrite => WriteContinues(p, id);
    case DoRollback(n) => PopToContinues(p, n, id);
    case DoDirect(b) => DirectContinues(p, b, id);
    case DoSwitch(to) =>
      TreeIsShapely(p);
      if HoldsHead(p, to) { SwitchContinues(p, to, false, id); } else { SwitchMeans(p, to, false); SameContinues(p, p, id); }
  }

  // ---------------------------------------------------------------- runs

  /** Steps the code takes, with switches that are safe. */
  ghost predicate Runs(p: Pool, steps: seq<Step>)
    requires Inv(p)
    decreases |steps|
  {
    steps != [] ==>
      && Enabled(p, steps[0]) && Safe(p, steps[0])
      && (StepKeepsInvExactly(p, steps[0]); Runs(Apply(p, steps[0]), steps[1..]))
  }

  ghost function After(p: Pool, steps: seq<Step>): Pool
    requires Inv(p) && Runs(p, steps)
    decreases |steps|
  {
    if steps == [] then p else StepKeepsInvExactly(p, steps[0]); After(Apply(p, steps[0]), steps[1..])
  }

  /** Steps the code takes, with switches over fitting hops, as long as the invariant holds. */
  ghost predicate Stays(p: Pool, steps: seq<Step>)
    requires Inv(p)
    decreases |steps|
  {
    steps != [] ==>
      && Enabled(p, steps[0]) && Fitting(p, steps[0])
      && Inv(Apply(p, steps[0])) && Stays(Apply(p, steps[0]), steps[1..])
  }

  /** A run over fitting hops stays within the invariant exactly when all its switches are safe. */
  lemma {:induction false} RunStaysExactly(p: Pool, steps: seq<Step>)
    requires Inv(p)
    ensures Stays(p, steps) <==> Runs(p, steps)
    decreases |steps|
  {
    if steps != [] && Enabled(p, steps[0]) && Fitting(p, steps[0]) {
      StepKeepsInvExactly(p, steps[0]);
      if Safe(p, steps[0]) { RunStaysExactly(Apply(p, steps[0]), steps[1..]); }
    }
  }

  /** `init` over a hash-linked disk: one empty chain at the disk's head. */
  function Init(disk: seq<Block>): Pool {
    var head := DiskHead(disk);
    Pool(disk, map[1 := Forked(head.height, head.hash, head.height, head.hash, map[], Disk)], 1, 1)
  }

  lemma InitKeepsInv(disk: seq<Block>)
    requires DiskOk(disk)
    ensures Inv(Init(disk))
  {
    var p := Init(disk);
    assert Ranked(p, map[1 := 0]);
    assert ChainOk(p, 1);
    OnDiskIsSound(p, 1);
  }

  /** Every pool reached from a start by such a run satisfies the invariant. */
  lemma {:induction false} EveryRunKeepsInv(p: Pool, steps: seq<Step>)
    requires Inv(p) && Runs(p, steps)
    ensures Inv(After(p, steps))
    decreases |steps|
  {
    if steps != [] {
      StepKeepsInvExactly(p, steps[0]);
      EveryRunKeepsInv(Apply(p, steps[0]), steps[1..]);
    }
  }

  lemma ReachableFromInit(disk: seq<Block>, steps: seq<Step>)
    requires DiskOk(disk) && (InitKeepsInv(disk); Runs(Init(disk), steps))
    ensures Inv(After(Init(disk), steps))
  {
    InitKeepsInv(disk);
    EveryRunKeepsInv(Init(disk), steps);
  }

  ghost predicate NeverDisturbed(p: Pool, steps: seq<Step>, id: Id)
    requires Inv(p) && Runs(p, steps) && id in p.chains && Sound(p, id)
    decreases |steps|
  {
    steps != [] ==>
      && Undisturbed(p, steps[0], id)
      && (StepKeepsInvExactly(p, steps[0]); StepContinues(p, steps[0], id); NeverDisturbed(Apply(p, steps[0]), steps[1..], id))
  }

  /** A chain no rollback disturbs keeps every block it ever meant, through any run. */
  lemma {:induction false} EveryRunContinues(p: Pool, steps: seq<Step>, id: Id)
    requires Inv(p) && Runs(p, steps) && id in p.chains && Sound(p, id) && NeverDisturbed(p, steps, id)
    ensures Inv(After(p, steps)) && Continues(p, After(p, steps), id)
    decreases |steps|
  {
    if steps == [] {
      SameContinues(p, p, id);
    } else {
      StepKeepsInvExactly(p, steps[0]);
      StepContinues(p, steps[0], id);
      var q := Apply(p, steps[0]);
      EveryRunContinues(q, steps[1..], id);
      ContinuesTrans(p, q, After(q, steps[1..]), id);
    }
  }

  // ---------------------------------------------------------------- rollback, exactly

  lemma {:induction false} PopToRoots(p: Pool, n: int, id: Id)
    requires Inv(p) && -1 <= n && id in p.chains
    ensures Inv(PopTo(p, n)) && Root(PopTo(p, n), id) == Root(p, id)
    ensures Root(p, id) != p.current ==> LowTail(PopTo(p, n), id) == LowTail(p, id)
    ensures |PopTo(p, n).disk| - 1 == Min(|p.disk| - 1, n)
    ensures PopTo(p, n).chains[id].head == p.chains[id].head
    ensures PopTo(p, n).chains[id].headHash == p.chains[id].headHash
    decreases |p.disk|
  {
    CurrentIsSound(p);
    if |p.disk| - 1 > n {
      PopKeepsInv(p);
      PopIsRegrown(p);
      var q := Pop(p);
      SameRefsRoot(p, q, id);
      if Root(p, id) != p.current { RegrownElsewhere(q, p, id, 0); }
      PopToRoots(q, n, id);
    }
  }

  /** Rolling back leaves a complete chain's meaning alone exactly when the chain rests on
      current, or reaches the disk at or below the height rolled back to, or nothing is rolled
      back. */
  lemma RollbackKeepsExactly(p: Pool, n: int, id: Id)
    requires Inv(p) && -1 <= n && id in p.chains && Sound(p, id)
    ensures Inv(PopTo(p, n))
    ensures SameLogical(p, PopTo(p, n), id)
       <==> Root(p, id) == p.current || LowTail(p, id) <= n || |p.disk| - 1 <= n
  {
    PopToRoots(p, n, id);
    var q := PopTo(p, n);
    if Root(p, id) == p.current || LowTail(p, id) <= n {
      PopToContinues(p, n, id);
    } else if n < |p.disk| - 1 {
      LowTailIsLow(p, id);
      assert ChainOk(p, id);
      LookupSplits(p, id, n + 1);
      LookupSplits(q, id, n + 1);
    }
  }

  // ---------------------------------------------------------------- rewriting what was rolled back

  /** Writes of current's `k` lowest blocks. */
  ghost function Rewrite(p: Pool, k: nat): Pool
    requires Inv(p) && k <= p.chains[p.current].head - p.chains[p.current].tail
    ensures Rewrite(p, k).current == p.current
    decreases k
  {
    if k == 0 then p else WriteKeepsInv(p); Rewrite(Write(p), k - 1)
  }

  function WithTailHash(p: Pool, hash: Hash): Pool
    requires p.current in p.chains
  {
    p.(chains := p.chains[p.current := p.chains[p.current].(tailHash := hash)])
  }

  lemma PopThenWrite(p: Pool)
    requires Inv(p) && |p.disk| > 0
    ensures Inv(Pop(p)) && Pop(p).chains[p.current].tail + 1 in Pop(p).chains[p.current].blocks
    ensures Write(Pop(p)) == WithTailHash(p, DiskHead(p.disk).hash)
  {
    PopKeepsInv(p);
    CurrentIsSound(p);
    assert ChainOk(p, p.current);
    PopShape(p);
    var c, h := p.chains[p.current], |p.disk| - 1;
    assert c.blocks[h := p.disk[h]] - {h} == c.blocks;
    assert p.disk[..h] + [p.disk[h]] == p.disk;
  }

  lemma {:induction false} RewriteLast(p: Pool, k: nat)
    requires Inv(p) && 0 < k <= p.chains[p.current].head - p.chains[p.current].tail
    ensures Inv(Rewrite(p, k - 1))
    ensures var q := Rewrite(p, k - 1);
            && q.chains[q.current].tail + 1 in q.chains[q.current].blocks && Rewrite(p, k) == Write(q)
    decreases k
  {
    WriteKeepsInv(p);
    if k > 1 { RewriteLast(Write(p), k - 1); }
  }

  /** Writing verified blocks down keeps the invariant and every complete chain. */
  lemma {:induction false} RewriteContinues(p: Pool, k: nat, id: Id)
    requires Inv(p) && k <= p.chains[p.current].head - p.chains[p.current].tail
    requires id in p.chains && Sound(p, id)
    ensures Inv(Rewrite(p, k)) && Continues(p, Rewrite(p, k), id)
    ensures |Rewrite(p, k).disk| == |p.disk| + k && Rewrite(p, k).disk[..|p.disk|] == p.disk
    decreases k
  {
    if k == 0 {
      SameContinues(p, p, id);
    } else {
      WriteKeepsInv(p);
      WriteContinues(p, id);
      RewriteContinues(Write(p), k - 1, id);
      ContinuesTrans(p, Write(p), Rewrite(p, k), id);
    }
  }

  /** Writing back what was rolled back restores disk and memory; only current's tail hash is
      refreshed. */
  lemma {:induction false} RewriteRestores(p: Pool, n: int)
    requires Inv(p) && -1 <= n < |p.disk| - 1
    ensures var q, k := PopTo(p, n), |p.disk| - 1 - n;
            && Inv(q) && k <= q.chains[q.current].head - q.chains[q.current].tail
            && Rewrite(q, k) == WithTailHash(p, DiskHead(p.disk).hash)
    decreases |p.disk|
  {
    PopKeepsInv(p);
    PopToRoots(p, n, p.current);
    assert ChainOk(p, p.current);
    var p', q, k := Pop(p), PopTo(p, n), |p.disk| - 1 - n;
    if k == 1 {
      assert Rewrite(q, 0) == p';
    } else {
      RewriteRestores(p', n);
      assert DiskLinkAt(p.disk, |p.disk| - 1);
      assert DiskHead(p'.disk).hash == p'.chains[p'.current].tailHash;
      assert WithTailHash(p', DiskHead(p'.disk).hash) == p';
    }
    RewriteLast(q, k);
    PopThenWrite(p);
  }

  /** So rolling back and writing back is the identity exactly when current knew its tail hash. */
  lemma RollbackThenWriteExactly(p: Pool, n: int)
    requires Inv(p) && -1 <= n < |p.disk| - 1
    ensures var q, k := PopTo(p, n), |p.disk| - 1 - n;
            && Inv(q) && k <= q.chains[q.current].head - q.chains[q.current].tail
            && (Rewrite(q, k) == p <==> p.chains[p.current].tailHash == DiskHead(p.disk).hash)
  {
    RewriteRestores(p, n);
    var c := p.chains[p.current];
    var p' := WithTailHash(p, DiskHead(p.disk).hash);
    if c.tailHash == DiskHead(p.disk).hash {
      assert p.chains[p.current := c] == p.chains;
    } else {
      assert p'.chains[p.current].tailHash != c.tailHash;
    }
  }
}
